/** What one command can and cannot do, for every book and every request. */
module MatchingTheorems {
  import opened MatchingTypes
  import opened PriceTimeList
  import opened ReferenceBook
  import opened ReferenceMatcher

  // ------------------------------------------------------------------ the dry run agrees with the loop

  /** One step fills exactly what it takes off the dry run. */
  lemma {:induction false} StepFillable(t: Taker, m: Matching)
    requires !Done(t, m)
    ensures var m' := Step(t, m);
      Min(m.remaining, Fillable(t, Makers(t, m)))
        == m.remaining - m'.remaining
           + (if m'.stopped then 0 else Min(m'.remaining, Fillable(t, Makers(t, m'))))
  {
    var l := Makers(t, m);
    var m' := Step(t, m);
    if l[0].accountId != t.accountId && l[0].remaining > m.remaining {
      assert m'.remaining == 0;
    } else if m'.stopped {
    } else {
      assert Makers(t, m') == l[1..];
    }
  }

  /** The mutating loop fills exactly what the read-only dry run says it can. */
  lemma {:induction false} MatchFillsExactly(t: Taker, m: Matching)
    requires !m.stopped
    ensures m.remaining - Match(t, m).remaining == Min(m.remaining, Fillable(t, Makers(t, m)))
    decreases |Makers(t, m)|, m.remaining
  {
    if Done(t, m) {
    } else {
      StepFillable(t, m);
      if !Step(t, m).stopped { MatchFillsExactly(t, Step(t, m)); }
    }
  }

  // ------------------------------------------------------------------ sums over events

  function FilledIn(e: Event, id: OrderId): nat {
    if e.Filled?
    then (if e.fill.takerOrderId == id then e.fill.qty else 0) + (if e.fill.makerOrderId == id then e.fill.qty else 0)
    else 0
  }

  /** Quantity traded by an order, on either side of a fill. */
  function FilledQty(events: seq<Event>, id: OrderId): nat {
    if events == [] then 0
    else FilledQty(events[..|events| - 1], id) + FilledIn(events[|events| - 1], id)
  }

  function ReleasedIn(e: Event, id: OrderId): nat {
    if (e.Cancelled? || e.Expired?) && e.orderId == id then e.remainingQty else 0
  }

  /** Quantity an order's `Cancelled` and `Expired` events say will never fill. */
  function ReleasedQty(events: seq<Event>, id: OrderId): nat {
    if events == [] then 0
    else ReleasedQty(events[..|events| - 1], id) + ReleasedIn(events[|events| - 1], id)
  }

  function RestingIn(l: seq<RestingOrder>, id: OrderId): nat {
    if l == [] then 0
    else (if l[0].orderId == id then l[0].remaining else 0) + RestingIn(l[1..], id)
  }

  /** Quantity of an order still on the book. */
  function RestingQty(b: Book, id: OrderId): nat { RestingIn(b.bids, id) + RestingIn(b.asks, id) }

  lemma EventSumsPush(events: seq<Event>, e: Event, id: OrderId)
    ensures FilledQty(events + [e], id) == FilledQty(events, id) + FilledIn(e, id)
    ensures ReleasedQty(events + [e], id) == ReleasedQty(events, id) + ReleasedIn(e, id)
    ensures FillCount(events + [e]) == FillCount(events) + (if e.Filled? then 1 else 0)
  {
    assert (events + [e])[..|events|] == events;
  }

  lemma {:induction false} EventSumsCons(e: Event, events: seq<Event>, id: OrderId)
    ensures FilledQty([e] + events, id) == FilledIn(e, id) + FilledQty(events, id)
    ensures ReleasedQty([e] + events, id) == ReleasedIn(e, id) + ReleasedQty(events, id)
  {
    if events == [] {
      assert [e] + events == [e] && [e][..0] == [];
    } else {
      var last := |events| - 1;
      EventSumsCons(e, events[..last], id);
      assert ([e] + events)[..|events|] == [e] + events[..last];
    }
  }

  lemma {:induction false} RestingRemove(l: seq<RestingOrder>, o: RestingOrder, id: OrderId)
    requires DistinctIds(l) && o in l
    ensures RestingIn(RemoveId(l, o.orderId), id) == RestingIn(l, id) - (if id == o.orderId then o.remaining else 0)
  {
    if l[0] == o {
      ConsumeHead(l, 0);
    } else {
      RestingRemove(l[1..], o, id);
      assert l[0].orderId != o.orderId;
      assert ([l[0]] + RemoveId(l[1..], o.orderId))[1..] == RemoveId(l[1..], o.orderId);
    }
  }

  lemma {:induction false} RestingInsert(side: Side, l: seq<RestingOrder>, o: RestingOrder, id: OrderId)
    ensures RestingIn(Insert(side, l, o), id) == RestingIn(l, id) + (if id == o.orderId then o.remaining else 0)
  {
    if l == [] {
    } else {
      if AtLeastAsGood(side, l[0].price, o.price) {
        RestingInsert(side, l[1..], o, id);
        assert ([l[0]] + Insert(side, l[1..], o))[1..] == Insert(side, l[1..], o);
      } else {
        assert ([o] + l)[1..] == l;
      }
    }
  }

  lemma {:induction false} RestingAbsent(l: seq<RestingOrder>, id: OrderId)
    requires !HasId(l, id)
    ensures RestingIn(l, id) == 0
  {
    if l == [] {
    } else {
      assert l[0] in l && forall o :: o in l[1..] ==> o in l;
      RestingAbsent(l[1..], id);
    }
  }

  // ------------------------------------------------------------------ conservation inside one match

  /** Everything ever accounted to an order while matching: traded, released, resting, still to take. */
  function Accounted(t: Taker, m: Matching, id: OrderId): nat {
    FilledQty(m.events, id) + ReleasedQty(m.events, id) + RestingQty(m.book, id)
    + (if id == t.orderId then m.remaining else 0)
  }

  lemma StepConserves(t: Taker, m: Matching, id: OrderId)
    requires !Done(t, m)
    ensures Accounted(t, Step(t, m), id) == Accounted(t, m, id)
  {
    var l := Makers(t, m);
    var m' := Step(t, m);
    var l' := Makers(t, m');
    if m'.events != m.events {
      var e := m'.events[|m.events|];
      assert m'.events == m.events + [e];
      EventSumsPush(m.events, e, id);
      if l' != l[1..] { assert l' == [l'[0]] + l[1..] && l'[1..] == l[1..]; }
    }
  }

  /** Matching moves quantity between an order's fills, its releases and its remainder; it makes none. */
  lemma {:induction false} MatchConserves(t: Taker, m: Matching, id: OrderId)
    ensures Accounted(t, Match(t, m), id) == Accounted(t, m, id)
    decreases !m.stopped, |Makers(t, m)|, m.remaining
  {
    if Done(t, m) {
    } else {
      StepConserves(t, m, id);
      MatchConserves(t, Step(t, m), id);
    }
  }

  /** The remainder moves exactly when something trades. */
  lemma {:induction false} RemainderMovesWithFills(t: Taker, m: Matching)
    requires forall o :: o in Makers(t, m) ==> o.remaining > 0
    ensures var r := Match(t, m);
      && FillCount(r.events) >= FillCount(m.events)
      && (FillCount(r.events) == FillCount(m.events) <==> r.remaining == m.remaining)
    decreases !m.stopped, |Makers(t, m)|, m.remaining
  {
    if Done(t, m) {
    } else {
      var m' := Step(t, m);
      if m'.events != m.events { EventSumsPush(m.events, m'.events[|m.events|], t.orderId); }
      assert Makers(t, m)[0] in Makers(t, m);
      RemainderMovesWithFills(t, m');
      MatchShrinks(t, m');
    }
  }

  lemma {:induction false} MatchShrinks(t: Taker, m: Matching)
    ensures Match(t, m).remaining <= m.remaining
    decreases !m.stopped, |Makers(t, m)|, m.remaining
  {
    if Done(t, m) {
    } else {
      MatchShrinks(t, Step(t, m));
    }
  }

  // ------------------------------------------------------------------ conservation per command

  /** The quantity a command puts forward under an id. An amend of an unknown order places nothing. */
  function PlacedBy(e: EngineState, c: Command, id: OrderId): nat {
    match c
    case Place(orderId, request) => if orderId == id then request.qty else 0
    case Amend(orderId, newId, _, qty) => if newId == id && e.book.Contains(orderId) then qty else 0
    case _ => 0
  }

  /** A command whose disposition is `Rejected` hands back all it put forward. */
  function RejectedBy(e: EngineState, c: Command, events: seq<Event>, id: OrderId): nat {
    if events != [] && Last(events).Rejected? then PlacedBy(e, c, id) else 0
  }

  ghost predicate Positive(b: Book) {
    (forall o :: o in b.bids ==> o.remaining > 0) && (forall o :: o in b.asks ==> o.remaining > 0)
  }

  lemma {:induction false} PlaceConserves(e: EngineState, seqNo: nat, ts: int, id: OrderId, request: OrderRequest,
                                          x: OrderId)
    requires Positive(e.book)
    ensures var out := PlaceOrder(e, seqNo, ts, id, request);
      && out.events != []
      && FilledQty(out.events, x) + ReleasedQty(out.events, x) + RestingQty(out.state.book, x)
         + (if x == id && Last(out.events).Rejected? then request.qty else 0)
         == RestingQty(e.book, x) + (if x == id then request.qty else 0)
  {
    hide Validate, Match, Fillable, FilledQty, ReleasedQty, RestingQty, FillCount;
    var out := PlaceOrder(e, seqNo, ts, id, request);
    var t := TakerOf(e, seqNo, ts, id, request);
    var m0 := Matching(e.book, request.qty, [], false);
    var m := Match(t, m0);
    if out == Dispose(e, id, request, t, m) {
      assert FilledQty([], x) == 0 && ReleasedQty([], x) == 0 by { EmptySums(x); }
      MatchConserves(t, m0, x);
      RemainderMovesWithFills(t, m0);
      DisposeConserves(e, id, request, t, m, x);
    } else {
      SingleSums(out.events[0], x);
    }
  }

  lemma EmptySums(id: OrderId)
    ensures FilledQty([], id) == 0 && ReleasedQty([], id) == 0 && FillCount([]) == 0
  {
  }

  function Last<T>(s: seq<T>): T
    requires s != []
  {
    s[|s| - 1]
  }

  lemma SingleSums(e: Event, id: OrderId)
    ensures FilledQty([e], id) == FilledIn(e, id) && ReleasedQty([e], id) == ReleasedIn(e, id)
  {
    assert [e][..0] == [];
  }

  lemma DisposeConserves(e: EngineState, id: OrderId, request: OrderRequest, t: Taker, m: Matching, x: OrderId)
    requires t.orderId == id
    ensures var out := Dispose(e, id, request, t, m);
      FilledQty(out.events, x) + ReleasedQty(out.events, x) + RestingQty(out.state.book, x)
      + (if x == id && Last(out.events).Rejected? then m.remaining else 0)
      == Accounted(t, m, x)
  {
    hide FilledQty, ReleasedQty, FillCount, RestingIn, Insert;
    var out := Dispose(e, id, request, t, m);
    var last := Last(out.events);
    assert out.events == m.events + [last];
    EventSumsPush(m.events, last, x);
    if last.Accepted? && m.remaining > 0 {
      var o := RestingOrder(id, request.accountId, request.side, request.price.value, m.remaining,
                            request.stpMode, t.seqNo);
      assert out.state.book == m.book.Rest(o);
      RestingInsert(o.side, m.book.Of(o.side), o, x);
    } else {
      assert out.state.book == m.book;
    }
  }

  lemma RemoveConserves(b: Book, now: nat, o: RestingOrder, x: OrderId)
    requires BookInv(b, now) && o in b.Of(o.side)
    ensures RestingQty(b.Remove(o), x) == RestingQty(b, x) - (if x == o.orderId then o.remaining else 0)
  {
    RestingRemove(b.Of(o.side), o, x);
  }

  /** Per-order conservation of one command: what an order brings in, by resting or by being placed,
      is what it trades, what it is told will never trade, what still rests and what is rejected. */
  lemma {:induction false} CommandConserves(e: EngineState, c: SequencedCommand, x: OrderId)
    requires BookInv(e.book, e.lastSeq)
    ensures var out := Apply(e, c);
      FilledQty(out.events, x) + ReleasedQty(out.events, x) + RestingQty(out.state.book, x)
      + RejectedBy(e, c.command, out.events, x)
      == RestingQty(e.book, x) + PlacedBy(e, c.command, x)
  {
    hide PlaceOrder, Find, FilledQty, ReleasedQty, RestingQty;
    var e0 := e.(lastSeq := c.seqNo);
    match c.command {
      case Place(id, request) => PlaceConserves(e0, c.seqNo, c.timestampMs, id, request, x);
      case Cancel(id) =>
        SingleSums(Apply(e, c).events[0], x);
        if Lookup(e.book, id).Some? { RemoveConserves(e.book, e.lastSeq, Lookup(e.book, id).value, x); }
      case Amend(id, newId, price, qty) =>
        if Lookup(e.book, id).Some? {
          AmendConserves(e0, e.lastSeq, c, x);
        } else {
          SingleSums(Apply(e, c).events[0], x);
        }
      case SetStatus(_) => SingleSums(Apply(e, c).events[0], x);
    }
  }

  lemma {:induction false} AmendConserves(e: EngineState, now: nat, c: SequencedCommand, x: OrderId)
    requires BookInv(e.book, now) && c.command.Amend? && Lookup(e.book, c.command.orderId).Some?
    ensures var out := AmendOrder(e, c.seqNo, c.timestampMs, c.command.orderId, c.command.newOrderId,
                                  c.command.price, c.command.qty);
      FilledQty(out.events, x) + ReleasedQty(out.events, x) + RestingQty(out.state.book, x)
      + RejectedBy(e, c.command, out.events, x)
      == RestingQty(e.book, x) + PlacedBy(e, c.command, x)
  {
    hide PlaceOrder, Find, FilledQty, ReleasedQty, RestingQty;
    var Amend(id, newId, price, qty) := c.command;
    var o := Lookup(e.book, id).value;
    RemoveConserves(e.book, now, o, x);
    RemoveIdMembers(e.book.Of(o.side), o.orderId);
    var e1 := e.(book := e.book.Remove(o));
    var placed := PlaceOrder(e1, c.seqNo, c.timestampMs, newId, Replacement(o, newId, price, qty));
    PlaceConserves(e1, c.seqNo, c.timestampMs, newId, Replacement(o, newId, price, qty), x);
    EventSumsCons(Cancelled(c.seqNo, id, o.remaining), placed.events, x);
    assert Last([Cancelled(c.seqNo, id, o.remaining)] + placed.events) == Last(placed.events);
  }
}
