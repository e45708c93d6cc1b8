/** What the engine's events promise the settlement worker: its checks on an order never fail. */
module SettlementFeed {
  import opened MatchingTypes
  import opened PriceTimeList
  import opened ReferenceBook
  import opened ReferenceMatcher
  import opened MatchingTheorems
  import opened MatchingInvariants
  import opened MatchingRuns

  /** The event says something about the order. A cancel or an amend of an unknown order does not. */
  predicate Concerns(e: Event, id: OrderId) {
    match e
    case Filled(f) => f.takerOrderId == id || f.makerOrderId == id
    case Accepted(_, orderId, _) => orderId == id
    case Rejected(_, orderId, reason) => orderId == id && reason != UnknownOrder
    case Cancelled(_, orderId, _) => orderId == id
    case Expired(_, orderId, _) => orderId == id
    case StatusChanged(_, _, _) => false
  }

  /** The worker's checks on an order of quantity `owed`, of which `filled` has traded and `released` been
      given up: a fill fits what is left, an ending names exactly what is left and comes once, an acceptance
      names what is left, and a rejection comes before any fill. `named`: this command brought the order in. */
  ghost predicate Agrees(owed: nat, named: bool, filled: nat, released: nat, e: Event, id: OrderId) {
    Concerns(e, id) ==>
      && released == 0
      && match e
         case Filled(f) => f.qty > 0 && filled + FilledIn(e, id) <= owed
         case Accepted(_, _, resting) => named && owed > 0 && filled + resting == owed
         case Rejected(_, _, _) => named && filled == 0
         case Cancelled(_, _, remaining) => remaining > 0 && filled + remaining == owed
         case Expired(_, _, remaining) => remaining > 0 && filled + remaining == owed
         case StatusChanged(_, _, _) => true
  }

  ghost predicate AllAgree(owed: nat, named: bool, events: seq<Event>, id: OrderId) {
    forall p :: 0 <= p < |events| ==>
      Agrees(owed, named, FilledQty(events[..p], id), ReleasedQty(events[..p], id), events[p], id)
  }

  lemma AgreePush(owed: nat, named: bool, events: seq<Event>, e: Event, id: OrderId)
    requires AllAgree(owed, named, events, id)
    requires Agrees(owed, named, FilledQty(events, id), ReleasedQty(events, id), e, id)
    ensures AllAgree(owed, named, events + [e], id)
  {
    hide Agrees, FilledQty, ReleasedQty;
    var all := events + [e];
    forall p | 0 <= p < |all|
      ensures Agrees(owed, named, FilledQty(all[..p], id), ReleasedQty(all[..p], id), all[p], id)
    {
      if p < |events| { assert all[..p] == events[..p]; } else { assert all[..p] == events; }
    }
  }

  /** Nothing is said of an order that has nothing left and that the command does not bring in. */
  lemma {:induction false} NoneConcern(events: seq<Event>, id: OrderId, p: nat)
    requires AllAgree(0, false, events, id) && p < |events|
    ensures !Concerns(events[p], id)
  {
    assert Agrees(0, false, FilledQty(events[..p], id), ReleasedQty(events[..p], id), events[p], id);
  }

  lemma SingleAgrees(owed: nat, named: bool, e: Event, id: OrderId)
    requires Agrees(owed, named, 0, 0, e, id)
    ensures AllAgree(owed, named, [e], id)
  {
    EmptySums(id);
    assert [] + [e] == [e];
    hide Agrees;
    AgreePush(owed, named, [], e, id);
  }

  // ------------------------------------------------------------------ inside one match

  /** Makers are live, distinct, and the taker is not among them; the other side holds none of them. */
  ghost predicate MakersOk(t: Taker, m: Matching) {
    var l, other := Makers(t, m), m.book.Of(t.side);
    && DistinctIds(l)
    && (forall o :: o in l ==> o.remaining > 0 && o.orderId != t.orderId && !HasId(other, o.orderId))
    && !HasId(other, t.orderId)
  }

  lemma StepKeepsMakers(t: Taker, m: Matching)
    requires MakersOk(t, m) && !Done(t, m)
    ensures MakersOk(t, Step(t, m))
  {
    var l := Makers(t, m);
    assert l[0] in l && forall o :: o in l[1..] ==> o in l;
    var m' := Step(t, m);
    assert m'.book.Of(t.side) == m.book.Of(t.side);
    assert forall o :: o in Makers(t, m') ==> o in l || o == l[0].(remaining := o.remaining);
  }

  lemma RestingOfHead(t: Taker, m: Matching)
    requires MakersOk(t, m) && Makers(t, m) != []
    ensures var maker := Makers(t, m)[0];
      maker.remaining > 0 && maker.orderId != t.orderId && RestingQty(m.book, maker.orderId) == maker.remaining
  {
    var l := Makers(t, m);
    var id := l[0].orderId;
    assert l[0] in l;
    RestingAbsent(m.book.Of(t.side), id);
    forall o | o in l[1..] ensures o.orderId != id {
      var i :| 0 <= i < |l[1..]| && l[1..][i] == o;
      assert l[i + 1] == o;
    }
    RestingAbsent(l[1..], id);
  }

  /** Every event so far agrees, nothing was made or lost, and what was released no longer rests. */
  ghost predicate MatchAgrees(owed: nat, t: Taker, m: Matching, id: OrderId) {
    && AllAgree(owed, id == t.orderId, m.events, id) && Accounted(t, m, id) == owed
    && (ReleasedQty(m.events, id) > 0 ==> RestingQty(m.book, id) == 0 && id != t.orderId)
  }

  lemma StepAgrees(owed: nat, t: Taker, m: Matching, id: OrderId)
    requires MatchAgrees(owed, t, m, id) && MakersOk(t, m) && !Done(t, m)
    ensures MatchAgrees(owed, t, Step(t, m), id)
  {
    hide FilledQty, ReleasedQty, RestingQty, FillCount, AllAgree;
    var m' := Step(t, m);
    RestingOfHead(t, m);
    StepConserves(t, m, id);
    if m'.events != m.events {
      var e := m'.events[|m.events|];
      assert m'.events == m.events + [e];
      EventSumsPush(m.events, e, id);
      AgreePush(owed, id == t.orderId, m.events, e, id);
    }
  }

  lemma {:induction false} MatchAllAgree(owed: nat, t: Taker, m: Matching, id: OrderId)
    requires MatchAgrees(owed, t, m, id) && MakersOk(t, m)
    ensures MatchAgrees(owed, t, Match(t, m), id) && MakersOk(t, Match(t, m))
    decreases !m.stopped, |Makers(t, m)|, m.remaining
  {
    hide MatchAgrees, MakersOk, FillCount;
    if Done(t, m) {
    } else {
      StepAgrees(owed, t, m, id);
      StepKeepsMakers(t, m);
      MatchAllAgree(owed, t, Step(t, m), id);
    }
  }

  lemma TakerRestsNowhere(t: Taker, m: Matching)
    requires MakersOk(t, m)
    ensures RestingQty(m.book, t.orderId) == 0
  {
    RestingAbsent(m.book.Of(t.side), t.orderId);
    RestingAbsent(Makers(t, m), t.orderId);
  }

  lemma {:induction false} NoFillNoQuantity(events: seq<Event>, id: OrderId)
    requires FillCount(events) == 0
    ensures FilledQty(events, id) == 0
  {
    if events == [] {
    } else {
      NoFillNoQuantity(events[..|events| - 1], id);
    }
  }

  // ------------------------------------------------------------------ one command

  lemma DisposeAgrees(owed: nat, e: EngineState, oid: OrderId, request: OrderRequest, t: Taker, m: Matching,
                      id: OrderId)
    requires t.orderId == oid && MatchAgrees(owed, t, m, id) && MakersOk(t, m)
    requires owed > 0 || id != oid
    requires m.stopped ==> m.remaining > 0
    ensures AllAgree(owed, id == oid, Dispose(e, oid, request, t, m).events, id)
  {
    hide FilledQty, ReleasedQty, RestingQty, FillCount, AllAgree, MakersOk;
    TakerRestsNowhere(t, m);
    if FillCount(m.events) == 0 { NoFillNoQuantity(m.events, id); }
    var events := Dispose(e, oid, request, t, m).events;
    var last := Last(events);
    assert events == m.events + [last];
    AgreePush(owed, id == oid, m.events, last, id);
  }

  lemma BookMakersOk(t: Taker, b: Book, now: nat, qty: u64)
    requires BookInv(b, now) && !b.Contains(t.orderId)
    ensures MakersOk(t, Matching(b, qty, [], false))
  {
    var l := b.Of(t.side.Opposite());
    forall o | o in l ensures o.orderId != t.orderId {
      if o.orderId == t.orderId { assert HasId(l, t.orderId); }
    }
  }

  lemma AdmittedIsPositive(market: MarketConfig, reference: Option<u64>, request: OrderRequest)
    requires Validate(market, reference, request).None?
    ensures request.qty > 0
  {
  }

  lemma AbsentRestsNowhere(b: Book, id: OrderId)
    requires !b.Contains(id)
    ensures RestingQty(b, id) == 0
  {
    RestingAbsent(b.bids, id);
    RestingAbsent(b.asks, id);
  }

  lemma StartAgrees(t: Taker, b: Book, qty: u64, id: OrderId)
    ensures MatchAgrees(RestingQty(b, id) + (if id == t.orderId then qty else 0), t, Matching(b, qty, [], false), id)
  {
    hide RestingQty;
    EmptySums(id);
  }

  lemma MatchedAgrees(e: EngineState, seqNo: nat, ts: int, oid: OrderId, request: OrderRequest, id: OrderId)
    requires BookInv(e.book, seqNo) && !e.book.Contains(oid) && request.qty > 0
    ensures var t := TakerOf(e, seqNo, ts, oid, request);
      AllAgree(RestingQty(e.book, id) + (if id == oid then request.qty else 0), id == oid,
               Dispose(e, oid, request, t, Match(t, Matching(e.book, request.qty, [], false))).events, id)
  {
    var t := TakerOf(e, seqNo, ts, oid, request);
    var m0 := Matching(e.book, request.qty, [], false);
    var owed := RestingQty(e.book, id) + (if id == oid then request.qty else 0);
    assert t.orderId == oid;
    hide *;
    BookMakersOk(t, e.book, seqNo, request.qty);
    StartAgrees(t, e.book, request.qty, id);
    MatchAllAgree(owed, t, m0, id);
    FilledToTheEnd(t, m0);
    DisposeAgrees(owed, e, oid, request, t, Match(t, m0), id);
  }

  lemma PlaceAgrees(e: EngineState, seqNo: nat, ts: int, oid: OrderId, request: OrderRequest, id: OrderId)
    requires BookInv(e.book, seqNo) && (id == oid ==> !e.book.Contains(id))
    ensures AllAgree(RestingQty(e.book, id) + (if id == oid then request.qty else 0), id == oid,
                     PlaceOrder(e, seqNo, ts, oid, request).events, id)
  {
    hide Match, Dispose, Fillable, RestingQty, AllAgree, BookInv, Validate, WouldCross, TakerOf;
    var out := PlaceOrder(e, seqNo, ts, oid, request);
    var owed := RestingQty(e.book, id) + (if id == oid then request.qty else 0);
    if id == oid { AbsentRestsNowhere(e.book, id); }
    if !e.book.Contains(oid) && Validate(e.market, ReferenceOf(e.book), request).None? {
      AdmittedIsPositive(e.market, ReferenceOf(e.book), request);
      MatchedAgrees(e, seqNo, ts, oid, request, id);
    }
    if |out.events| == 1 && Agrees(owed, id == oid, 0, 0, out.events[0], id) {
      SingleAgrees(owed, id == oid, out.events[0], id);
      assert out.events == [out.events[0]];
    }
  }

  lemma CancelAgrees(e: EngineState, seqNo: nat, oid: OrderId, id: OrderId, now: nat)
    requires BookInv(e.book, now)
    ensures AllAgree(RestingQty(e.book, id), false, CancelOrder(e, seqNo, oid).events, id)
  {
    hide AllAgree, RestingQty, Find;
    var found := Lookup(e.book, oid);
    if found.Some? { LookupRests(e.book, oid, now); }
    SingleAgrees(RestingQty(e.book, id), false, CancelOrder(e, seqNo, oid).events[0], id);
  }

  lemma LookupRests(b: Book, id: OrderId, now: nat)
    requires BookInv(b, now) && Lookup(b, id).Some?
    ensures var o := Lookup(b, id).value;
      o.orderId == id && o in b.Of(o.side) && o.remaining > 0 && RestingQty(b, id) == o.remaining
    ensures forall x ::
      RestingQty(b.Remove(Lookup(b, id).value), x) == RestingQty(b, x) - (if x == id then RestingQty(b, x) else 0)
  {
    var o := Lookup(b, id).value;
    assert o in b.bids || o in b.asks;
    RemoveConserves(b, now, o, id);
    RemoveIdMembers(b.Of(o.side), id);
    RemovedRestsNowhere(b, o);
    forall x ensures RestingQty(b.Remove(o), x) == RestingQty(b, x) - (if x == id then RestingQty(b, x) else 0) {
      RemoveConserves(b, now, o, x);
    }
  }

  lemma RemovedRestsNowhere(b: Book, o: RestingOrder)
    requires DisjointIds(b) && o in b.Of(o.side)
    ensures RestingQty(b.Remove(o), o.orderId) == 0
  {
    RemoveIdMembers(b.Of(o.side), o.orderId);
    RestingAbsent(RemoveId(b.Of(o.side), o.orderId), o.orderId);
    RestingAbsent(b.Of(o.side.Opposite()), o.orderId);
  }

  /** An event about some other order in front changes no check. */
  lemma ConsOther(owed: nat, named: bool, first: Event, events: seq<Event>, id: OrderId)
    requires AllAgree(owed, named, events, id) && !Concerns(first, id)
    ensures AllAgree(owed, named, [first] + events, id)
  {
    hide FilledQty, ReleasedQty;
    var all := [first] + events;
    forall p | 0 <= p < |all|
      ensures Agrees(owed, named, FilledQty(all[..p], id), ReleasedQty(all[..p], id), all[p], id)
    {
      if p > 0 {
        assert all[..p] == [first] + events[..p - 1] && all[p] == events[p - 1];
        EventSumsCons(first, events[..p - 1], id);
        assert Agrees(owed, named, FilledQty(events[..p - 1], id), ReleasedQty(events[..p - 1], id), events[p - 1], id);
      }
    }
  }

  /** An ending in front, and nothing more about the order. */
  lemma ConsLast(owed: nat, first: Event, events: seq<Event>, id: OrderId)
    requires AllAgree(0, false, events, id) && Agrees(owed, false, 0, 0, first, id)
    ensures AllAgree(owed, false, [first] + events, id)
  {
    hide FilledQty, ReleasedQty;
    EmptySums(id);
    var all := [first] + events;
    forall p | 0 <= p < |all|
      ensures Agrees(owed, false, FilledQty(all[..p], id), ReleasedQty(all[..p], id), all[p], id)
    {
      if p == 0 {
        assert all[..0] == [];
      } else {
        NoneConcern(events, id, p - 1);
      }
    }
  }

  lemma AmendAgrees(e: EngineState, seqNo: nat, ts: int, oldId: OrderId, newId: OrderId, price: u64, qty: u64,
                    id: OrderId)
    requires BookInv(e.book, seqNo) && (id == newId ==> !e.book.Contains(id))
    ensures AllAgree(RestingQty(e.book, id) + (if id == newId && e.book.Contains(oldId) then qty else 0), id == newId,
                     AmendOrder(e, seqNo, ts, oldId, newId, price, qty).events, id)
  {
    hide AllAgree, RestingQty, Find, BookInv, PlaceOrder;
    var found := Lookup(e.book, oldId);
    if found.Some? {
      var o := found.value;
      LookupRests(e.book, oldId, seqNo);
      RemoveKeepsBook(e.book, o, seqNo);
      var e1 := e.(book := e.book.Remove(o));
      var request := Replacement(o, newId, price, qty);
      StillAbsent(e.book, o, id);
      PlaceAgrees(e1, seqNo, ts, newId, request, id);
      var placed := PlaceOrder(e1, seqNo, ts, newId, request).events;
      var first := Cancelled(seqNo, oldId, o.remaining);
      if id == oldId {
        assert id != newId;
        ConsLast(RestingQty(e.book, id), first, placed, id);
      } else {
        ConsOther(RestingQty(e.book, id) + (if id == newId then qty else 0), id == newId, first, placed, id);
      }
    } else {
      SingleAgrees(RestingQty(e.book, id), id == newId, Rejected(seqNo, oldId, UnknownOrder), id);
    }
  }

  lemma StillAbsent(b: Book, o: RestingOrder, id: OrderId)
    requires o in b.Of(o.side)
    ensures !b.Contains(id) ==> !b.Remove(o).Contains(id)
  {
    RemoveIdMembers(b.Of(o.side), o.orderId);
  }

  /** Every event of a command agrees with what its orders brought to it. */
  lemma {:induction false} CommandAgrees(e: EngineState, c: SequencedCommand, id: OrderId)
    requires BookInv(e.book, e.lastSeq) && e.lastSeq <= c.seqNo
    requires Names(c.command, id) ==> !e.book.Contains(id)
    ensures AllAgree(RestingQty(e.book, id) + PlacedBy(e, c.command, id), Names(c.command, id), Apply(e, c).events, id)
  {
    hide AllAgree, RestingQty, BookInv, PlaceOrder, AmendOrder, CancelOrder;
    LaterKeepsBook(e.book, e.lastSeq, c.seqNo);
    var e0 := e.(lastSeq := c.seqNo);
    match c.command
    case Place(oid, request) => PlaceAgrees(e0, c.seqNo, c.timestampMs, oid, request, id);
    case Cancel(oid) => CancelAgrees(e0, c.seqNo, oid, id, c.seqNo);
    case Amend(oid, newId, price, qty) => AmendAgrees(e0, c.seqNo, c.timestampMs, oid, newId, price, qty, id);
    case SetStatus(status) =>
      SingleAgrees(RestingQty(e.book, id), false, StatusChanged(c.seqNo, e.market.status, status), id);
  }

  // ------------------------------------------------------------------ whole runs

  /** A release accounts for everything the order had left. */
  lemma {:induction false} ReleaseIsFinal(owed: nat, named: bool, events: seq<Event>, id: OrderId)
    requires AllAgree(owed, named, events, id) && ReleasedQty(events, id) > 0
    ensures FilledQty(events, id) + ReleasedQty(events, id) >= owed
  {
    var n := |events| - 1;
    assert Agrees(owed, named, FilledQty(events[..n], id), ReleasedQty(events[..n], id), events[n], id);
    if ReleasedQty(events[..n], id) <= 0 {
    } else {
      assert forall p :: 0 <= p < n ==> events[..n][..p] == events[..p];
      assert AllAgree(owed, named, events[..n], id);
      ReleaseIsFinal(owed, named, events[..n], id);
    }
  }

  /** A command that leaves some of an order resting released and rejected none of it. */
  lemma LeftRestingIsUnreleased(e: EngineState, c: SequencedCommand, id: OrderId)
    requires BookInv(e.book, e.lastSeq) && e.lastSeq <= c.seqNo
    requires Names(c.command, id) ==> !e.book.Contains(id)
    requires RestingQty(Apply(e, c).state.book, id) > 0
    ensures FilledQty(Apply(e, c).events, id) + RestingQty(Apply(e, c).state.book, id)
         == RestingQty(e.book, id) + PlacedBy(e, c.command, id)
  {
    hide AllAgree, RestingQty, BookInv, Apply, FilledQty, ReleasedQty;
    CommandAgrees(e, c, id);
    CommandConserves(e, c, id);
    var events := Apply(e, c).events;
    if ReleasedQty(events, id) > 0 {
      ReleaseIsFinal(RestingQty(e.book, id) + PlacedBy(e, c.command, id), Names(c.command, id), events, id);
    }
    if Names(c.command, id) { AbsentRestsNowhere(e.book, id); } else { NotPlaced(e, c.command, id); }
  }

  /** Before its command, an order is nowhere. */
  lemma UnseenBefore(market: MarketConfig, cmds: seq<SequencedCommand>, id: OrderId)
    requires Ordered(0, cmds) && forall c :: c in cmds ==> !Names(c.command, id)
    ensures var e := Initial(market);
      && RestingQty(Run(e, cmds).book, id) == 0 && !Run(e, cmds).book.Contains(id)
      && FilledOver(Results(e, cmds), id) == 0 && ReleasedOver(Results(e, cmds), id) == 0
  {
    hide Run, Results, FilledOver, ReleasedOver, RejectedOver, PlacedOver;
    var e := Initial(market);
    EmptyRestsNothing(id);
    RunConserves(e, cmds, id);
    NothingPlaced(e, cmds, id);
    RunKeepsBook(e, cmds);
    ContainedRests(Run(e, cmds).book, id, Run(e, cmds).lastSeq);
  }

  lemma ContainedRests(b: Book, id: OrderId, now: nat)
    requires BookInv(b, now)
    ensures b.Contains(id) ==> RestingQty(b, id) > 0
  {
    if b.Contains(id) { LookupRests(b, id, now); }
  }

  lemma OthersBefore(cmds: seq<SequencedCommand>, k: nat, id: OrderId)
    requires k < |cmds| && FreshIds(cmds) && Names(cmds[k].command, id)
    ensures forall c :: c in cmds[..k] ==> !Names(c.command, id)
    ensures forall j :: k < j < |cmds| ==> !Names(cmds[j].command, id)
  {
    forall c | c in cmds[..k] ensures !Names(c.command, id) {
      var i :| 0 <= i < k && cmds[i] == c;
    }
  }

  /** What a command meets: an ordered book, and its own order nowhere. */
  lemma MeetsFresh(market: MarketConfig, cmds: seq<SequencedCommand>, i: nat, id: OrderId)
    requires i < |cmds| && FreshIds(cmds) && Ordered(0, cmds)
    ensures var e := Run(Initial(market), cmds[..i]);
      && BookInv(e.book, e.lastSeq) && e.lastSeq <= cmds[i].seqNo
      && (Names(cmds[i].command, id) ==> !e.book.Contains(id))
  {
    hide Run;
    EmptyBookIsOk();
    assert Ordered(0, cmds[..i]);
    RunKeepsBook(Initial(market), cmds[..i]);
    if Names(cmds[i].command, id) {
      OthersBefore(cmds, i, id);
      UnseenBefore(market, cmds[..i], id);
    }
  }

  /** While any of an order rests, what traded and what rests is all of it. */
  lemma {:induction false} RestingAccounts(market: MarketConfig, cmds: seq<SequencedCommand>, k: nat, id: OrderId)
    requires k < |cmds| && FreshIds(cmds) && Ordered(0, cmds) && Names(cmds[k].command, id)
    requires RestingQty(Run(Initial(market), cmds).book, id) > 0
    ensures FilledOver(Results(Initial(market), cmds), id) + RestingQty(Run(Initial(market), cmds).book, id)
         == PlacedBy(Run(Initial(market), cmds[..k]), cmds[k].command, id)
  {
    hide Apply, RestingQty, FilledQty, PlacedBy, BookInv;
    var e, last := Initial(market), |cmds| - 1;
    var before := Run(e, cmds[..last]);
    MeetsFresh(market, cmds, last, id);
    TouchedIsNotQuantity(Apply(before, cmds[last]).state, id);
    LeftRestingIsUnreleased(before, cmds[last], id);
    assert Results(e, cmds)[..last] == Results(e, cmds[..last]);
    OthersBefore(cmds, k, id);
    if k == last {
      UnseenBefore(market, cmds[..last], id);
    } else {
      NotPlaced(before, cmds[last].command, id);
      CommandConserves(before, cmds[last], id);
      assert cmds[..last][..k] == cmds[..k];
      RestingAccounts(market, cmds[..last], k, id);
    }
  }

  /** What had traded, and what had been given up, when event `p` of command `i` came. */
  function FilledBefore(results: seq<Result>, i: nat, p: nat, id: OrderId): nat
    requires i < |results| && p <= |results[i].events|
  {
    FilledOver(results[..i], id) + FilledQty(results[i].events[..p], id)
  }

  function ReleasedBefore(results: seq<Result>, i: nat, p: nat, id: OrderId): nat
    requires i < |results| && p <= |results[i].events|
  {
    ReleasedOver(results[..i], id) + ReleasedQty(results[i].events[..p], id)
  }

  /** After its command and while anything is still said of it, an order is all accounted for. */
  lemma LaterEventRests(market: MarketConfig, cmds: seq<SequencedCommand>, k: nat, id: OrderId)
    requires k < |cmds| && FreshIds(cmds) && Ordered(0, cmds) && Names(cmds[k].command, id)
    requires RestingQty(Run(Initial(market), cmds).book, id) > 0
    ensures var e := Initial(market); var q := PlacedBy(Run(e, cmds[..k]), cmds[k].command, id);
      && FilledOver(Results(e, cmds), id) + RestingQty(Run(e, cmds).book, id) == q
      && ReleasedOver(Results(e, cmds), id) == 0 && RejectedOver(e, cmds, id) == 0
  {
    hide Run, Results, RestingQty, FilledOver, ReleasedOver, RejectedOver, PlacedBy;
    RestingAccounts(market, cmds, k, id);
    OrderAccountsForItsQuantity(market, cmds, k, id);
  }

  /** Settlement's checks on an order pass on every event of every run. */
  lemma {:induction false} RunAgrees(market: MarketConfig, cmds: seq<SequencedCommand>, k: nat, i: nat, p: nat,
                                     id: OrderId)
    requires k < |cmds| && i < |cmds| && FreshIds(cmds) && Ordered(0, cmds) && Names(cmds[k].command, id)
    requires p < |Results(Initial(market), cmds)[i].events|
    requires Concerns(Results(Initial(market), cmds)[i].events[p], id)
    ensures var e := Initial(market); var results := Results(e, cmds);
      && k <= i && RejectedOver(e, cmds[..i], id) == 0
      && Agrees(PlacedBy(Run(e, cmds[..k]), cmds[k].command, id), k == i,
                FilledBefore(results, i, p, id), ReleasedBefore(results, i, p, id), results[i].events[p], id)
  {
    hide Run, Results, Apply, RestingQty, FilledOver, ReleasedOver, RejectedOver, PlacedBy, BookInv, FilledQty,
      ReleasedQty;
    var e := Initial(market);
    var before := Run(e, cmds[..i]);
    var events := Results(e, cmds)[i].events;
    MeetsFresh(market, cmds, i, id);
    ResultAt(e, cmds, i);
    ResultsPrefix(e, cmds, i);
    CommandAgrees(before, cmds[i], id);
    OthersBefore(cmds, k, id);
    var owed := RestingQty(before.book, id) + PlacedBy(before, cmds[i].command, id);
    assert Agrees(owed, Names(cmds[i].command, id), FilledQty(events[..p], id), ReleasedQty(events[..p], id),
                  events[p], id);
    if i == k {
      UnseenBefore(market, cmds[..i], id);
      NothingRejected(e, cmds[..i], id);
    } else {
      assert !Names(cmds[i].command, id) by { if i < k { assert cmds[i] in cmds[..k]; } }
      NotPlaced(before, cmds[i].command, id);
      if owed == 0 { NoneConcern(events, id, p); assert false; }
      if i < k {
        assert forall c :: c in cmds[..i] ==> c in cmds[..k];
        UnseenBefore(market, cmds[..i], id);
        assert false;
      }
      assert Ordered(0, cmds[..i]) && cmds[..i][k] == cmds[k] && cmds[..i][..k] == cmds[..k];
      LaterEventRests(market, cmds[..i], k, id);
    }
  }

  lemma {:induction false} NothingRejected(e: EngineState, cmds: seq<SequencedCommand>, id: OrderId)
    requires forall c :: c in cmds ==> !Names(c.command, id)
    ensures RejectedOver(e, cmds, id) == 0
  {
    hide Run, Apply;
    if cmds == [] {
    } else {
      var last := |cmds| - 1;
      assert cmds[last] in cmds;
      NothingRejected(e, cmds[..last], id);
      NotPlaced(Run(e, cmds[..last]), cmds[last].command, id);
    }
  }
}
