/** Whole runs: what holds after any number of commands, in any order. */
module MatchingRuns {
  import opened MatchingTypes
  import opened PriceTimeList
  import opened ReferenceBook
  import opened ReferenceMatcher
  import opened MatchingTheorems
  import opened MatchingInvariants

  /** Sequence numbers never run backwards. */
  ghost predicate Ordered(start: nat, cmds: seq<SequencedCommand>) {
    && (forall i :: 0 <= i < |cmds| ==> start <= cmds[i].seqNo)
    && (forall i, j :: 0 <= i < j < |cmds| ==> cmds[i].seqNo <= cmds[j].seqNo)
  }

  ghost predicate StartsFrom(e: EngineState, cmds: seq<SequencedCommand>) {
    BookInv(e.book, e.lastSeq) && Ordered(e.lastSeq, cmds)
  }

  lemma EmptyBookIsOk()
    ensures BookInv(EMPTY_BOOK, 0)
  {
  }

  /** Sorted, distinct, live, in arrival order and uncrossed after every run. */
  lemma {:induction false} RunKeepsBook(e: EngineState, cmds: seq<SequencedCommand>)
    requires StartsFrom(e, cmds)
    ensures var e' := Run(e, cmds);
      && BookInv(e'.book, e'.lastSeq)
      && e'.lastSeq == (if cmds == [] then e.lastSeq else cmds[|cmds| - 1].seqNo)
  {
    if cmds == [] {
    } else {
      var last := |cmds| - 1;
      RunKeepsBook(e, cmds[..last]);
      CommandKeepsBook(Run(e, cmds[..last]), cmds[last]);
    }
  }

  lemma {:induction false} RunSplits(e: EngineState, a: seq<SequencedCommand>, b: seq<SequencedCommand>)
    ensures Run(e, a + b) == Run(Run(e, a), b)
    ensures Results(e, a + b) == Results(e, a) + Results(Run(e, a), b)
  {
    hide Apply, LevelsOf, ClearTouched;
    if b == [] {
      assert a + b == a;
    } else {
      var last := |b| - 1;
      assert (a + b)[..|a + b| - 1] == a + b[..last];
      RunSplits(e, a, b[..last]);
    }
  }

  lemma ResultsPrefix(e: EngineState, cmds: seq<SequencedCommand>, c: nat)
    requires c <= |cmds|
    ensures Results(e, cmds)[..c] == Results(e, cmds[..c])
  {
    hide Results, Run;
    assert cmds == cmds[..c] + cmds[c..];
    RunSplits(e, cmds[..c], cmds[c..]);
  }

  // ------------------------------------------------------------------ conservation

  /** Totals for one order id over a run. */
  function FilledOver(results: seq<Result>, id: OrderId): nat {
    if results == [] then 0
    else FilledOver(results[..|results| - 1], id) + FilledQty(results[|results| - 1].events, id)
  }

  function ReleasedOver(results: seq<Result>, id: OrderId): nat {
    if results == [] then 0
    else ReleasedOver(results[..|results| - 1], id) + ReleasedQty(results[|results| - 1].events, id)
  }

  function PlacedOver(e: EngineState, cmds: seq<SequencedCommand>, id: OrderId): nat {
    if cmds == [] then 0
    else PlacedOver(e, cmds[..|cmds| - 1], id)
         + PlacedBy(Run(e, cmds[..|cmds| - 1]), cmds[|cmds| - 1].command, id)
  }

  function RejectedOver(e: EngineState, cmds: seq<SequencedCommand>, id: OrderId): nat {
    if cmds == [] then 0
    else
      var before, c := Run(e, cmds[..|cmds| - 1]), cmds[|cmds| - 1];
      RejectedOver(e, cmds[..|cmds| - 1], id) + RejectedBy(before, c.command, Apply(before, c).events, id)
  }

  /** Quantity is conserved for every order over every run: what was resting plus what was placed is
      what traded, what was released, what was rejected and what still rests. */
  lemma {:induction false} RunConserves(e: EngineState, cmds: seq<SequencedCommand>, id: OrderId)
    requires StartsFrom(e, cmds)
    ensures RestingQty(e.book, id) + PlacedOver(e, cmds, id)
         == FilledOver(Results(e, cmds), id) + ReleasedOver(Results(e, cmds), id)
            + RejectedOver(e, cmds, id) + RestingQty(Run(e, cmds).book, id)
  {
    if cmds == [] {
    } else {
      hide Apply, FilledQty, ReleasedQty, RestingQty, PlacedBy, RejectedBy;
      var last := |cmds| - 1;
      var before := Run(e, cmds[..last]);
      RunConserves(e, cmds[..last], id);
      RunKeepsBook(e, cmds[..last]);
      CommandConserves(before, cmds[last], id);
      assert Results(e, cmds)[..last] == Results(e, cmds[..last]);
      TouchedIsNotQuantity(Apply(before, cmds[last]).state, id);
    }
  }

  lemma TouchedIsNotQuantity(e: EngineState, id: OrderId)
    ensures RestingQty(ClearTouched(e).book, id) == RestingQty(e.book, id)
  {
  }

  /** `c` brings quantity in under `id`. */
  predicate Names(c: Command, id: OrderId) {
    (c.Place? && c.orderId == id) || (c.Amend? && c.newOrderId == id)
  }

  /** Order ids are fresh: no two commands of the run introduce the same one. */
  ghost predicate FreshIds(cmds: seq<SequencedCommand>) {
    forall i, j, id :: 0 <= i < j < |cmds| && Names(cmds[i].command, id) ==> !Names(cmds[j].command, id)
  }

  lemma {:induction false} NothingPlaced(e: EngineState, cmds: seq<SequencedCommand>, id: OrderId)
    requires forall c :: c in cmds ==> !Names(c.command, id)
    ensures PlacedOver(e, cmds, id) == 0
  {
    if cmds == [] {
    } else {
      assert cmds[|cmds| - 1] in cmds;
      NothingPlaced(e, cmds[..|cmds| - 1], id);
    }
  }

  /** Once an order is off the book - filled, cancelled, expired or rejected - and its id is not
      placed again, nothing later trades, releases or rests it. */
  lemma {:induction false} ClosedForGood(e: EngineState, before: seq<SequencedCommand>, after: seq<SequencedCommand>,
                                         id: OrderId)
    requires StartsFrom(e, before + after)
    requires RestingQty(Run(e, before).book, id) == 0
    requires forall c :: c in after ==> !Names(c.command, id)
    ensures FilledOver(Results(Run(e, before), after), id) == 0
    ensures ReleasedOver(Results(Run(e, before), after), id) == 0
    ensures RestingQty(Run(e, before + after).book, id) == 0
  {
    var mid := Run(e, before);
    assert Ordered(e.lastSeq, before) by {
      assert forall i :: 0 <= i < |before| ==> before[i] == (before + after)[i];
    }
    RunKeepsBook(e, before);
    assert Ordered(mid.lastSeq, after) by {
      assert forall i :: 0 <= i < |after| ==> after[i] == (before + after)[|before| + i];
      if before != [] { assert before[|before| - 1] == (before + after)[|before| - 1]; }
    }
    RunConserves(mid, after, id);
    NothingPlaced(mid, after, id);
    RunSplits(e, before, after);
  }

  lemma NotPlaced(e: EngineState, c: Command, id: OrderId)
    requires !Names(c, id)
    ensures PlacedBy(e, c, id) == 0
  {
  }

  lemma {:induction false} PlacedFresh(e: EngineState, cmds: seq<SequencedCommand>, k: nat, id: OrderId)
    requires k < |cmds| && FreshIds(cmds) && Names(cmds[k].command, id)
    ensures PlacedOver(e, cmds, id) == PlacedBy(Run(e, cmds[..k]), cmds[k].command, id)
  {
    hide Run, PlacedBy;
    var last := |cmds| - 1;
    if k == last {
      forall c | c in cmds[..last] ensures !Names(c.command, id) {
        var i :| 0 <= i < last && cmds[i] == c;
      }
      NothingPlaced(e, cmds[..last], id);
    } else {
      assert !Names(cmds[last].command, id);
      NotPlaced(Run(e, cmds[..last]), cmds[last].command, id);
      PlacedFresh(e, cmds[..last], k, id);
      assert cmds[..last][..k] == cmds[..k];
    }
  }

  /** From an empty book with fresh ids: an order placed for some quantity, or brought in for it by an
      amendment of a resting order, accounts for exactly that quantity. */
  lemma {:induction false} OrderAccountsForItsQuantity(market: MarketConfig, cmds: seq<SequencedCommand>, k: nat,
                                                       id: OrderId)
    requires k < |cmds| && FreshIds(cmds) && Ordered(0, cmds) && Names(cmds[k].command, id)
    ensures var e := Initial(market);
      PlacedBy(Run(e, cmds[..k]), cmds[k].command, id)
        == FilledOver(Results(e, cmds), id) + ReleasedOver(Results(e, cmds), id)
           + RejectedOver(e, cmds, id) + RestingQty(Run(e, cmds).book, id)
  {
    hide Run, Results, FilledOver, ReleasedOver, RejectedOver, PlacedOver, PlacedBy;
    var e := Initial(market);
    RunConserves(e, cmds, id);
    PlacedFresh(e, cmds, k, id);
    EmptyRestsNothing(id);
  }

  lemma EmptyRestsNothing(id: OrderId)
    ensures RestingQty(EMPTY_BOOK, id) == 0
  {
  }

  // ------------------------------------------------------------------ every fill of every run is legal

  /** The taker a command acts for, in the state it acts on. */
  ghost function TakerFor(e: EngineState, c: SequencedCommand): (EngineState, Option<(OrderId, OrderRequest)>) {
    var e0 := e.(lastSeq := c.seqNo);
    match c.command
    case Place(id, request) => (e0, Some((id, request)))
    case Amend(id, newId, price, qty) =>
      (match Lookup(e.book, id)
       case None => (e0, None)
       case Some(o) => (e0.(book := e.book.Remove(o)), Some((newId, Replacement(o, newId, price, qty)))))
    case _ => (e0, None)
  }

  /** A placement either matches and ends in one disposition, or says one thing and changes nothing. */
  lemma {:induction false} PlaceShape(e: EngineState, seqNo: nat, ts: int, id: OrderId, request: OrderRequest)
    ensures var out := PlaceOrder(e, seqNo, ts, id, request);
      var t := TakerOf(e, seqNo, ts, id, request);
      var m := Match(t, Matching(e.book, request.qty, [], false));
      && out.events != [] && !Last(out.events).Filled? && !Last(out.events).Cancelled?
      && (|| (out == Dispose(e, id, request, t, m) && out.events == m.events + [Last(out.events)])
          || out == Output(e, [Last(out.events)]))
  {
    hide Validate, Match, Fillable, FillCount, TakerOf;
  }

  lemma PlaceFillsLegally(e: EngineState, seqNo: nat, ts: int, id: OrderId, request: OrderRequest)
    requires BookInv(e.book, seqNo)
    ensures var t := TakerOf(e, seqNo, ts, id, request);
      LegalEvents(t, e.book.Of(t.side.Opposite()), PlaceOrder(e, seqNo, ts, id, request).events)
  {
    hide PlaceOrder, Dispose, Match, LegalFill, Covers;
    var t := TakerOf(e, seqNo, ts, id, request);
    var m0 := Matching(e.book, request.qty, [], false);
    var l := Makers(t, m0);
    CoversItself(l);
    MatchFillsLegally(t, l, m0);
    PlaceShape(e, seqNo, ts, id, request);
  }

  lemma CoversItself(l: seq<RestingOrder>)
    ensures Covers(l, l)
  {
    forall o | o in l ensures exists x :: x in l && x == o.(remaining := x.remaining) && o.remaining <= x.remaining {
      assert o == o.(remaining := o.remaining);
    }
  }

  /** No fill of any run pairs an account with itself, leaves its taker's limit or collar, or trades
      at any price but the maker's own. */
  lemma {:induction false} CommandFillsLegally(e: EngineState, c: SequencedCommand, f: Fill)
    requires BookInv(e.book, e.lastSeq) && e.lastSeq <= c.seqNo && Filled(f) in Apply(e, c).events
    ensures var (at, order) := TakerFor(e, c);
      order.Some? && var t := TakerOf(at, c.seqNo, c.timestampMs, order.value.0, order.value.1);
      LegalFill(t, at.book.Of(t.side.Opposite()), f)
  {
    hide PlaceOrder;
    var (at, order) := TakerFor(e, c);
    LaterKeepsBook(e.book, e.lastSeq, c.seqNo);
    if c.command.Amend? && Lookup(e.book, c.command.orderId).Some? {
      RemoveKeepsBook(e.book, Lookup(e.book, c.command.orderId).value, c.seqNo);
    }
    if order.Some? { PlaceFillsLegally(at, c.seqNo, c.timestampMs, order.value.0, order.value.1); }
  }

  lemma {:induction false} RunFillsLegally(e: EngineState, cmds: seq<SequencedCommand>, i: nat, f: Fill)
    requires StartsFrom(e, cmds) && i < |cmds| && Filled(f) in Results(e, cmds)[i].events
    ensures var (at, order) := TakerFor(Run(e, cmds[..i]), cmds[i]);
      order.Some? && var t := TakerOf(at, cmds[i].seqNo, cmds[i].timestampMs, order.value.0, order.value.1);
      LegalFill(t, at.book.Of(t.side.Opposite()), f)
  {
    ResultAt(e, cmds, i);
    assert StartsFrom(e, cmds[..i]);
    RunKeepsBook(e, cmds[..i]);
    hide Apply, TakerFor, TakerOf;
    assert Run(e, cmds[..i]).lastSeq <= cmds[i].seqNo;
    CommandFillsLegally(Run(e, cmds[..i]), cmds[i], f);
  }

  lemma {:induction false} ResultAt(e: EngineState, cmds: seq<SequencedCommand>, i: nat)
    requires i < |cmds|
    ensures var out := Apply(Run(e, cmds[..i]), cmds[i]);
      Results(e, cmds)[i] == Result(out.events, LevelsOf(out.state.book))
  {
    hide Apply, LevelsOf, ClearTouched;
    var last := |cmds| - 1;
    if i >= last {
    } else {
      ResultAt(e, cmds[..last], i);
      assert cmds[..last][..i] == cmds[..i];
    }
  }

  /** What a command said of the order it placed: an amend first says that the old order is gone. */
  function PlacedEvents(c: Command, events: seq<Event>): seq<Event> {
    if c.Amend? && events != [] then events[1..] else events
  }

  /** Whatever holds of every placement holds of every placing command of every run. */
  lemma {:induction false} RunPlaces(e: EngineState, cmds: seq<SequencedCommand>, i: nat)
    requires StartsFrom(e, cmds) && i < |cmds|
    ensures var (at, order) := TakerFor(Run(e, cmds[..i]), cmds[i]);
      order.Some? ==>
        && BookInv(at.book, cmds[i].seqNo)
        && PlacedEvents(cmds[i].command, Results(e, cmds)[i].events)
           == PlaceOrder(at, cmds[i].seqNo, cmds[i].timestampMs, order.value.0, order.value.1).events
  {
    hide PlaceOrder, Run, Results;
    ResultAt(e, cmds, i);
    assert StartsFrom(e, cmds[..i]);
    RunKeepsBook(e, cmds[..i]);
    var before, c := Run(e, cmds[..i]), cmds[i];
    LaterKeepsBook(before.book, before.lastSeq, c.seqNo);
    if c.command.Amend? && Lookup(before.book, c.command.orderId).Some? {
      RemoveKeepsBook(before.book, Lookup(before.book, c.command.orderId).value, c.seqNo);
    }
  }

  // ------------------------------------------------------------------ fill or kill

  /** A fill-or-kill order trades its whole quantity or changes nothing at all, and it trades exactly
      when it is admitted and the makers in reach can fill it. */
  lemma {:induction false} FillOrKill(e: EngineState, seqNo: nat, ts: int, id: OrderId, request: OrderRequest)
    requires BookInv(e.book, seqNo) && request.timeInForce == FOK
    ensures var out := PlaceOrder(e, seqNo, ts, id, request);
      var t := TakerOf(e, seqNo, ts, id, request);
      var kind := Last(out.events);
      && (kind.Accepted? || kind.Expired? || kind.Rejected?)
      && (kind.Accepted? ==> FilledQty(out.events, id) == request.qty && kind == Accepted(seqNo, id, 0)
                             && Fillable(t, e.book.Of(t.side.Opposite())) >= request.qty)
      && (kind.Expired? ==> out == Output(e, [Expired(seqNo, id, request.qty)])
                            && Fillable(t, e.book.Of(t.side.Opposite())) < request.qty)
      && (kind.Rejected? ==> out == Output(e, [kind]))
  {
    hide Validate, Match, Fillable, FillCount, FilledQty, BookInv, WouldCross, TakerLimit;
    var out := PlaceOrder(e, seqNo, ts, id, request);
    var t := TakerOf(e, seqNo, ts, id, request);
    if !e.book.Contains(id) && Fillable(t, e.book.Of(t.side.Opposite())) >= request.qty {
      FilledWhole(e, seqNo, ts, id, request);
    }
    if |out.events| == 1 { assert out.events == [Last(out.events)]; }
  }

  /** An order the makers in reach can fill ends with nothing left to take. */
  lemma FilledWhole(e: EngineState, seqNo: nat, ts: int, id: OrderId, request: OrderRequest)
    requires BookInv(e.book, seqNo) && !e.book.Contains(id)
    requires Fillable(TakerOf(e, seqNo, ts, id, request), e.book.Of(request.side.Opposite())) >= request.qty
    ensures var t := TakerOf(e, seqNo, ts, id, request);
      var m := Match(t, Matching(e.book, request.qty, [], false));
      var out := Dispose(e, id, request, t, m);
      && out.events == m.events + [Accepted(seqNo, id, 0)] && FilledQty(out.events, id) == request.qty
  {
    hide Match, Fillable, FillCount, FilledQty, RestingIn;
    var t := TakerOf(e, seqNo, ts, id, request);
    var m0 := Matching(e.book, request.qty, [], false);
    var m := Match(t, m0);
    MatchFillsExactly(t, m0);
    FilledToTheEnd(t, m0);
    MatchConserves(t, m0, id);
    EmptySums(id);
    RestingAbsent(e.book.bids, id);
    RestingAbsent(e.book.asks, id);
    MatchKeepsBook(t, m0, seqNo);
    RestingAbsent(m.book.bids, id);
    RestingAbsent(m.book.asks, id);
    MatchReleasesMakers(t, m0, id);
    EventSumsPush(m.events, Accepted(seqNo, id, 0), id);
  }

  /** A taker that reaches zero was not stopped on the way. */
  lemma {:induction false} FilledToTheEnd(t: Taker, m: Matching)
    requires !m.stopped
    ensures Match(t, m).stopped ==> Match(t, m).remaining > 0
    decreases |Makers(t, m)|, m.remaining
  {
    if !Done(t, m) && !Step(t, m).stopped { FilledToTheEnd(t, Step(t, m)); }
  }

  /** Only orders that were resting are cancelled by a match. */
  lemma {:induction false} MatchReleasesMakers(t: Taker, m: Matching, id: OrderId)
    requires !HasId(Makers(t, m), id)
    ensures ReleasedQty(Match(t, m).events, id) == ReleasedQty(m.events, id)
    decreases !m.stopped, |Makers(t, m)|, m.remaining
  {
    if Done(t, m) {
    } else {
      var m' := Step(t, m);
      assert Makers(t, m)[0] in Makers(t, m);
      if m'.events != m.events { EventSumsPush(m.events, m'.events[|m.events|], id); }
      forall o | o in Makers(t, m') ensures o.orderId != id {
        assert o in Makers(t, m) || o == Makers(t, m)[0].(remaining := o.remaining);
      }
      MatchReleasesMakers(t, m', id);
    }
  }

  // ------------------------------------------------------------------ an empty book

  lemma NothingToMatch(t: Taker, m: Matching)
    requires Makers(t, m) == []
    ensures Match(t, m) == m
  {
  }

  /** A good limit order that meets an empty book rests. */
  lemma RestsAlone(e: EngineState, seqNo: nat, id: OrderId, request: OrderRequest) returns (e': EngineState)
    requires e.book.bids == [] && e.book.asks == [] && e.book.lastTrade == None && request.timeInForce == GTC
    requires request.orderType == Limit && request.price.Some? && !request.postOnly && request.qty > 0
    requires Validate(e.market, None, request).None?
    ensures e' == PlaceOrder(e, seqNo, 0, id, request).state
    ensures PlaceOrder(e, seqNo, 0, id, request).events == [Accepted(seqNo, id, request.qty)]
    ensures e' == e.(book := e'.book) && e'.book.lastTrade == None
    ensures var o := RestingOrder(id, request.accountId, request.side, request.price.value, request.qty,
                                  request.stpMode, seqNo);
      e'.book.Of(request.side) == [o] && e'.book.Of(request.side.Opposite()) == []
  {
    hide Match, Validate, Fillable, FillCount;
    e' := PlaceOrder(e, seqNo, 0, id, request).state;
    var t := TakerOf(e, seqNo, 0, id, request);
    NothingToMatch(t, Matching(e.book, request.qty, [], false));
  }
}
