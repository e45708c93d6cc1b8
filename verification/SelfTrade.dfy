/** Self-trade prevention: what each mode does, told apart by outcomes and not by the loop that produces them. */
module SelfTrade {
  import opened MatchingTypes
  import opened PriceTimeList
  import opened ReferenceBook
  import opened ReferenceMatcher
  import opened MatchingTheorems
  import opened MatchingInvariants
  import opened MatchingRuns

  predicate Own(t: Taker, o: RestingOrder) { o.accountId == t.accountId }

  predicate InReach(t: Taker, o: RestingOrder) { Crosses(t.side, t.limit, o.price) }

  /** The best maker left is the taker's own and within its limit. */
  predicate FacesOwn(t: Taker, m: Matching) {
    Makers(t, m) != [] && Own(t, Makers(t, m)[0]) && InReach(t, Makers(t, m)[0])
  }

  /** What a match released of `x` beyond what its state had already released. */
  function NewlyReleased(t: Taker, m: Matching, x: OrderId): int {
    ReleasedQty(Match(t, m).events, x) - ReleasedQty(m.events, x)
  }

  // ------------------------------------------------------------------ one mode at a time

  /** CancelTaker gives way to its own order: no resting order is ever released, a stopped taker leaves its own
      order at the front of the book, and one stopped before any fill leaves the book as it was. */
  lemma {:induction false} CancelTakerYields(t: Taker, m: Matching, x: OrderId)
    requires t.stpMode == CancelTaker && !m.stopped
    ensures NewlyReleased(t, m, x) == 0
    ensures var r := Match(t, m);
      && (r.stopped ==> FacesOwn(t, r))
      && (FillCount(r.events) == FillCount(m.events) ==> r.book == m.book && r.events == m.events)
    decreases |Makers(t, m)|, m.remaining
  {
    if Done(t, m) {
    } else {
      var m' := Step(t, m);
      if m'.stopped {
        assert Match(t, m') == m';
      } else {
        EventSumsPush(m.events, m'.events[|m.events|], x);
        CancelTakerYields(t, m', x);
        FillsOnlyGrow(t, m');
      }
    }
  }

  lemma {:induction false} FillsOnlyGrow(t: Taker, m: Matching)
    ensures FillCount(Match(t, m).events) >= FillCount(m.events)
    decreases !m.stopped, |Makers(t, m)|, m.remaining
  {
    if Done(t, m) {
    } else {
      var m' := Step(t, m);
      if m'.events != m.events { EventSumsPush(m.events, m'.events[|m.events|], ""); }
      FillsOnlyGrow(t, m');
    }
  }

  /** CancelBoth takes its own order down with it: a stopped taker released exactly one resting order, whole, of
      its own account and within its limit, which is gone. One that was not stopped released none. */
  lemma {:induction false} CancelBothTakesOne(t: Taker, m: Matching) returns (o: RestingOrder)
    requires t.stpMode == CancelBoth && !m.stopped && DistinctIds(Makers(t, m))
    ensures var r := Match(t, m);
      && (r.stopped ==> && o in Makers(t, m) && Own(t, o) && InReach(t, o) && !HasId(Makers(t, r), o.orderId)
                        && (forall x :: NewlyReleased(t, m, x) == if x == o.orderId then o.remaining else 0)
                        && Cancelled(t.seqNo, o.orderId, o.remaining) in r.events
                        && (FillCount(r.events) == FillCount(m.events) ==>
                              r.events == m.events + [Cancelled(t.seqNo, o.orderId, o.remaining)]))
      && (!r.stopped ==> && (forall x :: NewlyReleased(t, m, x) == 0)
                         && forall e :: e in r.events && e.Cancelled? ==> e in m.events)
    decreases |Makers(t, m)|, m.remaining
  {
    hide Match, NewlyReleased, FillCount, FacesOwn;
    o := RestingOrder("", "", Buy, 0, 0, CancelTaker, 0);
    if Match(t, m).stopped { o := CancelBothStops(t, m); } else { CancelBothGoesOn(t, m); }
  }

  lemma {:induction false} CancelBothGoesOn(t: Taker, m: Matching)
    requires t.stpMode == CancelBoth && !Match(t, m).stopped
    ensures forall x :: NewlyReleased(t, m, x) == 0
    ensures forall e :: e in Match(t, m).events && e.Cancelled? ==> e in m.events
    decreases |Makers(t, m)|, m.remaining
  {
    hide ReleasedQty, FillCount;
    if Done(t, m) {
    } else {
      ReleasedStep(t, m);
      CancelBothGoesOn(t, Step(t, m));
    }
  }

  /** One step adds one event, and what it releases is what that event says. */
  lemma ReleasedStep(t: Taker, m: Matching)
    requires !Done(t, m) && Step(t, m).events != m.events
    ensures var m' := Step(t, m); var e := m'.events[|m.events|];
      && m'.events == m.events + [e]
      && FillCount(m'.events) == FillCount(m.events) + (if e.Filled? then 1 else 0)
      && forall x :: NewlyReleased(t, m, x) == ReleasedIn(e, x) + NewlyReleased(t, m', x)
  {
    hide ReleasedQty, FillCount;
    var m' := Step(t, m);
    var e := m'.events[|m.events|];
    EventSumsPush(m.events, e, "");
    forall x ensures NewlyReleased(t, m, x) == ReleasedIn(e, x) + NewlyReleased(t, m', x) {
      EventSumsPush(m.events, e, x);
    }
  }

  lemma {:induction false} CancelBothStops(t: Taker, m: Matching) returns (o: RestingOrder)
    requires t.stpMode == CancelBoth && !m.stopped && DistinctIds(Makers(t, m)) && Match(t, m).stopped
    ensures o in Makers(t, m) && Own(t, o) && InReach(t, o) && !HasId(Makers(t, Match(t, m)), o.orderId)
    ensures forall x :: NewlyReleased(t, m, x) == if x == o.orderId then o.remaining else 0
    ensures Cancelled(t.seqNo, o.orderId, o.remaining) in Match(t, m).events
    ensures FillCount(Match(t, m).events) == FillCount(m.events) ==>
      Match(t, m).events == m.events + [Cancelled(t.seqNo, o.orderId, o.remaining)]
    decreases |Makers(t, m)|, m.remaining
  {
    hide ReleasedQty, FillCount, NewlyReleased;
    var l, m' := Makers(t, m), Step(t, m);
    ReleasedStep(t, m);
    if m'.stopped {
      o := l[0];
      assert Match(t, m') == m' && Makers(t, m') == l[1..];
      NothingNew(t, m');
    } else {
      TakingKeepsDistinct(l, Min(m.remaining, l[0].remaining));
      FillsOnlyGrow(t, m');
      o := CancelBothStops(t, m');
      NotTheShrunk(t, m, o);
    }
  }

  lemma NothingNew(t: Taker, m: Matching)
    requires m.stopped
    ensures forall x :: NewlyReleased(t, m, x) == 0
  {
  }

  lemma TakingKeepsDistinct(l: seq<RestingOrder>, qty: u64)
    requires l != [] && DistinctIds(l)
    ensures DistinctIds(TakeFromHead(l, qty))
  {
  }

  /** A match that goes on after trading with the front of the book took all of it. */
  lemma NotTheShrunk(t: Taker, m: Matching, o: RestingOrder)
    requires !Done(t, m) && !Own(t, Makers(t, m)[0]) && !m.stopped
    requires o in Makers(t, Step(t, m)) && Match(t, Step(t, m)).stopped
    ensures o in Makers(t, m)
  {
    var l, m' := Makers(t, m), Step(t, m);
    assert m'.remaining > 0;
    assert Makers(t, m') == l[1..];
  }

  /** CancelMaker never stops: it trades on past its own orders, and ends filled or with nothing in reach. */
  lemma {:induction false} CancelMakerGoesOn(t: Taker, m: Matching)
    requires t.stpMode == CancelMaker && !m.stopped
    ensures var r := Match(t, m);
      && !r.stopped
      && (r.remaining > 0 ==> Makers(t, r) == [] || !InReach(t, Makers(t, r)[0]))
    decreases |Makers(t, m)|, m.remaining
  {
    if Done(t, m) {
    } else {
      CancelMakerGoesOn(t, Step(t, m));
    }
  }

  /** Every cancellation of a match is of the taker's own order, within its limit, for all it had left. */
  ghost predicate CancelsOwn(t: Taker, l: seq<RestingOrder>, events: seq<Event>) {
    forall e :: e in events && e.Cancelled? ==>
      e.seqNo == t.seqNo
      && exists o :: o in l && o.orderId == e.orderId && Own(t, o) && InReach(t, o) && o.remaining == e.remainingQty
  }

  lemma {:induction false} MatchCancelsOwn(t: Taker, l: seq<RestingOrder>, m: Matching)
    requires CancelsOwn(t, l, m.events)
    requires forall o :: o in Makers(t, m) && Own(t, o) ==> o in l
    ensures CancelsOwn(t, l, Match(t, m).events)
    decreases !m.stopped, |Makers(t, m)|, m.remaining
  {
    if Done(t, m) {
    } else {
      var m' := Step(t, m);
      assert Makers(t, m)[0] in Makers(t, m);
      forall o | o in Makers(t, m') && Own(t, o) ensures o in l {
        assert o in Makers(t, m);
      }
      MatchCancelsOwn(t, l, m');
    }
  }

  predicate StoppedUnfilled(m: Matching, r: Matching) { r.stopped && FillCount(r.events) == FillCount(m.events) }

  /** A taker stopped before any fill met its own order first; and one that does, under a stopping mode, is. */
  lemma {:induction false} StoppedAtOnce(t: Taker, m: Matching)
    requires !m.stopped
    ensures StoppedUnfilled(m, Match(t, m)) <==> m.remaining > 0 && FacesOwn(t, m) && t.stpMode != CancelMaker
  {
    hide FillCount;
    if Done(t, m) {
    } else {
      var m' := Step(t, m);
      if m'.events != m.events { EventSumsPush(m.events, m'.events[|m.events|], ""); }
      if m'.stopped {
        assert Match(t, m') == m';
      } else {
        FillsOnlyGrow(t, m');
        if t.stpMode == CancelMaker { CancelMakerGoesOn(t, m); }
      }
    }
  }

  // ------------------------------------------------------------------ one placement

  /** The request is taken as far as the match loop. */
  predicate Reaches(e: EngineState, id: OrderId, request: OrderRequest) {
    && !e.book.Contains(id) && Validate(e.market, ReferenceOf(e.book), request).None?
    && !(request.postOnly && WouldCross(e.book, request.side, request.price))
  }

  predicate Prevented(out: Output) {
    out.events != [] && Last(out.events).Rejected? && Last(out.events).reason == SelfTradePrevented
  }

  lemma ValidateReasons(market: MarketConfig, reference: Option<u64>, request: OrderRequest)
    ensures Validate(market, reference, request) != Some(SelfTradePrevented)
    ensures Validate(market, reference, request).None? ==>
      request.qty > 0 && (request.orderType != Limit ==> reference.Some?)
  {
  }

  /** An order is refused as a self-trade if and only if it reaches the book under a mode that stops it, is not
      fill-or-kill, and the first order it would meet is its own account's. */
  lemma {:induction false} PreventedExactly(e: EngineState, seqNo: nat, ts: int, id: OrderId, request: OrderRequest)
    ensures Prevented(PlaceOrder(e, seqNo, ts, id, request))
       <==> && Reaches(e, id, request) && request.stpMode != CancelMaker && request.timeInForce != FOK
            && FacesOwn(TakerOf(e, seqNo, ts, id, request), Matching(e.book, request.qty, [], false))
  {
    hide FillCount, Match;
    var t, m0 := TakerOf(e, seqNo, ts, id, request), Matching(e.book, request.qty, [], false);
    ValidateReasons(e.market, ReferenceOf(e.book), request);
    hide Validate;
    EmptySums("");
    StoppedAtOnce(t, m0);
    if FacesOwn(t, m0) && t.stpMode != CancelMaker { assert Fillable(t, e.book.Of(t.side.Opposite())) == 0; }
    hide Fillable, FacesOwn;
  }

  /** What each mode does to the book and says about it, for every placement: CancelTaker releases nobody else's
      quantity and, prevented, changes nothing; CancelBoth, prevented, cancels exactly the one own order it met;
      CancelMaker is never prevented; and whatever is cancelled is the account's own, whole. */
  lemma {:induction false} PlacementSelfTrade(e: EngineState, seqNo: nat, ts: int, id: OrderId, request: OrderRequest)
    requires BookInv(e.book, seqNo)
    ensures var out, t := PlaceOrder(e, seqNo, ts, id, request), TakerOf(e, seqNo, ts, id, request);
      && CancelsOwn(t, e.book.Of(request.side.Opposite()), out.events)
      && (request.stpMode == CancelTaker ==> forall x :: x != id ==> ReleasedQty(out.events, x) == 0)
      && (request.stpMode == CancelTaker && Prevented(out) ==> out.state == e)
      && (request.stpMode == CancelMaker ==> !Prevented(out))
      && (request.stpMode == CancelBoth && Prevented(out) ==> CancelledOne(e, out, seqNo, id, request))
  {
    PlaceCancelsOwn(e, seqNo, ts, id, request);
    PreventedExactly(e, seqNo, ts, id, request);
    if request.stpMode == CancelTaker { PlaceYields(e, seqNo, ts, id, request); }
    if request.stpMode == CancelBoth { PlaceTakesOne(e, seqNo, ts, id, request); }
    hide *;
  }

  lemma PlaceCancelsOwn(e: EngineState, seqNo: nat, ts: int, id: OrderId, request: OrderRequest)
    ensures CancelsOwn(TakerOf(e, seqNo, ts, id, request), e.book.Of(request.side.Opposite()),
                       PlaceOrder(e, seqNo, ts, id, request).events)
  {
    hide PlaceOrder, Dispose, Match, Own, InReach;
    var t := TakerOf(e, seqNo, ts, id, request);
    PlaceShape(e, seqNo, ts, id, request);
    MatchCancelsOwn(t, e.book.Of(request.side.Opposite()), Matching(e.book, request.qty, [], false));
  }

  lemma PlaceYields(e: EngineState, seqNo: nat, ts: int, id: OrderId, request: OrderRequest)
    requires request.stpMode == CancelTaker
    ensures var out := PlaceOrder(e, seqNo, ts, id, request);
      && (forall x :: x != id ==> ReleasedQty(out.events, x) == 0)
      && (Prevented(out) ==> out.state == e)
  {
    hide FillCount, Match, ReleasedQty, FacesOwn, Validate, Fillable;
    var out, t, m0 := PlaceOrder(e, seqNo, ts, id, request), TakerOf(e, seqNo, ts, id, request),
      Matching(e.book, request.qty, [], false);
    PlaceShape(e, seqNo, ts, id, request);
    forall x | x != id ensures ReleasedQty(out.events, x) == 0 {
      EmptySums(x);
      CancelTakerYields(t, m0, x);
      EventSumsPush(Match(t, m0).events, Last(out.events), x);
      SingleSums(Last(out.events), x);
    }
    EmptySums("");
    CancelTakerYields(t, m0, "");
    if Prevented(out) { PreventedIsStopped(e, seqNo, ts, id, request); }
  }

  /** A prevented order went through the match loop, was stopped by it and filled nothing. */
  lemma PreventedIsStopped(e: EngineState, seqNo: nat, ts: int, id: OrderId, request: OrderRequest)
    requires Prevented(PlaceOrder(e, seqNo, ts, id, request))
    ensures var t := TakerOf(e, seqNo, ts, id, request);
      var m := Match(t, Matching(e.book, request.qty, [], false));
      && m.stopped && FillCount(m.events) == 0
      && PlaceOrder(e, seqNo, ts, id, request)
         == Output(e.(book := m.book), m.events + [Rejected(seqNo, id, SelfTradePrevented)])
  {
    hide Match, FillCount, Fillable;
    ValidateReasons(e.market, ReferenceOf(e.book), request);
    hide Validate;
  }

  lemma PlaceTakesOne(e: EngineState, seqNo: nat, ts: int, id: OrderId, request: OrderRequest)
    requires request.stpMode == CancelBoth && BookInv(e.book, seqNo)
    ensures var out := PlaceOrder(e, seqNo, ts, id, request);
      Prevented(out) ==> CancelledOne(e, out, seqNo, id, request)
  {
    hide FillCount, Match, ReleasedQty, PlaceOrder;
    var out, t, m0 := PlaceOrder(e, seqNo, ts, id, request), TakerOf(e, seqNo, ts, id, request),
      Matching(e.book, request.qty, [], false);
    if Prevented(out) {
      PreventedIsStopped(e, seqNo, ts, id, request);
      EmptySums("");
      var o := CancelBothTakesOne(t, m0);
      var k := MatchTakesInPriority(t, m0);
      assert out.state.book.Of(request.side) == e.book.Of(request.side);
      assert !HasId(e.book.Of(request.side), o.orderId) by { OnOneSide(e.book, seqNo, o, request.side.Opposite()); }
      assert out.events == [Cancelled(seqNo, o.orderId, o.remaining), Rejected(seqNo, id, SelfTradePrevented)];
    }
  }

  lemma OnOneSide(b: Book, now: nat, o: RestingOrder, side: Side)
    requires BookInv(b, now) && o in b.Of(side)
    ensures !HasId(b.Of(side.Opposite()), o.orderId)
  {
  }

  ghost predicate CancelledOne(e: EngineState, out: Output, seqNo: nat, id: OrderId, request: OrderRequest) {
    exists o :: && o in e.book.Of(request.side.Opposite()) && o.accountId == request.accountId
                && out.events == [Cancelled(seqNo, o.orderId, o.remaining), Rejected(seqNo, id, SelfTradePrevented)]
                && !out.state.book.Contains(o.orderId)
  }

  /** And so for every placing command of every run, amends included. */
  lemma {:induction false} RunSelfTrade(e: EngineState, cmds: seq<SequencedCommand>, i: nat)
    requires StartsFrom(e, cmds) && i < |cmds|
    ensures var (at, order) := TakerFor(Run(e, cmds[..i]), cmds[i]);
      var events := PlacedEvents(cmds[i].command, Results(e, cmds)[i].events);
      order.Some? ==> var (id, request) := order.value;
        && (request.stpMode == CancelTaker ==> forall x :: x != id ==> ReleasedQty(events, x) == 0)
        && (request.stpMode == CancelMaker ==> Rejected(cmds[i].seqNo, id, SelfTradePrevented) !in events)
        && forall c :: c in events && c.Cancelled? ==>
             exists o :: o in at.book.Of(request.side.Opposite()) && o.orderId == c.orderId
                         && o.accountId == request.accountId && o.remaining == c.remainingQty
  {
    hide PlaceOrder, Run, Results, ReleasedQty, TakerFor;
    RunPlaces(e, cmds, i);
    var (at, order) := TakerFor(Run(e, cmds[..i]), cmds[i]);
    if order.Some? {
      var (id, request) := order.value;
      PlacementSelfTrade(at, cmds[i].seqNo, cmds[i].timestampMs, id, request);
      if request.stpMode == CancelMaker { NeverPrevented(at, cmds[i].seqNo, cmds[i].timestampMs, id, request); }
    }
  }

  lemma NeverPrevented(e: EngineState, seqNo: nat, ts: int, id: OrderId, request: OrderRequest)
    requires !Prevented(PlaceOrder(e, seqNo, ts, id, request))
    ensures Rejected(seqNo, id, SelfTradePrevented) !in PlaceOrder(e, seqNo, ts, id, request).events
  {
    hide PlaceOrder, Dispose, Match;
    PlaceShape(e, seqNo, ts, id, request);
    MatchRejectsNobody(TakerOf(e, seqNo, ts, id, request), Matching(e.book, request.qty, [], false));
  }

  lemma {:induction false} MatchRejectsNobody(t: Taker, m: Matching)
    requires forall e :: e in m.events ==> e.Filled? || e.Cancelled?
    ensures forall e :: e in Match(t, m).events ==> e.Filled? || e.Cancelled?
    decreases !m.stopped, |Makers(t, m)|, m.remaining
  {
    if Done(t, m) {
    } else {
      MatchRejectsNobody(t, Step(t, m));
    }
  }
}
