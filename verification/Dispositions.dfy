/** What becomes of an order: when it rests, expires, is refused or never trades at all. */
module Dispositions {
  import opened MatchingTypes
  import opened PriceTimeList
  import opened ReferenceBook
  import opened ReferenceMatcher
  import opened MatchingTheorems
  import opened MatchingInvariants
  import opened MatchingRuns
  import opened SelfTrade

  // ------------------------------------------------------------------ the one disposition of a placement

  /** The order came to a halt at an order of its own account: that order still stands at the front of the book
      within reach, or went down with it. */
  ghost predicate MetItsOwn(t: Taker, out: Output, left: nat) {
    left > 0
    && (|| (t.stpMode == CancelTaker && FacesOwn(t, Matching(out.state.book, 0, [], false)))
        || (t.stpMode == CancelBoth && exists e :: e in out.events && e.Cancelled?))
  }

  /** The disposition an order is owed, from what it asked for and what it filled. */
  function Owed(seqNo: nat, id: OrderId, request: OrderRequest, filled: nat, metItsOwn: bool): Event
    requires filled <= request.qty
  {
    if filled == request.qty then Accepted(seqNo, id, 0)
    else if metItsOwn && filled == 0 && request.timeInForce != FOK then Rejected(seqNo, id, SelfTradePrevented)
    else if request.orderType == Limit && request.timeInForce == GTC && !metItsOwn
    then Accepted(seqNo, id, request.qty - filled)
    else Expired(seqNo, id, request.qty - filled)
  }

  /** What rests of an order. */
  function Rests(seqNo: nat, id: OrderId, request: OrderRequest, left: u64): RestingOrder {
    RestingOrder(id, request.accountId, request.side, if request.price.Some? then request.price.value else 0, left,
                 request.stpMode, seqNo)
  }

  /** The loop filled what it took, and it stopped exactly when the order met its own account's. */
  lemma LoopAccounts(t: Taker, book: Book, qty: u64, now: nat)
    requires BookInv(book, now) && !book.Contains(t.orderId)
    ensures var m := Match(t, Matching(book, qty, [], false));
      && FilledQty(m.events, t.orderId) == qty - m.remaining && !m.book.Contains(t.orderId)
      && (m.remaining == 0 ==> !m.stopped)
  {
    hide Match, FilledQty, ReleasedQty, RestingIn, BookInv;
    var m0 := Matching(book, qty, [], false);
    var m := Match(t, m0);
    MatchConserves(t, m0, t.orderId);
    EmptySums(t.orderId);
    RestingAbsent(book.bids, t.orderId);
    RestingAbsent(book.asks, t.orderId);
    MatchKeepsBook(t, m0, now);
    RestingAbsent(m.book.bids, t.orderId);
    RestingAbsent(m.book.asks, t.orderId);
    MatchReleasesMakers(t, m0, t.orderId);
    FilledToTheEnd(t, m0);
  }

  lemma LoopStops(t: Taker, book: Book, qty: u64, out: Output, now: nat)
    requires BookInv(book, now)
    requires var m := Match(t, Matching(book, qty, [], false));
      && out.events != [] && out.events == m.events + [Last(out.events)] && !Last(out.events).Cancelled?
      && out.state.book.Of(t.side.Opposite()) == m.book.Of(t.side.Opposite())
    ensures var m := Match(t, Matching(book, qty, [], false)); MetItsOwn(t, out, m.remaining) <==> m.stopped
  {
    hide Match, ReleasedQty, FillCount, Last;
    var m0 := Matching(book, qty, [], false);
    var m := Match(t, m0);
    FilledToTheEnd(t, m0);
    MatchExhaustsReach(t, m0);
    match t.stpMode
    case CancelTaker => CancelTakerYields(t, m0, "");
    case CancelBoth =>
      var o := CancelBothTakesOne(t, m0);
      assert forall e :: e in out.events <==> e in m.events || e == Last(out.events);
    case CancelMaker => CancelMakerGoesOn(t, m0);
  }

  ghost predicate DisposedAsOwed(e: EngineState, seqNo: nat, id: OrderId, request: OrderRequest, t: Taker,
                                 out: Output) {
    var filled := FilledQty(out.events, id);
    && filled <= request.qty && out.events != []
    && var met := MetItsOwn(t, out, request.qty - filled);
       && Last(out.events) == Owed(seqNo, id, request, filled, met)
       && (out.state.book.Contains(id)
           <==> request.orderType == Limit && request.timeInForce == GTC && filled < request.qty && !met)
       && (out.state.book.Contains(id) ==>
             Rests(seqNo, id, request, request.qty - filled) in out.state.book.Of(request.side))
  }

  /** For every order that is admitted: its one disposition, and whether and how it rests, follow from what it
      asked for, what it filled and whether it met its own account's order. Only a good-till-cancelled limit
      order ever rests, and it rests exactly what it did not fill. */
  lemma {:induction false} DispositionExactly(e: EngineState, seqNo: nat, ts: int, id: OrderId, request: OrderRequest)
    requires BookInv(e.book, seqNo) && Reaches(e, id, request)
    ensures DisposedAsOwed(e, seqNo, id, request, TakerOf(e, seqNo, ts, id, request),
                           PlaceOrder(e, seqNo, ts, id, request))
  {
    ValidateReasons(e.market, ReferenceOf(e.book), request);
    AdmittedLimitHasPrice(e.market, ReferenceOf(e.book), request);
    var t := TakerOf(e, seqNo, ts, id, request);
    var m := Match(t, Matching(e.book, request.qty, [], false));
    hide Validate, Match, DisposedAsOwed, BookInv, FillCount, Dispose, TakerLimit;
    if request.timeInForce == FOK && Fillable(t, e.book.Of(t.side.Opposite())) < request.qty {
      KilledAsOwed(e, seqNo, id, request, t);
    } else {
      LoopDisposes(e, seqNo, id, request, t);
    }
  }

  lemma AdmittedLimitHasPrice(market: MarketConfig, reference: Option<u64>, request: OrderRequest)
    requires Validate(market, reference, request).None?
    ensures request.orderType == Limit ==> request.price.Some?
  {
  }

  lemma KilledAsOwed(e: EngineState, seqNo: nat, id: OrderId, request: OrderRequest, t: Taker)
    requires request.timeInForce == FOK && request.qty > 0 && !e.book.Contains(id)
    ensures DisposedAsOwed(e, seqNo, id, request, t, Output(e, [Expired(seqNo, id, request.qty)]))
  {
    SingleSums(Expired(seqNo, id, request.qty), id);
    hide FilledQty;
  }

  /** What the disposition shows of the loop: what it filled, and whether it stopped. */
  lemma DisposeRelates(e: EngineState, seqNo: nat, id: OrderId, request: OrderRequest, t: Taker)
    requires BookInv(e.book, seqNo) && !e.book.Contains(id)
    requires t.orderId == id && t.side == request.side && t.stpMode == request.stpMode && t.seqNo == seqNo
    ensures var m := Match(t, Matching(e.book, request.qty, [], false)); var out := Dispose(e, id, request, t, m);
      && FilledQty(out.events, id) == request.qty - m.remaining
      && (MetItsOwn(t, out, m.remaining) <==> m.stopped)
      && out.state.book.Of(t.side.Opposite()) == m.book.Of(t.side.Opposite())
  {
    hide Match, FilledQty, FillCount, BookInv, MetItsOwn, Insert;
    var m := Match(t, Matching(e.book, request.qty, [], false));
    var out := Dispose(e, id, request, t, m);
    LoopAccounts(t, e.book, request.qty, seqNo);
    EventSumsPush(m.events, Last(out.events), id);
    assert out.events == m.events + [Last(out.events)];
    LoopStops(t, e.book, request.qty, out, seqNo);
  }

  lemma LoopDisposes(e: EngineState, seqNo: nat, id: OrderId, request: OrderRequest, t: Taker)
    requires BookInv(e.book, seqNo) && !e.book.Contains(id) && request.qty > 0
    requires request.orderType == Limit ==> request.price.Some?
    requires t.orderId == id && t.side == request.side && t.stpMode == request.stpMode && t.seqNo == seqNo
    requires request.timeInForce == FOK ==> Fillable(t, e.book.Of(t.side.Opposite())) >= request.qty
    ensures DisposedAsOwed(e, seqNo, id, request, t,
                           Dispose(e, id, request, t, Match(t, Matching(e.book, request.qty, [], false))))
  {
    hide Match, FilledQty, FillCount, Fillable, BookInv, MetItsOwn, Insert;
    var m0 := Matching(e.book, request.qty, [], false);
    var m := Match(t, m0);
    var out := Dispose(e, id, request, t, m);
    DisposeRelates(e, seqNo, id, request, t);
    LoopAccounts(t, e.book, request.qty, seqNo);
    MatchFillsExactly(t, m0);
    RemainderMovesWithFills(t, m0) by { AllLive(e.book, seqNo); }
    EmptySums(id);
    InsertMembers(request.side, m.book.Of(request.side), Rests(seqNo, id, request, m.remaining));
    assert out.events == m.events + [Last(out.events)];
  }

  lemma AllLive(b: Book, now: nat)
    requires BookInv(b, now)
    ensures forall side: Side, o :: o in b.Of(side) ==> o.remaining > 0
  {
  }

  /** An order that is immediate, fill-or-kill or at market never rests, in any run: whatever it did not fill is
      said to expire, unless it was refused for meeting its own account's order first. */
  lemma {:induction false} RunExpiresTheRest(e: EngineState, cmds: seq<SequencedCommand>, i: nat)
    requires StartsFrom(e, cmds) && i < |cmds|
    requires var (at, order) := TakerFor(Run(e, cmds[..i]), cmds[i]);
      order.Some? && Reaches(at, order.value.0, order.value.1)
      && (order.value.1.orderType != Limit || order.value.1.timeInForce != GTC)
    ensures var (id, request) := TakerFor(Run(e, cmds[..i]), cmds[i]).1.value;
      var events := PlacedEvents(cmds[i].command, Results(e, cmds)[i].events);
      var filled := FilledQty(events, id);
      && !Run(e, cmds[..i + 1]).book.Contains(id) && events != [] && filled <= request.qty
      && Last(events) in {if filled == request.qty then Accepted(cmds[i].seqNo, id, 0)
                          else Expired(cmds[i].seqNo, id, request.qty - filled),
                          Rejected(cmds[i].seqNo, id, SelfTradePrevented)}
      && (Last(events).Rejected? ==> filled == 0 && request.stpMode != CancelMaker)
  {
    hide PlaceOrder, Run, Results, FilledQty, TakerFor, MetItsOwn, Reaches;
    RunPlaces(e, cmds, i);
    RunStatePlaces(e, cmds, i);
    var (at, order) := TakerFor(Run(e, cmds[..i]), cmds[i]);
    DispositionExactly(at, cmds[i].seqNo, cmds[i].timestampMs, order.value.0, order.value.1);
    hide PlacedEvents;
    if order.value.1.stpMode == CancelMaker { OnlyStoppingModesMeet(at, cmds[i], order.value.0, order.value.1); }
  }

  lemma OnlyStoppingModesMeet(e: EngineState, c: SequencedCommand, id: OrderId, request: OrderRequest)
    requires request.stpMode == CancelMaker
    ensures forall out, left :: !MetItsOwn(TakerOf(e, c.seqNo, c.timestampMs, id, request), out, left)
  {
  }

  lemma {:induction false} RunStatePlaces(e: EngineState, cmds: seq<SequencedCommand>, i: nat)
    requires i < |cmds|
    ensures var (at, order) := TakerFor(Run(e, cmds[..i]), cmds[i]);
      order.Some? ==>
        Run(e, cmds[..i + 1])
          == ClearTouched(PlaceOrder(at, cmds[i].seqNo, cmds[i].timestampMs, order.value.0, order.value.1).state)
  {
    hide PlaceOrder;
    assert cmds[..i + 1][..i] == cmds[..i];
  }

  // ------------------------------------------------------------------ post-only

  /** Some order rests on the other side at a price the request would trade at. */
  ghost predicate CouldTrade(b: Book, side: Side, price: u64) {
    if side == Buy then exists o :: o in b.asks && o.price <= price else exists o :: o in b.bids && o.price >= price
  }

  /** A post-only order never takes: it fills nothing and leaves the other side as it was. It is refused for
      crossing if and only if nothing else is wrong with it and some order rests at a price it would trade at. */
  lemma {:induction false} PostOnlyNeverTakes(e: EngineState, seqNo: nat, ts: int, id: OrderId, request: OrderRequest)
    requires BookInv(e.book, seqNo) && request.postOnly
    ensures var out := PlaceOrder(e, seqNo, ts, id, request);
      && (forall ev :: ev in out.events ==> !ev.Filled? && !ev.Cancelled?)
      && out.state.book.Of(request.side.Opposite()) == e.book.Of(request.side.Opposite())
      && (out.events == [Rejected(seqNo, id, PostOnlyWouldCross)]
          <==> && !e.book.Contains(id) && Validate(e.market, ReferenceOf(e.book), request).None?
               && request.price.Some? && CouldTrade(e.book, request.side, request.price.value))
  {
    hide Match, FillCount, BookInv;
    var t, m0 := TakerOf(e, seqNo, ts, id, request), Matching(e.book, request.qty, [], false);
    PostOnlyIsLimit(e.market, ReferenceOf(e.book), request);
    hide Validate;
    if Validate(e.market, ReferenceOf(e.book), request).None? {
      CrossesExactly(e.book, request.side, request.price.value, seqNo);
      if !WouldCross(e.book, request.side, request.price) {
        NothingInReach(t, m0);
        assert !e.book.Contains(id) ==> !PlaceOrder(e, seqNo, ts, id, request).events[0].Rejected?;
      }
    }
  }

  lemma PostOnlyIsLimit(market: MarketConfig, reference: Option<u64>, request: OrderRequest)
    requires request.postOnly
    ensures Validate(market, reference, request).None? ==> request.orderType == Limit && request.price.Some?
    ensures Validate(market, reference, request) != Some(PostOnlyWouldCross)
  {
  }

  lemma NothingInReach(t: Taker, m: Matching)
    requires Makers(t, m) == [] || !Crosses(t.side, t.limit, Makers(t, m)[0].price)
    ensures Match(t, m) == m
  {
  }

  lemma CrossesExactly(b: Book, side: Side, price: u64, now: nat)
    requires BookInv(b, now)
    ensures WouldCross(b, side, Some(price)) <==> CouldTrade(b, side, price)
  {
    var l := b.Of(side.Opposite());
    if l != [] { BestIsBest(side.Opposite(), l); }
  }

  lemma BestIsBest(side: Side, l: seq<RestingOrder>)
    requires Sorted(side, l) && l != []
    ensures forall o :: o in l ==> AtLeastAsGood(side, l[0].price, o.price)
    ensures l[0] in l
  {
  }

  /** So no post-only order is ever the taker of a fill. */
  lemma {:induction false} TakersAreNotPostOnly(e: EngineState, cmds: seq<SequencedCommand>, i: nat, f: Fill)
    requires StartsFrom(e, cmds) && i < |cmds| && Filled(f) in Results(e, cmds)[i].events
    ensures var (at, order) := TakerFor(Run(e, cmds[..i]), cmds[i]);
      order.Some? && order.value.0 == f.takerOrderId && !order.value.1.postOnly
  {
    hide PlaceOrder, Run, Results, TakerFor, BookInv;
    RunFillsLegally(e, cmds, i, f);
    RunPlaces(e, cmds, i);
    var (at, order) := TakerFor(Run(e, cmds[..i]), cmds[i]);
    if order.value.1.postOnly {
      PostOnlyNeverTakes(at, cmds[i].seqNo, cmds[i].timestampMs, order.value.0, order.value.1);
      AmendSaysFirst(e, cmds, i);
      assert false;
    }
  }

  lemma {:induction false} AmendSaysFirst(e: EngineState, cmds: seq<SequencedCommand>, i: nat)
    requires i < |cmds|
    ensures var events := Results(e, cmds)[i].events;
      forall ev :: ev in events && ev.Filled? ==> ev in PlacedEvents(cmds[i].command, events)
  {
    hide PlaceOrder, Run, Results;
    ResultAt(e, cmds, i);
  }

  // ------------------------------------------------------------------ cancel, amend and status

  ghost predicate WithoutId(before: Book, id: OrderId, after: Book) {
    && (forall o :: o in after.bids <==> o in before.bids && o.orderId != id)
    && (forall o :: o in after.asks <==> o in before.asks && o.orderId != id)
  }

  /** A cancel of a resting order names all it had left and takes it, and nothing else, off the book. A cancel or
      amend of any other id is refused as unknown and changes nothing. */
  lemma {:induction false} CancelExactly(e: EngineState, seqNo: nat, id: OrderId)
    requires BookInv(e.book, seqNo)
    ensures var out := CancelOrder(e, seqNo, id);
      if e.book.Contains(id)
      then WithoutId(e.book, id, out.state.book)
           && forall o :: (o in e.book.bids || o in e.book.asks) && o.orderId == id ==>
                out.events == [Cancelled(seqNo, id, o.remaining)]
      else out == Output(e, [Rejected(seqNo, id, UnknownOrder)])
    ensures forall ts, newId, price, qty :: !e.book.Contains(id) ==>
      AmendOrder(e, seqNo, ts, id, newId, price, qty) == Output(e, [Rejected(seqNo, id, UnknownOrder)])
  {
    hide Find, PlaceOrder;
    if e.book.Contains(id) {
      var o := Lookup(e.book, id).value;
      TakenOffAlone(e.book, seqNo, o);
    }
  }

  lemma TakenOffAlone(b: Book, now: nat, o: RestingOrder)
    requires BookInv(b, now) && o in b.Of(o.side)
    ensures WithoutId(b, o.orderId, b.Remove(o))
    ensures forall x :: (x in b.bids || x in b.asks) && x.orderId == o.orderId ==> x == o
  {
    OnOneSide(b, now, o, o.side);
    RemoveIdMembers(b.Of(o.side), o.orderId);
    OnceOnly(b.Of(o.side), o);
    hide RemoveId, BookInv, DistinctIds;
  }

  lemma OnceOnly(l: seq<RestingOrder>, o: RestingOrder)
    requires DistinctIds(l) && o in l
    ensures forall x :: x in l && x.orderId == o.orderId ==> x == o
  {
  }
}
