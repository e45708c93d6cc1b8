/** Why an order is refused, each reason in plain arithmetic: the engine gives the first that holds, the gateway
    gives them all. */
module Refusals {
  import opened MatchingTypes
  import opened ReferenceBook
  import opened ReferenceMatcher
  import opened MatchingTheorems
  import opened MatchingInvariants
  import opened MatchingRuns
  import opened SelfTrade
  import opened Dispositions
  import opened FixedPoint
  import Orders

  /** What a market's configuration says about admission. */
  datatype Rules = Rules(tick: nat, lot: nat, minNotional: int, collarBps: nat, status: MarketStatus)

  function EngineRules(m: MarketConfig): Rules { Rules(m.tickSize, m.lotSize, m.minNotional, m.collarBps, m.status) }

  function GatewayRules(m: Orders.Market): Rules { Rules(m.tickSize, m.lotSize, m.minNotional, m.collarBps, m.status) }

  ghost predicate WholeSteps(x: nat, step: nat) { step > 0 && exists k: nat :: x == k * step }

  /** The price an order is judged at: its limit, or what the market last said. */
  function Judged(request: OrderRequest, reference: Option<nat>): Option<nat> {
    if request.orderType == Limit && request.price.Some? then Some(request.price.value) else reference
  }

  const FULL := 0x1_0000_0000_0000_0000 * 1_000_000_000

  /** What is wrong with a request, reason by reason. */
  ghost predicate Fault(reason: RejectReason, rules: Rules, reference: Option<nat>, request: OrderRequest) {
    var limit := request.orderType == Limit && request.price.Some?;
    var judged := Judged(request, reference);
    match reason
    case MarketNotOpen => !(rules.status == Open || (rules.status == PostOnly && request.postOnly))
    case QuantityNotPositive => request.qty <= 0
    case PriceRequired => request.orderType == Limit && request.price.None?
    case PriceNotAllowed => request.orderType == Market && request.price.Some?
    case PostOnlyRequiresLimit => request.postOnly && request.orderType == Market
    case TickViolation => limit && !WholeSteps(request.price.value, rules.tick)
    case LotViolation => request.qty > 0 && !WholeSteps(request.qty, rules.lot)
    case NoReferencePrice => request.orderType == Market && reference.None?
    case OutsideCollar => limit && reference.Some? && !WithinBps(request.price.value, reference.value, rules.collarBps)
    case NotionalOverflow => request.qty > 0 && judged.Some? && judged.value * request.qty >= FULL
    case BelowMinNotional =>
      request.qty > 0 && judged.Some? && judged.value * request.qty < FULL
      && judged.value * request.qty < rules.minNotional * 1_000_000_000
    case _ => false
  }

  /** The order in which the engine looks. */
  const PRECEDENCE: seq<RejectReason> := [
    MarketNotOpen, QuantityNotPositive, PriceRequired, PriceNotAllowed, PostOnlyRequiresLimit, TickViolation,
    LotViolation, NoReferencePrice, OutsideCollar, NotionalOverflow, BelowMinNotional]

  // ------------------------------------------------------------------ each test means what it should

  lemma StepsExactly(x: u64, step: u64)
    ensures IsMultipleOf(x, step) <==> WholeSteps(x, step)
  {
    if step > 0 {
      if x % step == 0 { assert x == (x / step) * step; }
      if WholeSteps(x, step) {
        var k: nat :| x == k * step;
        Orders.MultipleOfTick(k, step);
      }
    }
  }

  lemma MinimumExactly(price: nat, qty: nat, minimum: int)
    ensures Orders.Value(price, qty) < minimum <==> price * qty < minimum * 1_000_000_000
  {
    if minimum >= 0 {
      AtMostExactly(price * qty, PRICE_SCALE, minimum);
    } else {
      assert minimum * 1_000_000_000 < 0;
    }
  }

  // ------------------------------------------------------------------ the engine

  ghost predicate FirstFault(reason: RejectReason, rules: Rules, reference: Option<nat>, request: OrderRequest, k: nat)
    requires k < |PRECEDENCE|
  {
    && PRECEDENCE[k] == reason && Fault(reason, rules, reference, request)
    && forall i :: 0 <= i < k ==> !Fault(PRECEDENCE[i], rules, reference, request)
  }

  function Wide(reference: Option<u64>): Option<nat> { if reference.Some? then Some(reference.value) else None }

  /** The same tests as the engine makes them. */
  predicate Tested(reason: RejectReason, market: MarketConfig, reference: Option<u64>, request: OrderRequest) {
    var limit := request.orderType == Limit && request.price.Some?;
    var judged := if limit then request.price else reference;
    match reason
    case MarketNotOpen => !(market.status == Open || (market.status == PostOnly && request.postOnly))
    case QuantityNotPositive => request.qty == 0
    case PriceRequired => request.orderType == Limit && request.price.None?
    case PriceNotAllowed => request.orderType == Market && request.price.Some?
    case PostOnlyRequiresLimit => request.postOnly && request.orderType == Market
    case TickViolation => limit && !IsMultipleOf(request.price.value, market.tickSize)
    case LotViolation => request.qty > 0 && !IsMultipleOf(request.qty, market.lotSize)
    case NoReferencePrice => request.orderType == Market && reference.None?
    case OutsideCollar =>
      limit && reference.Some? && OutsideBand(request.price.value, CollarBand(market, reference.value))
    case NotionalOverflow => request.qty > 0 && judged.Some? && Notional(judged.value, request.qty).None?
    case BelowMinNotional =>
      request.qty > 0 && judged.Some? && Notional(judged.value, request.qty).Some?
      && Notional(judged.value, request.qty).value < market.minNotional
    case _ => false
  }

  lemma TestedExactly(reason: RejectReason, market: MarketConfig, reference: Option<u64>, request: OrderRequest)
    ensures Tested(reason, market, reference, request)
       <==> Fault(reason, EngineRules(market), Wide(reference), request)
  {
    hide IsMultipleOf, WholeSteps, CollarBand, OutsideBand, WithinBps, Notional;
    var limit := request.orderType == Limit && request.price.Some?;
    StepsExactly(request.qty, market.lotSize);
    if limit { StepsExactly(request.price.value, market.tickSize); }
    if limit && reference.Some? { BandExactly(request.price.value, reference.value, SOME_MARKET, market); }
    var judged := if limit then request.price else reference;
    if judged.Some? { NotionalTested(judged.value, request.qty, market.minNotional); }
  }

  const SOME_MARKET := Orders.Market("", "", 1, 1, 0, 0, Open)

  lemma NotionalTested(price: u64, qty: u64, minimum: u64)
    ensures Notional(price, qty).None? <==> price * qty >= FULL
    ensures Notional(price, qty).Some? ==>
      (Notional(price, qty).value < minimum <==> price * qty < minimum * 1_000_000_000)
  {
    NotionalExactly(price, qty, 0);
    MinimumExactly(price, qty, minimum);
  }

  /** The engine admits an order exactly when nothing is wrong with it, and otherwise gives the first thing wrong
      in its order of precedence. */
  lemma {:induction false} EngineGivesFirstFault(market: MarketConfig, reference: Option<u64>, request: OrderRequest)
    returns (k: nat)
    ensures var rules, refusal := EngineRules(market), Validate(market, reference, request);
      && (refusal.None? <==> forall reason :: !Fault(reason, rules, Wide(reference), request))
      && (refusal.Some? ==> k < |PRECEDENCE| && FirstFault(refusal.value, rules, Wide(reference), request, k))
  {
    k := FirstTested(market, reference, request);
    hide *;
    forall reason ensures Tested(reason, market, reference, request)
                     <==> Fault(reason, EngineRules(market), Wide(reference), request) {
      TestedExactly(reason, market, reference, request);
    }
    if Validate(market, reference, request).Some? { FirstOfThem(market, reference, request, k); }
  }

  lemma FirstTested(market: MarketConfig, reference: Option<u64>, request: OrderRequest) returns (k: nat)
    ensures var refusal := Validate(market, reference, request);
      && (refusal.None? <==> forall reason :: !Tested(reason, market, reference, request))
      && (refusal.Some? ==> && k < |PRECEDENCE| && PRECEDENCE[k] == refusal.value
                            && Tested(refusal.value, market, reference, request)
                            && forall i :: 0 <= i < k ==> !Tested(PRECEDENCE[i], market, reference, request))
  {
    hide IsMultipleOf, CollarBand, OutsideBand, Notional;
    var refusal := Validate(market, reference, request);
    k := if refusal.None? then 0 else match refusal.value
      case MarketNotOpen => 0
      case QuantityNotPositive => 1
      case PriceRequired => 2
      case PriceNotAllowed => 3
      case PostOnlyRequiresLimit => 4
      case TickViolation => 5
      case LotViolation => 6
      case NoReferencePrice => 7
      case OutsideCollar => 8
      case NotionalOverflow => 9
      case _ => 10;
    assert refusal.Some? ==> Tested(refusal.value, market, reference, request);
  }

  lemma FirstOfThem(market: MarketConfig, reference: Option<u64>, request: OrderRequest, k: nat)
    requires forall reason :: Tested(reason, market, reference, request)
                         <==> Fault(reason, EngineRules(market), Wide(reference), request)
    requires k < |PRECEDENCE| && Tested(PRECEDENCE[k], market, reference, request)
    requires forall i :: 0 <= i < k ==> !Tested(PRECEDENCE[i], market, reference, request)
    ensures FirstFault(PRECEDENCE[k], EngineRules(market), Wide(reference), request, k)
  {
    hide Tested, Fault;
  }

  // ------------------------------------------------------------------ the gateway

  /** The gateway's reasons are the same faults, each on its own. It adds to one: a buy must also be able to
      reserve its value and the worst fee on it. */
  lemma {:induction false} GatewayGivesEveryFault(market: Orders.Market, reference: Option<nat>, request: OrderRequest,
                                                  reason: RejectReason)
    requires market.tickSize > 0 && market.lotSize > 0
    ensures var rules := GatewayRules(market);
      Orders.Applies(reason, request, market, reference)
      <==> || Fault(reason, rules, reference, request)
           || (reason == NotionalOverflow && request.qty > 0 && request.side == Buy
               && Orders.ReserveAt(request, market, reference).Some?
               && Orders.BuyReserve(Orders.ReserveAt(request, market, reference).value, request.qty) > MAX_U64)
  {
    hide WholeSteps, Orders.CollarOf, WithinBps, Orders.Value, Orders.BuyReserve;
    var limit := request.orderType == Limit && request.price.Some?;
    ModExactly(request.qty, market.lotSize);
    if limit { ModExactly(request.price.value, market.tickSize); }
    if limit && reference.Some? { CollarExactly(request.price.value, reference.value, market); }
    var judged := Judged(request, reference);
    if judged.Some? {
      FitsExactly(judged.value, request.qty);
      MinimumExactly(judged.value, request.qty, market.minNotional);
    }
  }

  lemma ModExactly(x: nat, step: nat)
    requires step > 0
    ensures x % step == 0 <==> WholeSteps(x, step)
  {
    if x % step == 0 { assert x == (x / step) * step; }
    if WholeSteps(x, step) {
      var k: nat :| x == k * step;
      Orders.MultipleOfTick(k, step);
    }
  }

  lemma CollarExactly(p: nat, reference: nat, market: Orders.Market)
    ensures Orders.InBand(Orders.CollarOf(reference, market), p) <==> WithinBps(p, reference, market.collarBps)
  {
    var off := if p >= reference then p - reference else reference - p;
    AtMostExactly(reference * market.collarBps, BPS_DENOMINATOR, off);
  }

  // ------------------------------------------------------------------ a whole placement

  /** A placement is refused as a duplicate exactly when its id is resting, and otherwise for the first thing
      wrong with it, if anything is; a refused placement changes nothing. */
  lemma {:induction false} PlacementRefusedExactly(e: EngineState, seqNo: nat, ts: int, id: OrderId,
                                                   request: OrderRequest)
    ensures var out, rules := PlaceOrder(e, seqNo, ts, id, request), EngineRules(e.market);
      && (e.book.Contains(id) <==> out.events == [Rejected(seqNo, id, DuplicateClientOrderId)])
      && (e.book.Contains(id) ==> out.state == e)
      && (!e.book.Contains(id) ==> forall k :: 0 <= k < |PRECEDENCE| ==>
            (FirstFault(PRECEDENCE[k], rules, Wide(ReferenceOf(e.book)), request, k)
             <==> out.events == [Rejected(seqNo, id, PRECEDENCE[k])])
            && (out.events == [Rejected(seqNo, id, PRECEDENCE[k])] ==> out.state == e))
  {
    var reference := ReferenceOf(e.book);
    var refusal := Validate(e.market, reference, request);
    var j := EngineGivesFirstFault(e.market, reference, request);
    RejectsExactly(e, seqNo, ts, id, request);
    hide Validate, PlaceOrder, Fault;
    forall k | 0 <= k < |PRECEDENCE|
      ensures FirstFault(PRECEDENCE[k], EngineRules(e.market), Wide(reference), request, k)
         <==> refusal == Some(PRECEDENCE[k])
    {
      if FirstFault(PRECEDENCE[k], EngineRules(e.market), Wide(reference), request, k) {
        assert refusal.Some?;
        assert j == k;
      }
      if refusal == Some(PRECEDENCE[k]) { OnceListed(j, k); }
    }
    assert forall k :: 0 <= k < |PRECEDENCE| ==> PRECEDENCE[k] in PRECEDENCE;
  }

  lemma OnceListed(j: nat, k: nat)
    requires j < |PRECEDENCE| && k < |PRECEDENCE| && PRECEDENCE[j] == PRECEDENCE[k]
    ensures j == k
  {
  }

  lemma RejectsExactly(e: EngineState, seqNo: nat, ts: int, id: OrderId, request: OrderRequest)
    ensures var out, refusal := PlaceOrder(e, seqNo, ts, id, request),
                                Validate(e.market, ReferenceOf(e.book), request);
      && (e.book.Contains(id) <==> out.events == [Rejected(seqNo, id, DuplicateClientOrderId)])
      && (e.book.Contains(id) ==> out.state == e)
      && (!e.book.Contains(id) ==> forall reason :: reason in PRECEDENCE ==>
            (refusal == Some(reason) <==> out.events == [Rejected(seqNo, id, reason)])
            && (refusal == Some(reason) ==> out.state == e))
  {
    var refusal := Validate(e.market, ReferenceOf(e.book), request);
    var out := PlaceOrder(e, seqNo, ts, id, request);
    var j := FirstTested(e.market, ReferenceOf(e.book), request);
    if refusal.Some? { assert PRECEDENCE[j] in PRECEDENCE; }
    ValidateReasons(e.market, ReferenceOf(e.book), request);
    hide Validate, Match, Fillable, FillCount, Tested, TakerLimit, WouldCross;
    if !e.book.Contains(id) && refusal.None? {
      assert Last(out.events).Rejected? ==> Last(out.events).reason !in PRECEDENCE;
    }
  }

  // ------------------------------------------------------------------ how far a taker reaches

  /** An order at `p` is one the request may trade with: within its limit, or for a market order no further past
      the reference than the collar allows. */
  predicate Reachable(market: MarketConfig, reference: Option<u64>, request: OrderRequest, p: u64) {
    if request.orderType == Limit && request.price.Some? then
      if request.side == Buy then p <= request.price.value else p >= request.price.value
    else
      && reference.Some?
      && ((if request.side == Buy then p <= reference.value else p >= reference.value)
          || WithinBps(p, reference.value, market.collarBps))
  }

  lemma ReachExactly(e: EngineState, seqNo: nat, ts: int, id: OrderId, request: OrderRequest, p: u64)
    requires Validate(e.market, ReferenceOf(e.book), request).None?
    ensures var t := TakerOf(e, seqNo, ts, id, request);
      Crosses(t.side, t.limit, p) <==> Reachable(e.market, ReferenceOf(e.book), request, p)
  {
    ValidateReasons(e.market, ReferenceOf(e.book), request);
    AdmittedLimitHasPrice(e.market, ReferenceOf(e.book), request);
    hide Validate;
    var reference := ReferenceOf(e.book);
    if request.orderType != Limit { EdgeExactly(e.market, reference.value, request.side, p); }
  }

  lemma EdgeExactly(market: MarketConfig, reference: u64, side: Side, p: u64)
    ensures var band := CollarBand(market, reference);
      if side == Buy then p <= band.1 <==> p <= reference || WithinBps(p, reference, market.collarBps)
      else p >= band.0 <==> p >= reference || WithinBps(p, reference, market.collarBps)
  {
    BandExactly(p, reference, SOME_MARKET, market);
    assert reference * market.collarBps >= 0;
  }

  ghost predicate FillOfPlacement(e: EngineState, seqNo: nat, ts: int, id: OrderId, request: OrderRequest, f: Fill) {
    && f.seqNo == seqNo && f.timestampMs == ts && f.takerOrderId == id && f.takerSide == request.side
    && Reachable(e.market, ReferenceOf(e.book), request, f.price)
  }

  /** An admitted order trades only within reach, and stops with something in reach only when it is filled, met
      its own account's order, or is a fill-or-kill that changed nothing. */
  lemma {:induction false} TradesAllInReach(e: EngineState, seqNo: nat, ts: int, id: OrderId, request: OrderRequest)
    requires BookInv(e.book, seqNo) && Reaches(e, id, request)
    ensures var out, t := PlaceOrder(e, seqNo, ts, id, request), TakerOf(e, seqNo, ts, id, request);
      var filled := FilledQty(out.events, id);
      && (forall f :: Filled(f) in out.events ==> FillOfPlacement(e, seqNo, ts, id, request, f))
      && filled <= request.qty
      && (filled < request.qty && !MetItsOwn(t, out, request.qty - filled) && request.timeInForce != FOK ==>
            forall o :: o in out.state.book.Of(request.side.Opposite()) ==>
              !Reachable(e.market, ReferenceOf(e.book), request, o.price))
  {
    hide PlaceOrder, Match, FilledQty, MetItsOwn, Reachable, LegalFill, Owed, Rests;
    var out, t := PlaceOrder(e, seqNo, ts, id, request), TakerOf(e, seqNo, ts, id, request);
    forall f | Filled(f) in out.events ensures FillOfPlacement(e, seqNo, ts, id, request, f) {
      PlaceFillsLegally(e, seqNo, ts, id, request);
      FillIsInReach(e, seqNo, ts, id, request, f);
    }
    DispositionExactly(e, seqNo, ts, id, request);
    if request.timeInForce != FOK {
      GoesThrough(e, seqNo, ts, id, request);
      DisposeRelates(e, seqNo, id, request, t);
      var m := Match(t, Matching(e.book, request.qty, [], false));
      forall o | o in out.state.book.Of(request.side.Opposite()) && m.remaining > 0 && !m.stopped
        ensures !Reachable(e.market, ReferenceOf(e.book), request, o.price)
      {
        ReachExactly(e, seqNo, ts, id, request, o.price);
        NothingLeftInReach(t, e.book, request.qty, seqNo, o);
      }
    }
  }

  lemma FillIsInReach(e: EngineState, seqNo: nat, ts: int, id: OrderId, request: OrderRequest, f: Fill)
    requires Reaches(e, id, request)
    requires var t := TakerOf(e, seqNo, ts, id, request); LegalFill(t, e.book.Of(t.side.Opposite()), f)
    ensures FillOfPlacement(e, seqNo, ts, id, request, f)
  {
    ReachExactly(e, seqNo, ts, id, request, f.price);
    hide Reachable;
  }

  lemma GoesThrough(e: EngineState, seqNo: nat, ts: int, id: OrderId, request: OrderRequest)
    requires Reaches(e, id, request) && request.timeInForce != FOK
    ensures var t := TakerOf(e, seqNo, ts, id, request);
      PlaceOrder(e, seqNo, ts, id, request)
        == Dispose(e, id, request, t, Match(t, Matching(e.book, request.qty, [], false)))
  {
    ValidateReasons(e.market, ReferenceOf(e.book), request);
    hide Validate, Match, Dispose;
  }

  lemma NothingLeftInReach(t: Taker, book: Book, qty: u64, now: nat, o: RestingOrder)
    requires BookInv(book, now)
    requires var m := Match(t, Matching(book, qty, [], false)); m.remaining > 0 && !m.stopped && o in Makers(t, m)
    ensures !Crosses(t.side, t.limit, o.price)
  {
    var m0 := Matching(book, qty, [], false);
    MatchKeepsBook(t, m0, now);
    MatchExhaustsReach(t, m0);
    hide Match;
    BestIsBest(t.side.Opposite(), Makers(t, Match(t, m0)));
  }
}
