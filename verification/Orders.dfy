/** Pre-trade arithmetic: notional, fees, collars, validation and the hold an order takes. */
module Orders {
  import opened MatchingTypes
  import opened Outcomes

  /** A market as the gateway sees it. Ticks and lots are positive by construction. */
  datatype Market = Market(
    baseAsset: string, quoteAsset: string, tickSize: nat, lotSize: nat, minNotional: int, collarBps: nat,
    status: MarketStatus)

  // ------------------------------------------------------------------ fixed-point arithmetic

  /** `floor(price * qty / PRICE_SCALE)`. */
  function Value(price: nat, qty: nat): nat { (price * qty) / PRICE_SCALE }

  /** The value, refused when it does not fit u64. */
  function NotionalOf(price: nat, qty: nat): Option<nat> {
    if Value(price, qty) <= MAX_U64 then Some(Value(price, qty)) else None
  }

  /** `floor(notional * bps / 10_000)`. */
  function FeeAmount(notional: nat, bps: nat): nat { (notional * bps) / BPS_DENOMINATOR }

  lemma DivSuper(x: nat, y: nat, d: nat)
    requires d > 0
    ensures x / d + y / d <= (x + y) / d
  {
    var q := x / d + y / d;
    assert d * (x / d) <= x && d * (y / d) <= y;
    assert d * q == d * (x / d) + d * (y / d);
    DivLower(x + y, d, q);
  }

  lemma DivLower(x: nat, d: nat, q: nat)
    requires d > 0 && d * q <= x
    ensures q <= x / d
  {
    if q > x / d {
      MulMono(d, x / d + 1, q);
      assert false;
    }
  }

  lemma MulMono(d: nat, a: nat, b: nat)
    requires a <= b
    ensures d * a <= d * b
  {
  }

  lemma DivMono(x: nat, y: nat, d: nat)
    requires d > 0 && x <= y
    ensures x / d <= y / d
  {
    assert d * (x / d) <= x;
    DivLower(y, d, x / d);
  }

  /** A larger quantity or price is worth at least as much, and splitting an order never adds value. */
  lemma ValueBounds(p: nat, P: nat, q: nat, r: nat)
    requires p <= P
    ensures Value(P, r) + Value(p, q) <= Value(P, r + q)
  {
    assert p * q <= P * q;
    assert P * (r + q) == P * r + P * q;
    DivMono(p * q, P * q, PRICE_SCALE);
    DivSuper(P * r, P * q, PRICE_SCALE);
  }

  lemma FeeBounds(n: nat, m: nat, b: nat, B: nat)
    requires b <= B
    ensures FeeAmount(m, B) + FeeAmount(n, b) <= FeeAmount(m + n, B)
  {
    assert n * b <= n * B;
    assert (m + n) * B == m * B + n * B;
    DivMono(n * b, n * B, BPS_DENOMINATOR);
    DivSuper(m * B, n * B, BPS_DENOMINATOR);
  }

  // ------------------------------------------------------------------ the fee schedule

  datatype FeeTier = FeeTier(tier: nat, minVolume: nat, makerBps: nat, takerBps: nat)

  const FEE_TIERS: seq<FeeTier> := [
    FeeTier(0, 0, 10, 20),
    FeeTier(1, 100_000_000_000, 8, 18),
    FeeTier(2, 1_000_000_000_000, 5, 15),
    FeeTier(3, 10_000_000_000_000, 2, 10)]

  /** The most expensive taker rate of the schedule. */
  const WORST_CASE_TAKER_BPS: nat := 20

  /** The highest tier a trailing volume earns. Every rate it can name is below the worst case, and
      maker is below taker at every tier. */
  method TierForVolume(volume: int) returns (r: Result<FeeTier>)
    ensures r.Failure? <==> volume < 0
    ensures r.Success? ==>
      && r.value in FEE_TIERS && r.value.minVolume <= volume
      && (forall t :: t in FEE_TIERS && t.minVolume <= volume ==> t.minVolume <= r.value.minVolume)
      && r.value.makerBps < r.value.takerBps <= WORST_CASE_TAKER_BPS
  {
    if volume < 0 { return Failure("volume must be non-negative"); }
    var found := FEE_TIERS[0];
    for i := 0 to |FEE_TIERS|
      invariant found in FEE_TIERS && found.minVolume <= volume
      invariant found.makerBps < found.takerBps <= WORST_CASE_TAKER_BPS
      invariant forall j :: 0 <= j < i && FEE_TIERS[j].minVolume <= volume ==> FEE_TIERS[j].minVolume <= found.minVolume
    {
      if volume >= FEE_TIERS[i].minVolume { found := FEE_TIERS[i]; }
    }
    r := Success(found);
  }

  // ------------------------------------------------------------------ the hold

  datatype Band = Band(lower: nat, upper: nat)

  function CollarOf(reference: nat, market: Market): Band {
    var deviation := (reference * market.collarBps) / BPS_DENOMINATOR;
    Band(SaturatingSub(reference, deviation), reference + deviation)
  }

  datatype Hold = Hold(asset: string, amount: nat, feeHeadroom: nat)

  function LimitOf(request: OrderRequest): Option<nat> {
    if request.orderType == Limit && request.price.Some? then Some(request.price.value) else None
  }

  /** The price a buy reserves at: its limit, or the top of the collar. */
  function ReservePrice(request: OrderRequest, market: Market, reference: Option<nat>): Option<nat> {
    if request.orderType == Limit then LimitOf(request)
    else if reference.None? then None
    else Some(CollarOf(reference.value, market).upper)
  }

  /** The most a buy of `qty` at `price` can cost: its value and the worst-case fee on it. */
  function BuyReserve(price: nat, qty: nat): nat {
    Value(price, qty) + FeeAmount(Value(price, qty), WORST_CASE_TAKER_BPS)
  }

  /** A sell holds bare base quantity; a buy holds quote, value plus fee headroom. */
  function ComputeHold(request: OrderRequest, market: Market, reference: Option<nat>): Result<Hold> {
    if request.qty == 0 then Failure("hold quantity must be positive")
    else if request.side == Sell then Success(Hold(market.baseAsset, request.qty, 0))
    else match ReservePrice(request, market, reference)
      case None => Failure("nothing to reserve against")
      case Some(price) =>
        if NotionalOf(price, request.qty).None? then Failure("notional exceeds u64")
        else
          var value := Value(price, request.qty);
          var headroom := FeeAmount(value, WORST_CASE_TAKER_BPS);
          Success(Hold(market.quoteAsset, value + headroom, headroom))
  }

  // ------------------------------------------------------------------ what a fill costs

  datatype FillTerms = FillTerms(price: nat, qty: nat, takerSide: Side, takerBps: nat, makerBps: nat)

  datatype FillAmounts = FillAmounts(
    notional: nat, buyerIsTaker: bool, buyerBps: nat, sellerBps: nat, buyerFee: nat, sellerFee: nat)

  function AmountsOf(terms: FillTerms): Result<FillAmounts> {
    if terms.price == 0 then Failure("fill price must be positive")
    else if terms.qty == 0 then Failure("fill quantity must be positive")
    else if NotionalOf(terms.price, terms.qty).None? then Failure("notional exceeds u64")
    else
      var value := Value(terms.price, terms.qty);
      var takerFee, makerFee := FeeAmount(value, terms.takerBps), FeeAmount(value, terms.makerBps);
      var buyerIsTaker := terms.takerSide == Buy;
      Success(FillAmounts(value, buyerIsTaker,
                          if buyerIsTaker then terms.takerBps else terms.makerBps,
                          if buyerIsTaker then terms.makerBps else terms.takerBps,
                          if buyerIsTaker then takerFee else makerFee,
                          if buyerIsTaker then makerFee else takerFee))
  }

  /** A fill as one buyer pays for it. */
  datatype Charge = Charge(price: nat, qty: nat, bps: nat)

  function Cost(c: Charge): nat { Value(c.price, c.qty) + FeeAmount(Value(c.price, c.qty), c.bps) }

  function TotalCost(fills: seq<Charge>): nat {
    if fills == [] then 0 else TotalCost(fills[..|fills| - 1]) + Cost(fills[|fills| - 1])
  }

  function TotalQty(fills: seq<Charge>): nat {
    if fills == [] then 0 else TotalQty(fills[..|fills| - 1]) + fills[|fills| - 1].qty
  }

  ghost predicate Within(fills: seq<Charge>, price: nat) {
    forall f :: f in fills ==> f.price <= price && f.bps <= WORST_CASE_TAKER_BPS
  }

  lemma FeeWithin(notional: nat, bps: nat)
    requires bps <= BPS_DENOMINATOR
    ensures FeeAmount(notional, bps) <= notional
  {
    MulMono(notional, bps, BPS_DENOMINATOR);
    DivMono(notional * bps, notional * BPS_DENOMINATOR, BPS_DENOMINATOR);
  }

  /** What a buyer pays for a fill is its amounts' notional plus the buyer's fee, whichever side took. */
  lemma {:induction false} BuyerPaysItsCost(terms: FillTerms)
    requires AmountsOf(terms).Success?
    ensures var a := AmountsOf(terms).value; a.notional + a.buyerFee == Cost(Charge(terms.price, terms.qty, a.buyerBps))
    ensures terms.makerBps <= BPS_DENOMINATOR && terms.takerBps <= BPS_DENOMINATOR ==>
      AmountsOf(terms).value.sellerFee <= AmountsOf(terms).value.notional
  {
    hide Value;
    var a := AmountsOf(terms).value;
    if a.sellerBps <= BPS_DENOMINATOR { FeeWithin(a.notional, a.sellerBps); }
    hide FeeAmount;
  }

  /** ONE hold covers EVERY later split into fills, at any prices up to the reserve price and any
      rates up to the worst case, however each fill's value and fee are floored. */
  lemma {:induction false} HoldCoversAnySplit(fills: seq<Charge>, price: nat, qty: nat)
    requires Within(fills, price) && TotalQty(fills) <= qty
    ensures TotalCost(fills) <= BuyReserve(price, qty)
  {
    SplitCost(fills, price);
    var rest := qty - TotalQty(fills);
    assert TotalQty(fills) + rest == qty;
    ValueBounds(price, price, rest, TotalQty(fills));
    var n, m := Value(price, TotalQty(fills)), Value(price, qty);
    assert n * WORST_CASE_TAKER_BPS <= m * WORST_CASE_TAKER_BPS;
    DivMono(n * WORST_CASE_TAKER_BPS, m * WORST_CASE_TAKER_BPS, BPS_DENOMINATOR);
  }

  lemma {:induction false} SplitCost(fills: seq<Charge>, price: nat)
    requires Within(fills, price)
    ensures TotalCost(fills) <= BuyReserve(price, TotalQty(fills))
  {
    if fills == [] {
    } else {
      var before, f := fills[..|fills| - 1], fills[|fills| - 1];
      assert f in fills;
      SplitCost(before, price);
      ValueBounds(f.price, price, f.qty, TotalQty(before));
      var v, m, n := Value(f.price, f.qty), Value(price, TotalQty(before)), Value(price, TotalQty(fills));
      FeeBounds(v, m, f.bps, WORST_CASE_TAKER_BPS);
      assert (m + v) * WORST_CASE_TAKER_BPS <= n * WORST_CASE_TAKER_BPS;
      DivMono((m + v) * WORST_CASE_TAKER_BPS, n * WORST_CASE_TAKER_BPS, BPS_DENOMINATOR);
    }
  }

  /** A part-filled buy still holding something is what settlement asserts of it. It is true of every
      way of filling all but one lot exactly when that last lot adds to the reserve; otherwise the one
      fill of all but a lot, at the limit and the worst rate, leaves a live order holding nothing. */
  lemma {:induction false} PartFillKeepsSomeHoldExactly(price: nat, qty: nat, lot: nat)
    requires 0 < lot <= qty
    ensures (forall fills :: Within(fills, price) && TotalQty(fills) <= qty - lot
               ==> TotalCost(fills) < BuyReserve(price, qty))
       <==> BuyReserve(price, qty - lot) < BuyReserve(price, qty)
  {
    var worst := [Charge(price, qty - lot, WORST_CASE_TAKER_BPS)];
    assert worst[..0] == [];
    assert TotalQty(worst) == qty - lot && TotalCost(worst) == BuyReserve(price, qty - lot) && Within(worst, price);
    if BuyReserve(price, qty - lot) < BuyReserve(price, qty) {
      forall fills | Within(fills, price) && TotalQty(fills) <= qty - lot
        ensures TotalCost(fills) < BuyReserve(price, qty)
      {
        HoldCoversAnySplit(fills, price, qty - lot);
      }
    }
  }

  /** A lot worth at least one quote unit is enough. */
  lemma {:induction false} LotWorthAUnit(price: nat, qty: nat, lot: nat)
    requires 0 < lot <= qty && price * lot >= PRICE_SCALE
    ensures BuyReserve(price, qty - lot) < BuyReserve(price, qty)
  {
    ValueBounds(price, price, lot, qty - lot);
    assert qty - lot + lot == qty;
    DivLower(price * lot, PRICE_SCALE, 1);
    var n, m := Value(price, qty - lot), Value(price, qty);
    assert n * WORST_CASE_TAKER_BPS <= m * WORST_CASE_TAKER_BPS;
    DivMono(n * WORST_CASE_TAKER_BPS, m * WORST_CASE_TAKER_BPS, BPS_DENOMINATOR);
  }

  // ------------------------------------------------------------------ validation

  datatype Validation = Validation(ok: bool, reasons: seq<RejectReason>, band: Option<Band>, notional: Option<nat>)

  /** The price an order is judged at: its own limit, or the reference. */
  function JudgedAt(request: OrderRequest, reference: Option<nat>): Option<nat> {
    if LimitOf(request).Some? then LimitOf(request) else reference
  }

  /** The judged value, or what a buy must reserve, does not fit u64. */
  predicate Overflows(request: OrderRequest, market: Market, reference: Option<nat>) {
    && request.qty > 0
    && (|| (JudgedAt(request, reference).Some? && Value(JudgedAt(request, reference).value, request.qty) > MAX_U64)
        || (request.side == Buy && ReserveAt(request, market, reference).Some?
            && BuyReserve(ReserveAt(request, market, reference).value, request.qty) > MAX_U64))
  }

  function ReserveAt(request: OrderRequest, market: Market, reference: Option<nat>): Option<nat> {
    if LimitOf(request).Some? then LimitOf(request)
    else if reference.Some? then Some(CollarOf(reference.value, market).upper) else None
  }

  /** When each reason is given. Every check runs: one reason never hides another. */
  predicate Applies(reason: RejectReason, request: OrderRequest, market: Market, reference: Option<nat>)
    requires market.tickSize > 0 && market.lotSize > 0
  {
    match reason
    case MarketNotOpen =>
      (market.status != Open && market.status != PostOnly) || (market.status == PostOnly && !request.postOnly)
    case QuantityNotPositive => request.qty == 0
    case PriceRequired => request.orderType == Limit && request.price.None?
    case PriceNotAllowed => request.orderType != Limit && request.price.Some?
    case PostOnlyRequiresLimit => request.postOnly && request.orderType != Limit
    case TickViolation => LimitOf(request).Some? && LimitOf(request).value % market.tickSize != 0
    case LotViolation => request.qty > 0 && request.qty % market.lotSize != 0
    case NoReferencePrice => request.orderType != Limit && reference.None?
    case OutsideCollar =>
      reference.Some? && LimitOf(request).Some?
      && var band := CollarOf(reference.value, market);
         (LimitOf(request).value < band.lower || LimitOf(request).value > band.upper)
    case BelowMinNotional =>
      request.qty > 0 && JudgedAt(request, reference).Some?
      && var value := Value(JudgedAt(request, reference).value, request.qty);
         value <= MAX_U64 && value < market.minNotional
    case NotionalOverflow => Overflows(request, market, reference)
    case _ => false
  }

  function PushIf(reasons: seq<RejectReason>, condition: bool, reason: RejectReason): (r: seq<RejectReason>)
    ensures forall x :: x in r <==> x in reasons || (condition && x == reason)
  {
    if condition then reasons + [reason] else reasons
  }

  /** Reasons that do not depend on what the order is worth. */
  predicate IsShape(reason: RejectReason) {
    reason in {MarketNotOpen, QuantityNotPositive, PriceRequired, PriceNotAllowed, PostOnlyRequiresLimit,
               TickViolation, LotViolation, NoReferencePrice}
  }

  method CheckShape(request: OrderRequest, market: Market, reference: Option<nat>) returns (reasons: seq<RejectReason>)
    requires market.tickSize > 0 && market.lotSize > 0
    ensures forall x :: x in reasons <==> IsShape(x) && Applies(x, request, market, reference)
  {
    hide Value, CollarOf, FeeAmount, PushIf, Overflows;
    var qty, isLimit, limitPrice := request.qty, request.orderType == Limit, LimitOf(request);
    reasons := [];
    reasons := PushIf(reasons, (market.status != Open && market.status != PostOnly)
                               || (market.status == PostOnly && !request.postOnly), MarketNotOpen);
    reasons := PushIf(reasons, qty == 0, QuantityNotPositive);
    reasons := PushIf(reasons, isLimit && request.price.None?, PriceRequired);
    reasons := PushIf(reasons, !isLimit && request.price.Some?, PriceNotAllowed);
    reasons := PushIf(reasons, request.postOnly && !isLimit, PostOnlyRequiresLimit);
    reasons := PushIf(reasons, limitPrice.Some? && limitPrice.value % market.tickSize != 0, TickViolation);
    reasons := PushIf(reasons, qty > 0 && qty % market.lotSize != 0, LotViolation);
    reasons := PushIf(reasons, !isLimit && reference.None?, NoReferencePrice);
  }

  /** A buy must also be able to RESERVE, at a price that may be above the one it was judged at. */
  method CheckOverflow(request: OrderRequest, market: Market, reference: Option<nat>) returns (overflowed: bool)
    ensures overflowed == Overflows(request, market, reference)
  {
    hide Value, CollarOf, FeeAmount;
    var qty, limitPrice := request.qty, LimitOf(request);
    var judgedAt := if limitPrice.Some? then limitPrice else reference;
    overflowed := judgedAt.Some? && qty > 0 && NotionalOf(judgedAt.value, qty).None?;
    if !overflowed && request.side == Buy && qty > 0 {
      var reservePrice := ReserveAt(request, market, reference);
      if reservePrice.Some? {
        var reserve := NotionalOf(reservePrice.value, qty);
        overflowed := reserve.None? || reserve.value + FeeAmount(reserve.value, WORST_CASE_TAKER_BPS) > MAX_U64;
      }
    }
  }

  /** Every check runs on every order: the reasons given are exactly the reasons that apply. */
  method ValidateOrder(request: OrderRequest, market: Market, reference: Option<nat>) returns (v: Validation)
    requires market.tickSize > 0 && market.lotSize > 0
    ensures forall reason :: reason in v.reasons <==> Applies(reason, request, market, reference)
    ensures v.ok <==> v.reasons == []
    ensures v.band.Some? == reference.Some? && (v.band.Some? ==> v.band.value == CollarOf(reference.value, market))
    ensures v.notional == if request.qty > 0 && JudgedAt(request, reference).Some?
                          then NotionalOf(JudgedAt(request, reference).value, request.qty) else None
  {
    hide Value, CollarOf, FeeAmount, PushIf, Overflows;
    var reasons := CheckShape(request, market, reference);
    var qty, limitPrice := request.qty, LimitOf(request);
    var band: Option<Band> := if reference.Some? then Some(CollarOf(reference.value, market)) else None;
    reasons := PushIf(reasons, band.Some? && limitPrice.Some?
                               && (limitPrice.value < band.value.lower || limitPrice.value > band.value.upper),
                      OutsideCollar);
    var judgedAt := if limitPrice.Some? then limitPrice else reference;
    var truncated: Option<nat> := if judgedAt.Some? && qty > 0 then NotionalOf(judgedAt.value, qty) else None;
    reasons := PushIf(reasons, truncated.Some? && truncated.value < market.minNotional, BelowMinNotional);
    var overflowed := CheckOverflow(request, market, reference);
    reasons := PushIf(reasons, overflowed, NotionalOverflow);
    v := Validation(reasons == [], reasons, band, truncated);
  }

  /** Every buy that validation admits gets a hold, the hold fits u64, and it is exactly the reserve. */
  lemma {:induction false} AdmittedBuyHasAHold(request: OrderRequest, market: Market, reference: Option<nat>)
    requires market.tickSize > 0 && market.lotSize > 0 && request.side == Buy
    requires forall reason :: !Applies(reason, request, market, reference)
    ensures var price := ReservePrice(request, market, reference);
      && price.Some? && ComputeHold(request, market, reference).Success?
      && var hold := ComputeHold(request, market, reference).value;
         hold.asset == market.quoteAsset && hold.amount == BuyReserve(price.value, request.qty)
           && hold.amount <= MAX_U64
  {
    assert !Applies(QuantityNotPositive, request, market, reference);
    assert !Applies(PriceRequired, request, market, reference);
    assert !Applies(NoReferencePrice, request, market, reference);
    assert !Applies(PriceNotAllowed, request, market, reference);
    assert !Applies(NotionalOverflow, request, market, reference);
  }

  function FloorToTick(p: nat, tick: nat): nat
    requires tick > 0
  {
    (p / tick) * tick
  }

  function CeilToTick(p: nat, tick: nat): nat
    requires tick > 0
  {
    ((p + tick - 1) / tick) * tick
  }

  predicate OnTick(p: nat, tick: nat)
    requires tick > 0
  {
    p % tick == 0
  }

  predicate InBand(band: Band, p: nat) { band.lower <= p <= band.upper }

  /** What the engine is sent for a market order: an immediate limit at the collar edge, rounded to a
      tick inside the band. */
  function ProtectionPrice(request: OrderRequest, market: Market, reference: nat): nat
    requires market.tickSize > 0
  {
    var band := CollarOf(reference, market);
    if request.side == Buy then FloorToTick(band.upper, market.tickSize) else CeilToTick(band.lower, market.tickSize)
  }

  /** A market buy can never fill above the price its hold was sized at, whatever the engine's own
      reference does in the meantime; the price sent is on a tick, a sell's is never below the band, and it is
      inside the band exactly when any tick is. */
  lemma {:induction false} ProtectionInsideReserve(request: OrderRequest, market: Market, reference: nat)
    requires market.tickSize > 0 && request.orderType != Limit
    ensures var p, band := ProtectionPrice(request, market, reference), CollarOf(reference, market);
      && OnTick(p, market.tickSize)
      && (request.side == Buy ==> p <= ReservePrice(request, market, Some(reference)).value == band.upper)
      && (request.side == Sell ==> p >= band.lower)
      && (InBand(band, p) <==> exists x :: OnTick(x, market.tickSize) && InBand(band, x))
  {
    hide FloorToTick, CeilToTick, CollarOf, OnTick;
    var band, tick := CollarOf(reference, market), market.tickSize;
    RoundsToTick(band.upper, tick);
    RoundsToTick(band.lower, tick);
    forall x | OnTick(x, tick) && InBand(band, x) ensures InBand(band, ProtectionPrice(request, market, reference)) {
      NearestTick(x, band.upper, tick);
      NearestTick(x, band.lower, tick);
    }
  }

  lemma RoundsToTick(p: nat, tick: nat)
    requires tick > 0
    ensures OnTick(FloorToTick(p, tick), tick) && FloorToTick(p, tick) <= p
    ensures OnTick(CeilToTick(p, tick), tick) && CeilToTick(p, tick) >= p
  {
    MultipleOfTick(p / tick, tick);
    MultipleOfTick((p + tick - 1) / tick, tick);
  }

  /** Flooring is the highest tick at or below a price, ceiling the lowest at or above it. */
  lemma NearestTick(x: nat, edge: nat, tick: nat)
    requires tick > 0 && OnTick(x, tick)
    ensures x <= edge ==> x <= FloorToTick(edge, tick)
    ensures x >= edge ==> CeilToTick(edge, tick) <= x
  {
    var q := x / tick;
    assert x == q * tick;
    if x <= edge {
      DivMono(x, edge, tick);
      MulMono(tick, q, edge / tick);
    }
    if x >= edge {
      DivMono(edge + tick - 1, x + tick - 1, tick);
      CeilOfMultiple(q, tick);
      MulMono(tick, (edge + tick - 1) / tick, q);
    }
  }

  lemma CeilOfMultiple(q: nat, tick: nat)
    requires tick > 0
    ensures (q * tick + tick - 1) / tick == q
  {
    var x := q * tick + tick - 1;
    var r := x / tick;
    assert x == tick * r + x % tick;
    if r < q { MulMono(tick, r + 1, q); assert false; }
    if r > q { MulMono(tick, q + 1, r); assert false; }
  }

  lemma MultipleOfTick(q: nat, tick: nat)
    requires tick > 0
    ensures (q * tick) % tick == 0
  {
    var x := q * tick;
    DivLower(x, tick, q);
    if x / tick > q {
      MulMono(tick, q + 1, x / tick);
      assert false;
    }
    assert x == tick * (x / tick) + x % tick;
  }
}
