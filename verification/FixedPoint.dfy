/** What the fixed-point arithmetic means, said without dividing: every rounded amount is pinned from both sides. */
module FixedPoint {
  import opened MatchingTypes
  import opened Orders
  import Reference = ReferenceMatcher

  /** `q` is `x / d` rounded down. */
  predicate Floors(q: nat, x: nat, d: nat) { q * d <= x < (q + 1) * d }

  lemma FloorExactly(q: nat, x: nat, d: nat)
    requires d > 0
    ensures q == x / d <==> Floors(q, x, d)
  {
    assert x == d * (x / d) + x % d;
    if Floors(q, x, d) {
      DivLower(x, d, q);
      if x / d > q {
        MulMono(d, q + 1, x / d);
        assert false;
      }
    }
  }

  /** A bound on a rounded-down quotient is a bound on the dividend. */
  lemma AtMostExactly(x: nat, d: nat, q: nat)
    requires d > 0
    ensures q <= x / d <==> q * d <= x
  {
    if q * d <= x { DivLower(x, d, q); }
    if q <= x / d {
      MulMono(d, q, x / d);
      assert d * (x / d) <= x;
    }
  }

  // ------------------------------------------------------------------ value and fee

  /** A value is price times quantity in billionths, rounded down. */
  lemma {:induction false} ValueExactly(price: nat, qty: nat, value: nat)
    ensures Value(price, qty) == value <==> value * 1_000_000_000 <= price * qty < (value + 1) * 1_000_000_000
  {
    FloorExactly(value, price * qty, PRICE_SCALE);
  }

  /** A fee is its rate's ten-thousandths of the notional, rounded down. */
  lemma {:induction false} FeeExactly(notional: nat, bps: nat, fee: nat)
    ensures FeeAmount(notional, bps) == fee <==> fee * 10_000 <= notional * bps < (fee + 1) * 10_000
  {
    FloorExactly(fee, notional * bps, BPS_DENOMINATOR);
  }

  /** The engine's notional and the gateway's value are the same number, and both give up at 2^64. */
  lemma {:induction false} NotionalExactly(price: u64, qty: u64, value: u64)
    ensures Notional(price, qty) == Some(value)
       <==> value * 1_000_000_000 <= price * qty < (value + 1) * 1_000_000_000
    ensures Notional(price, qty).None? <==> price * qty >= 0x1_0000_0000_0000_0000 * 1_000_000_000
    ensures NotionalOf(price, qty).None? <==> Notional(price, qty).None?
  {
    FloorExactly(value, price * qty, PRICE_SCALE);
    AtMostExactly(price * qty, PRICE_SCALE, MAX_U64 + 1);
  }

  // ------------------------------------------------------------------ the collar

  predicate WithinBps(p: nat, reference: nat, bps: nat) {
    (if p >= reference then p - reference else reference - p) * 10_000 <= reference * bps
  }

  /** A price is inside the collar if and only if it is off the reference by no more than the collar's
      ten-thousandths of it, on either side, for the gateway and for the engine alike. */
  lemma {:induction false} BandExactly(p: u64, reference: u64, gateway: Market, engine: MarketConfig)
    ensures InBand(CollarOf(reference, gateway), p) <==> WithinBps(p, reference, gateway.collarBps)
    ensures !Reference.OutsideBand(p, CollarBand(engine, reference)) <==> WithinBps(p, reference, engine.collarBps)
  {
    var off := if p >= reference then p - reference else reference - p;
    AtMostExactly(reference * gateway.collarBps, BPS_DENOMINATOR, off);
    AtMostExactly(reference * engine.collarBps, BPS_DENOMINATOR, off);
  }

  // ------------------------------------------------------------------ the two fees of a fill

  /** A fill's amounts can be computed exactly when it has a price and a quantity and its value fits u64. The
      taker is charged at the taker's rate and the maker at the maker's, whichever of the two bought. */
  lemma {:induction false} AmountsExactly(terms: FillTerms)
    ensures AmountsOf(terms).Success?
       <==> terms.price > 0 && terms.qty > 0 && terms.price * terms.qty < 0x1_0000_0000_0000_0000 * 1_000_000_000
    ensures AmountsOf(terms).Success? ==>
      var a := AmountsOf(terms).value;
      var takerFee, makerFee := if a.buyerIsTaker then a.buyerFee else a.sellerFee,
        if a.buyerIsTaker then a.sellerFee else a.buyerFee;
      && (a.buyerIsTaker <==> terms.takerSide == Buy)
      && Floors(a.notional, terms.price * terms.qty, 1_000_000_000)
      && Floors(takerFee, a.notional * terms.takerBps, 10_000)
      && Floors(makerFee, a.notional * terms.makerBps, 10_000)
      && (if a.buyerIsTaker then (a.buyerBps, a.sellerBps) else (a.sellerBps, a.buyerBps))
         == (terms.takerBps, terms.makerBps)
  {
    AtMostExactly(terms.price * terms.qty, PRICE_SCALE, MAX_U64 + 1);
    var value := Value(terms.price, terms.qty);
    FloorExactly(value, terms.price * terms.qty, PRICE_SCALE);
    FloorExactly(FeeAmount(value, terms.takerBps), value * terms.takerBps, BPS_DENOMINATOR);
    FloorExactly(FeeAmount(value, terms.makerBps), value * terms.makerBps, BPS_DENOMINATOR);
    hide Value, FeeAmount, Floors;
  }

  // ------------------------------------------------------------------ the hold

  /** The reserve of a buy is the LEAST amount that covers every way of filling it: no smaller hold would do. */
  lemma {:induction false} ReserveIsLeast(price: nat, qty: nat, hold: nat)
    ensures BuyReserve(price, qty) <= hold
       <==> forall fills :: Within(fills, price) && TotalQty(fills) <= qty ==> TotalCost(fills) <= hold
  {
    hide BuyReserve;
    if BuyReserve(price, qty) <= hold {
      forall fills | Within(fills, price) && TotalQty(fills) <= qty ensures TotalCost(fills) <= hold {
        HoldCoversAnySplit(fills, price, qty);
      }
    } else {
      var whole := WholeFill(price, qty);
    }
  }

  /** One fill of everything, at the limit and the worst rate, costs the whole reserve. */
  lemma WholeFill(price: nat, qty: nat) returns (fills: seq<Charge>)
    ensures Within(fills, price) && TotalQty(fills) == qty && TotalCost(fills) == BuyReserve(price, qty)
  {
    fills := [Charge(price, qty, WORST_CASE_TAKER_BPS)];
    assert fills[..0] == [];
  }

  /** A hold, from both sides: a sell holds its bare quantity of base; a buy holds quote, its value at the reserve
      price and a headroom of 20 ten-thousandths of that. It fails only for no quantity, no price to reserve at,
      or a value beyond u64. */
  lemma {:induction false} HoldExactly(request: OrderRequest, market: Market, reference: Option<nat>)
    ensures var price := ReservePrice(request, market, reference);
      ComputeHold(request, market, reference).Success?
      <==> request.qty > 0
           && (request.side == Buy ==>
                 price.Some? && price.value * request.qty < 0x1_0000_0000_0000_0000 * 1_000_000_000)
    ensures ComputeHold(request, market, reference).Success? ==>
      var hold := ComputeHold(request, market, reference).value;
      if request.side == Sell then hold == Hold(market.baseAsset, request.qty, 0)
      else
        && hold.asset == market.quoteAsset && hold.feeHeadroom <= hold.amount
        && var value := hold.amount - hold.feeHeadroom;
           && Floors(value, ReservePrice(request, market, reference).value * request.qty, 1_000_000_000)
           && Floors(hold.feeHeadroom, value * 20, 10_000)
  {
    hide ReservePrice, Floors, Value, FeeAmount;
    var price := ReservePrice(request, market, reference);
    if request.qty > 0 && price.Some? {
      FitsExactly(price.value, request.qty);
      ValueFloors(price.value, request.qty);
      FeeFloors(Value(price.value, request.qty), WORST_CASE_TAKER_BPS);
    }
  }

  lemma FitsExactly(price: nat, qty: nat)
    ensures NotionalOf(price, qty).None? <==> price * qty >= 0x1_0000_0000_0000_0000 * 1_000_000_000
  {
    AtMostExactly(price * qty, PRICE_SCALE, MAX_U64 + 1);
  }

  lemma ValueFloors(price: nat, qty: nat)
    ensures Floors(Value(price, qty), price * qty, 1_000_000_000)
  {
    FloorExactly(Value(price, qty), price * qty, PRICE_SCALE);
  }

  lemma FeeFloors(notional: nat, bps: nat)
    ensures Floors(FeeAmount(notional, bps), notional * bps, 10_000)
  {
    FloorExactly(FeeAmount(notional, bps), notional * bps, BPS_DENOMINATOR);
  }

  /** The price a buy reserves at is its own limit; a market buy's is the highest price inside the collar. */
  lemma {:induction false} ReservePriceExactly(request: OrderRequest, market: Market, reference: Option<nat>)
    ensures request.orderType == Limit ==> ReservePrice(request, market, reference) == request.price
    ensures request.orderType != Limit ==>
      var price := ReservePrice(request, market, reference);
      && price.Some? == reference.Some?
      && (price.Some? ==> && WithinBps(price.value, reference.value, market.collarBps)
                          && !WithinBps(price.value + 1, reference.value, market.collarBps)
                          && price.value >= reference.value)
  {
    if request.orderType != Limit && reference.Some? {
      var r, price := reference.value, ReservePrice(request, market, reference).value;
      AtMostExactly(r * market.collarBps, BPS_DENOMINATOR, price - r);
      AtMostExactly(r * market.collarBps, BPS_DENOMINATOR, price + 1 - r);
    }
  }

  /** The worst case is one a user can really be charged: the dearest taker rate of the schedule. */
  lemma {:induction false} WorstCaseIsCharged()
    ensures (forall tier :: tier in FEE_TIERS ==> tier.takerBps <= WORST_CASE_TAKER_BPS)
    ensures exists tier :: tier in FEE_TIERS && tier.takerBps == WORST_CASE_TAKER_BPS && tier.minVolume == 0
  {
    assert FEE_TIERS[0] in FEE_TIERS;
  }
}
