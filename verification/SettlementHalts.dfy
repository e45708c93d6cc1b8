/** When settlement stops on a fill it was right to be given: what whole lots leave of a hold, and orders that
    leave nothing of one. */
module SettlementHalts {
  import opened MatchingTypes
  import opened Outcomes
  import opened Orders
  import opened Ledger
  import opened LedgerHistory
  import opened Settlement
  import opened SettlementRuns

  // ------------------------------------------------------------------ whole lots

  ghost predicate WholeLots(fills: seq<Charge>, lot: nat)
    requires lot > 0
  {
    forall f :: f in fills ==> f.qty % lot == 0
  }

  lemma AddMultiples(a: nat, b: nat, lot: nat)
    requires lot > 0 && a % lot == 0 && b % lot == 0
    ensures (a + b) % lot == 0
  {
    var p, q := a / lot, b / lot;
    assert a + b == (p + q) * lot;
    MultipleOfTick(p + q, lot);
  }

  /** Two different multiples are a lot apart. */
  lemma MultiplesApart(a: nat, b: nat, lot: nat)
    requires lot > 0 && a % lot == 0 && b % lot == 0 && a < b
    ensures a <= b - lot
  {
    var p, q := a / lot, b / lot;
    assert a == p * lot && b == q * lot;
    if q <= p {
      MulMono(lot, q, p);
      assert false;
    }
    MulMono(lot, p + 1, q);
  }

  lemma {:induction false} LotsAddUp(fills: seq<Charge>, lot: nat)
    requires lot > 0 && WholeLots(fills, lot)
    ensures TotalQty(fills) % lot == 0
  {
    if fills == [] {
    } else {
      assert fills[|fills| - 1] in fills;
      LotsAddUp(fills[..|fills| - 1], lot);
      AddMultiples(TotalQty(fills[..|fills| - 1]), fills[|fills| - 1].qty, lot);
    }
  }

  lemma {:induction false} LotLeavesSomeHold(s: Exchange, fillId: string, b: nat, k: nat, terms: FillTerms, lot: nat)
    requires Inv(s) && Matched(s, b, k, terms) && lot > 0 && s.orders[b].qty % lot == 0
    requires WholeLots(s.orders[b].fills, lot) && terms.qty % lot == 0 && Priced(s.orders[b])
    requires var o := s.orders[b]; o.qty >= lot && BuyReserve(o.reserve, o.qty - lot) < BuyReserve(o.reserve, o.qty)
    ensures Settles(s, fillId, b, k, terms)
  {
    hide Settles, OrderOk, AmountsOf, BuyReserve, WholeLots, Priced, SettlementRuns.Filled;
    assert s.orders[b] in s.orders;
    HaltsExactly(s, fillId, b, k, terms);
    LotResidue(s.orders[b], terms, lot);
  }

  lemma LotResidue(o: Order, terms: FillTerms, lot: nat)
    requires OrderOk(o) && Priced(o) && o.live && o.side == Buy
    requires AmountsOf(terms).Success? && terms.qty <= o.Remaining()
    requires terms.price <= o.reserve && terms.takerBps <= WORST_CASE_TAKER_BPS
      && terms.makerBps <= WORST_CASE_TAKER_BPS
    requires lot > 0 && o.qty >= lot && o.qty % lot == 0 && WholeLots(o.fills, lot) && terms.qty % lot == 0
    requires BuyReserve(o.reserve, o.qty - lot) < BuyReserve(o.reserve, o.qty)
    ensures var o' := SettlementRuns.Filled(o, terms); o'.Remaining() == 0 || o'.Residue() > 0
  {
    hide AmountsOf, Value, FeeAmount, Cost, TotalCost, TotalQty, BuyReserve;
    PricedIsCovered(o, terms);
    FilledBuy(o, terms);
    var o' := SettlementRuns.Filled(o, terms);
    LotsAddUp(o.fills, lot);
    FilledQtyIs(o, terms);
    AddMultiples(TotalQty(o.fills), terms.qty, lot);
    if o'.Remaining() > 0 {
      MultiplesApart(TotalQty(o'.fills), o'.qty, lot);
      HoldCoversAnySplit(o'.fills, o'.reserve, o'.qty - lot);
    }
  }

  lemma FilledQtyIs(o: Order, terms: FillTerms)
    requires AmountsOf(terms).Success?
    ensures TotalQty(SettlementRuns.Filled(o, terms).fills) == TotalQty(o.fills) + terms.qty
  {
    hide AmountsOf, TotalQty;
    var o' := SettlementRuns.Filled(o, terms);
    TakePush(o.fills, o'.fills[|o.fills|]);
  }

  // ------------------------------------------------------------------ a run that halts

  const BASE := "devnet:SOL"
  const QUOTE := "devnet:USDC"

  /** Ticks and lots of one, no minimum, nothing traded yet. */
  const MARKET := Orders.Market.Market(BASE, QUOTE, 1, 1, 0, 500, Open)

  function Request(side: Side, price: u64, qty: u64): OrderRequest {
    OrderRequest("order", side, Limit, GTC, Some(price), qty, false, CancelTaker, "account")
  }

  /** Fund both sides with exactly what they need, and place a sell that rests and a larger buy that meets it. */
  function PlaceBoth(price: u64, sold: u64, qty: u64): seq<Action> {
    [Record(Allocation("w1", "buyer", QUOTE, BuyReserve(price, qty), None, None)),
     Record(Allocation("w2", "seller", BASE, sold, None, None)),
     Submit("sell", "seller", Request(Sell, price, sold), MARKET, None),
     Submit("buy", "buyer", Request(Buy, price, qty), MARKET, None)]
  }

  const SELL: nat := 0
  const BUY: nat := 1

  /** All but one lot of the buy, as its taker, at its limit and at the worst rate. */
  function AllButALot(price: u64, qty: u64, lot: nat): FillTerms
    requires lot <= qty
  {
    FillTerms(price, qty - lot, Buy, WORST_CASE_TAKER_BPS, 0)
  }

  lemma QualifiedAt(asset: string)
    requires |asset| > 7 && asset[..6] == "devnet" && asset[6] == ':'
    ensures ClusterOf(asset) == Some("devnet")
  {
    assert forall j :: 0 <= j < 6 ==> asset[j] == asset[..6][j];
    IndexOfFirst(asset, ':', 6);
  }

  lemma Qualified()
    ensures ClusterOf(BASE) == ClusterOf(QUOTE) == Some("devnet") && "devnet" in CLUSTERS
  {
    QualifiedAt(BASE);
    QualifiedAt(QUOTE);
    assert CLUSTERS[1] == "devnet";
  }

  lemma FundedCommits(user: string, id: string, asset: string, n: int)
    requires asset == BASE || asset == QUOTE
    requires n > 0
    ensures Commits(Allocation(id, user, asset, n, None, None)) && Commits(OrderHold(id, user, asset, n))
  {
    Qualified();
    hide ClusterOf;
    OnCluster(Allocation(id, user, asset, n, None, None), "devnet");
    OnCluster(OrderHold(id, user, asset, n), "devnet");
  }

  /** What each side has available once funded, and that the other's funding does not touch it. */
  lemma Funded(history: seq<Posting>, id: string, user: string, asset: string, n: nat, who: string, what: string)
    requires n > 0 && (asset == BASE || asset == QUOTE)
    ensures var p := Allocation(id, user, asset, n, None, None);
      Owes(history + [p], who, what, UserTradingAvailable)
        == Owes(history, who, what, UserTradingAvailable) + if who == user && what == asset then n else 0
  {
    FundedCommits(user, id, asset, n);
    hide Commits, Owes;
    PostCredits(history, Allocation(id, user, asset, n, None, None), who, what, UserTradingAvailable);
  }

  /** The state both orders are placed in. */
  lemma BothPlaced(price: u64, sold: u64, qty: u64) returns (s: Exchange)
    requires price > 0 && sold > 0 && qty > 0 && Value(price, qty) <= MAX_U64 && BuyReserve(price, qty) > 0
    ensures s == Run(NOTHING, PlaceBoth(price, sold, qty)) && |s.orders| == 2
    ensures s.orders[SELL] == Order("sell", "seller", Sell, BASE, QUOTE, 0, sold, sold, [], true, 0)
    ensures s.orders[BUY] == Order("buy", "buyer", Buy, BASE, QUOTE, price, qty, BuyReserve(price, qty), [], true, 0)
  {
    hide Owes, Commits, Step, BuyReserve, Value, FeeAmount;
    var a := PlaceBoth(price, sold, qty);
    var s1, s2 := Step(NOTHING, a[0]), Step(Step(NOTHING, a[0]), a[1]);
    var s3 := Step(s2, a[2]);
    s := Step(s3, a[3]);
    FourSteps(NOTHING, a);
    Fund(NOTHING, "w1", "buyer", QUOTE, BuyReserve(price, qty));
    Fund(s1, "w2", "seller", BASE, sold);
    NothingOwed("buyer", QUOTE);
    NothingOwed("seller", BASE);
    assert BASE != QUOTE by { assert BASE[7] != QUOTE[7]; }
    Funded([], "w1", "buyer", QUOTE, BuyReserve(price, qty), "buyer", QUOTE);
    Funded([], "w1", "buyer", QUOTE, BuyReserve(price, qty), "seller", BASE);
    Funded(s1.history, "w2", "seller", BASE, sold, "buyer", QUOTE);
    Funded(s1.history, "w2", "seller", BASE, sold, "seller", BASE);
    TakeSell(s2, price, sold);
    TakeBuy(s2, s3, sold, price, qty);
  }

  lemma FourSteps(s: Exchange, a: seq<Action>)
    requires |a| == 4
    ensures Run(s, a) == Step(Step(Step(Step(s, a[0]), a[1]), a[2]), a[3])
  {
    hide Step;
    assert a[..3][..2][..1][..0] == [] && a[..3][..2][..1][0] == a[0] && a[..3][..2][1] == a[1] && a[..3][2] == a[2];
    assert Run(s, a[..3][..2][..1]) == Step(s, a[0]);
    assert Run(s, a[..3][..2]) == Step(Step(s, a[0]), a[1]);
    assert Run(s, a[..3]) == Step(Step(Step(s, a[0]), a[1]), a[2]);
  }

  lemma NothingOwed(user: string, asset: string)
    ensures Owes([], user, asset, UserTradingAvailable) == 0
  {
  }

  lemma Fund(s: Exchange, id: string, user: string, asset: string, n: nat)
    requires n > 0 && (asset == BASE || asset == QUOTE)
    ensures var p := Allocation(id, user, asset, n, None, None); Step(s, Record(p)) == Posted(s, p)
  {
    FundedCommits(user, id, asset, n);
    hide Commits;
  }

  lemma TakeSell(s: Exchange, price: u64, qty: u64)
    requires qty > 0 && Owes(s.history, "seller", BASE, UserTradingAvailable) >= qty && s.orders == []
    ensures var s' := Step(s, Submit("sell", "seller", Request(Sell, price, qty), MARKET, None));
      && s'.orders == [Order("sell", "seller", Sell, BASE, QUOTE, 0, qty, qty, [], true, 0)]
      && s' == Posted(s, OrderHold("sell", "seller", BASE, qty)).(orders := s'.orders)
  {
    hide *;
    FundedCommits("seller", "sell", BASE, qty);
    SellHold(price, qty);
    Takes(s, "sell", "seller", Request(Sell, price, qty));
    assert s.orders + [NewOrder("sell", "seller", Request(Sell, price, qty), MARKET, None)]
        == [NewOrder("sell", "seller", Request(Sell, price, qty), MARKET, None)];
  }

  lemma BuyHold(price: u64, qty: u64)
    requires qty > 0 && Value(price, qty) <= MAX_U64
    ensures var hold := ComputeHold(Request(Buy, price, qty), MARKET, None);
      hold.Success? && hold.value.asset == QUOTE && hold.value.amount == BuyReserve(price, qty)
    ensures NewOrder("buy", "buyer", Request(Buy, price, qty), MARKET, None)
         == Order("buy", "buyer", Buy, BASE, QUOTE, price, qty, BuyReserve(price, qty), [], true, 0)
  {
    hide Value, FeeAmount;
  }

  lemma SellHold(price: u64, qty: u64)
    requires qty > 0
    ensures ComputeHold(Request(Sell, price, qty), MARKET, None) == Success(Hold(BASE, qty, 0))
    ensures NewOrder("sell", "seller", Request(Sell, price, qty), MARKET, None)
         == Order("sell", "seller", Sell, BASE, QUOTE, 0, qty, qty, [], true, 0)
  {
    hide Value, FeeAmount;
  }

  /** A covered hold is posted and the order taken. */
  lemma Takes(s: Exchange, id: string, user: string, request: OrderRequest)
    requires ComputeHold(request, MARKET, None).Success?
    requires var hold := ComputeHold(request, MARKET, None).value;
      && Owes(s.history, user, hold.asset, UserTradingAvailable) >= hold.amount
      && Commits(OrderHold(id, user, hold.asset, hold.amount))
    ensures var hold := ComputeHold(request, MARKET, None).value;
      var s' := Step(s, Submit(id, user, request, MARKET, None));
      && s' == Posted(s, OrderHold(id, user, hold.asset, hold.amount)).(orders := s'.orders)
      && s'.orders == s.orders + [NewOrder(id, user, request, MARKET, None)]
  {
    hide ComputeHold, NewOrder, Commits, Owes;
  }

  lemma TakeBuy(s: Exchange, s1: Exchange, sold: nat, price: u64, qty: u64)
    requires price > 0 && qty > 0 && Value(price, qty) <= MAX_U64 && BuyReserve(price, qty) > 0
    requires Owes(s.history, "buyer", QUOTE, UserTradingAvailable) >= BuyReserve(price, qty) && |s1.orders| == 1
    requires sold > 0 && s1 == Posted(s, OrderHold("sell", "seller", BASE, sold)).(orders := s1.orders)
    ensures var s' := Step(s1, Submit("buy", "buyer", Request(Buy, price, qty), MARKET, None));
      s'.orders
      == s1.orders + [Order("buy", "buyer", Buy, BASE, QUOTE, price, qty, BuyReserve(price, qty), [], true, 0)]
  {
    hide *;
    FundedCommits("seller", "sell", BASE, sold);
    FundedCommits("buyer", "buy", QUOTE, BuyReserve(price, qty));
    HeldForAnother(s, s1, sold);
    BuyHold(price, qty);
    Takes(s1, "buy", "buyer", Request(Buy, price, qty));
  }

  /** One user's hold leaves another's balance alone. */
  lemma HeldForAnother(s: Exchange, s1: Exchange, n: nat)
    requires s1 == Posted(s, OrderHold("sell", "seller", BASE, n)).(orders := s1.orders)
    requires Commits(OrderHold("sell", "seller", BASE, n))
    ensures Owes(s1.history, "buyer", QUOTE, UserTradingAvailable)
      == Owes(s.history, "buyer", QUOTE, UserTradingAvailable)
  {
    hide Commits, Owes;
    assert "buyer" != "seller" by { assert "buyer"[0] != "seller"[0]; }
    var p := OrderHold("sell", "seller", BASE, n);
    assert Credited(p, "buyer", QUOTE, UserTradingAvailable) == 0;
    hide Credited;
    PostCredits(s.history, p, "buyer", QUOTE, UserTradingAvailable);
  }

  /** A sell for all but one lot of a buy rests and the buy meets it: the engine fills the sell whole. If the last
      lot adds nothing to the reserve, the buy is left live and holding nothing: settlement halts. */
  lemma {:induction false} AllButALotHalts(price: u64, qty: u64, lot: nat)
    requires price > 0 && 0 < lot < qty && Value(price, qty) <= MAX_U64 && BuyReserve(price, qty) > 0
    requires BuyReserve(price, qty - lot) == BuyReserve(price, qty)
    ensures var s, terms := Run(NOTHING, PlaceBoth(price, qty - lot, qty)), AllButALot(price, qty, lot);
      && Matched(s, BUY, SELL, terms) && s.orders[SELL].Remaining() == terms.qty
      && s.orders[BUY].reserve == price && s.orders[BUY].qty == qty && s.orders[BUY].fills == []
      && Commits(TradeOf("2:0", s.orders[BUY], s.orders[SELL], terms))
      && !Settles(s, "2:0", BUY, SELL, terms)
  {
    hide Run, Commits, Settles, Inv, BuyReserve, Value, FeeAmount, AmountsOf, TradeOf,
      PlaceBoth, SettlementRuns.Filled;
    var s := BothPlaced(price, qty - lot, qty);
    var terms := AllButALot(price, qty, lot);
    LessIsWorthLess(price, qty, lot);
    FillIsGood(s, price, qty, lot);
    TradeOnDevnet(s.orders[BUY], s.orders[SELL], terms);
    RunKeeps(PlaceBoth(price, qty - lot, qty));
    HaltsExactly(s, "2:0", BUY, SELL, terms);
    AllReserveTaken(s.orders[BUY], terms, lot);
  }

  /** The fill is one settlement has no reason to refuse. */
  lemma FillIsGood(s: Exchange, price: u64, qty: u64, lot: nat)
    requires price > 0 && 0 < lot < qty && Value(price, qty) <= MAX_U64 && Value(price, qty - lot) <= Value(price, qty)
    requires |s.orders| == 2
    requires s.orders[SELL] == Order("sell", "seller", Sell, BASE, QUOTE, 0, qty - lot, qty - lot, [], true, 0)
    requires s.orders[BUY] == Order("buy", "buyer", Buy, BASE, QUOTE, price, qty, BuyReserve(price, qty), [], true, 0)
    ensures Matched(s, BUY, SELL, AllButALot(price, qty, lot))
    ensures var terms := AllButALot(price, qty, lot);
      terms == FillTerms(price, qty - lot, Buy, WORST_CASE_TAKER_BPS, 0) && AmountsOf(terms).Success?
  {
    hide Value, FeeAmount, BuyReserve;
  }

  lemma LessIsWorthLess(price: u64, qty: u64, lot: nat)
    requires lot <= qty
    ensures Value(price, qty - lot) <= Value(price, qty)
  {
    ValueBounds(price, price, lot, qty - lot);
    hide Value;
    assert qty - lot + lot == qty;
  }

  lemma AllReserveTaken(o: Order, terms: FillTerms, lot: nat)
    requires 0 < lot < o.qty && o.side == Buy && o.live && o.fills == [] && o.hold == BuyReserve(o.reserve, o.qty)
    requires BuyReserve(o.reserve, o.qty - lot) == BuyReserve(o.reserve, o.qty) && AmountsOf(terms).Success?
    requires terms == FillTerms(o.reserve, o.qty - lot, Buy, WORST_CASE_TAKER_BPS, 0)
    ensures var o' := SettlementRuns.Filled(o, terms); o'.Remaining() == lot && o'.Residue() == 0
  {
    FilledBuy(o, terms);
    FilledQtyIs(o, terms);
    BuyerPaysItsCost(terms);
    assert o.Residue() == o.hold && o.Remaining() == o.qty;
    hide Value, FeeAmount, TotalCost, TotalQty;
  }

  lemma TradeOnDevnet(buy: Order, sell: Order, terms: FillTerms)
    requires buy.base == BASE && buy.quote == QUOTE && AmountsOf(terms).Success?
    requires terms.makerBps <= BPS_DENOMINATOR && terms.takerBps <= BPS_DENOMINATOR
    ensures Commits(TradeOf("2:0", buy, sell, terms))
  {
    hide ClusterOf, AmountsOf, Commits;
    Qualified();
    assert BASE != QUOTE by { assert BASE[7] != QUOTE[7]; }
    TradeCommits("2:0", buy, sell, terms);
  }

  // ------------------------------------------------------------------ reserves of fewer lots

  lemma NothingToReserve(price: nat)
    ensures BuyReserve(price, 0) == 0
  {
    assert price * 0 == 0;
  }

  lemma ReserveGrows(price: nat, qty: nat, lot: nat)
    requires lot <= qty
    ensures BuyReserve(price, qty - lot) <= BuyReserve(price, qty)
  {
    var one := [Charge(price, qty - lot, WORST_CASE_TAKER_BPS)];
    assert one[..0] == [];
    HoldCoversAnySplit(one, price, qty);
  }

  lemma MultipleLess(a: nat, lot: nat)
    requires 0 < lot <= a && a % lot == 0
    ensures (a - lot) % lot == 0
  {
    var p := a / lot;
    assert a == p * lot && p >= 1;
    assert a - lot == (p - 1) * lot;
    MultipleOfTick(p - 1, lot);
  }

  lemma HalfUnits()
    ensures Value(500_000_000, 3) == Value(500_000_000, 2) == 1 && FeeAmount(1, WORST_CASE_TAKER_BPS) == 0
    ensures BuyReserve(500_000_000, 3) == BuyReserve(500_000_000, 2) == 1 && 3 % 1 == 0
  {
  }

  lemma Admitted()
    ensures forall reason :: !Applies(reason, Request(Buy, 500_000_000, 3), MARKET, None)
  {
    HalfUnits();
    hide Value, FeeAmount;
  }
}
