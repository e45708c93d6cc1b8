/** A run of gateway, engine and worker that stops settlement, and with it the exact condition on a buy. */
module HaltingRun {
  import opened MatchingTypes
  import opened PriceTimeList
  import opened ReferenceMatcher
  import opened MatchingRuns
  import opened Orders
  import opened Ledger
  import opened LedgerHistory
  import opened Outcomes
  import opened Settlement
  import opened FedSettlement
  import opened FedOutcomes
  import S = SettlementRuns
  import Halts = SettlementHalts

  // ------------------------------------------------------------------ the engine's side

  function EngineMarket(lot: u64): MarketConfig { MarketConfig("SOL-USDC", 1, lot, 0, 500, Open) }

  function Asked(id: OrderId, side: Side, price: u64, qty: u64): OrderRequest {
    OrderRequest(id, side, Limit, GTC, Some(price), qty, false, CancelTaker, id)
  }

  /** A sell for all but a lot rests, and the buy meets it. */
  function Commands(price: u64, qty: u64, lot: u64): seq<SequencedCommand>
    requires lot <= qty
  {
    [SequencedCommand(1, 0, Place("sell", Asked("sell", Sell, price, qty - lot))),
     SequencedCommand(2, 0, Place("buy", Asked("buy", Buy, price, qty)))]
  }

  function Traded(price: u64, qty: u64, lot: u64): Fill
    requires lot <= qty
  {
    Fill(FillId(2, 0), 2, "buy", "sell", Buy, price, qty - lot, 0)
  }

  predicate Lots(price: u64, qty: u64, lot: u64) {
    price > 0 && 0 < lot < qty && qty % lot == 0 && Value(price, qty) <= MAX_U64
  }

  lemma Admissible(price: u64, qty: u64, lot: u64, id: OrderId, side: Side)
    requires 0 < lot <= qty && qty % lot == 0 && Value(price, qty) <= MAX_U64
    ensures Validate(EngineMarket(lot), None, Asked(id, side, price, qty)).None?
  {
  }

  /** The first order rests; the second fills it whole and rests the last lot. */
  lemma {:induction false} EngineSays(price: u64, qty: u64, lot: u64)
    requires Lots(price, qty, lot)
    ensures var results := Results(Initial(EngineMarket(lot)), Commands(price, qty, lot));
      && results[0].events == [Accepted(1, "sell", qty - lot)]
      && results[1].events == [Filled(Traded(price, qty, lot)), Accepted(2, "buy", lot)]
  {
    hide PlaceOrder, Results, Validate, Value, ClearTouched, LevelsOf;
    var cmds, e0 := Commands(price, qty, lot), Initial(EngineMarket(lot));
    SellAdmissible(price, qty, lot);
    var e1 := RestsAlone(e0.(lastSeq := 1), 1, "sell", Asked("sell", Sell, price, qty - lot));
    ResultAt(e0, cmds, 0);
    ResultAt(e0, cmds, 1);
    assert cmds[..0] == [] && cmds[..1] == [cmds[0]] && [cmds[0]][..0] == [];
    assert Run(e0, []) == e0;
    assert Run(e0, cmds[..1]) == ClearTouched(Apply(e0, cmds[0]).state);
    var before := Run(e0, cmds[..1]);
    Untouched(Apply(e0, cmds[0]).state);
    var o := RestingOrder("sell", "sell", Sell, price, qty - lot, CancelTaker, 1);
    assert before.book.asks == [o] && before.book.bids == [] && before.book.lastTrade == None;
    Admissible(price, qty, lot, "buy", Buy);
    BuyMeets(before.(lastSeq := 2), price, qty, lot, o);
  }

  lemma Untouched(e: EngineState)
    ensures ClearTouched(e).market == e.market && ClearTouched(e).book == e.book.(touched := {})
  {
  }

  lemma SellAdmissible(price: u64, qty: u64, lot: u64)
    requires Lots(price, qty, lot)
    ensures Validate(EngineMarket(lot), None, Asked("sell", Sell, price, qty - lot)).None?
  {
    hide Value;
    Halts.LessIsWorthLess(price, qty, lot);
    Halts.MultipleLess(qty, lot);
    Admissible(price, qty - lot, lot, "sell", Sell);
  }

  lemma BuyMeets(e: EngineState, price: u64, qty: u64, lot: u64, o: RestingOrder)
    requires Lots(price, qty, lot) && e.market == EngineMarket(lot)
    requires e.book.asks == [o] && e.book.bids == [] && e.book.lastTrade == None
    requires o == RestingOrder("sell", "sell", Sell, price, qty - lot, CancelTaker, 1)
    requires Validate(e.market, None, Asked("buy", Buy, price, qty)).None?
    ensures PlaceOrder(e, 2, 0, "buy", Asked("buy", Buy, price, qty)).events
         == [Filled(Traded(price, qty, lot)), Accepted(2, "buy", lot)]
  {
    hide Validate, Value, Fillable, Match, Insert;
    var request := Asked("buy", Buy, price, qty);
    var t, m0 := TakerOf(e, 2, 0, "buy", request), Matching(e.book, qty, [], false);
    assert "buy" != "sell" by { assert "buy"[0] != "sell"[0]; }
    OneFill(t, m0, price, qty, lot, o);
    assert !e.book.Contains("buy");
  }

  lemma OneFill(t: Taker, m: Matching, price: u64, qty: u64, lot: u64, o: RestingOrder)
    requires Lots(price, qty, lot) && m.remaining == qty && m.events == [] && !m.stopped && m.book.asks == [o]
    requires o == RestingOrder("sell", "sell", Sell, price, qty - lot, CancelTaker, 1)
    requires t == Taker("buy", "buy", Buy, Some(price), CancelTaker, 2, 0)
    ensures var r := Match(t, m); r.remaining == lot && !r.stopped && r.events == [Filled(Traded(price, qty, lot))]
  {
    hide Value;
    assert "buy" != "sell" by { assert "buy"[0] != "sell"[0]; }
    var m' := Step(t, m);
    assert Makers(t, m) == [o] && TakeFromHead([o], qty - lot) == [];
    assert m'.events == [] + [Filled(Traded(price, qty, lot))];
    NothingToMatch(t, m');
  }

  // ------------------------------------------------------------------ the gateway's side

  function Both(price: u64, qty: u64, lot: u64): Setup
    requires lot <= qty
  {
    Setup(EngineMarket(lot), Commands(price, qty, lot), Halts.BASE, Halts.QUOTE)
  }

  /** Fund and record both orders. */
  function Booked(price: u64, qty: u64, lot: u64): seq<Deed>
    requires lot <= qty
  {
    var a := Halts.PlaceBoth(price, qty - lot, qty);
    [Gateway(a[0]), Gateway(a[1]), Gateway(a[2]), Gateway(a[3])]
  }

  /** Send both, and apply the first acceptance. */
  const SENT: seq<Deed> := [Send, Send, Next("", 0, 0), Next("", 0, 0)]

  const LAST := Next("2:0", WORST_CASE_TAKER_BPS, 0)

  lemma {:induction false} BothIsSane(price: u64, qty: u64, lot: u64)
    requires Lots(price, qty, lot)
    ensures Sane(Both(price, qty, lot))
  {
    hide ClusterOf, Value;
    Halts.Qualified();
    assert Halts.BASE != Halts.QUOTE by { assert Halts.BASE[7] != Halts.QUOTE[7]; }
    CommandsAreFresh(price, qty, lot);
  }

  lemma CommandsAreFresh(price: u64, qty: u64, lot: u64)
    requires lot <= qty
    ensures FreshIds(Commands(price, qty, lot)) && Ordered(0, Commands(price, qty, lot))
  {
    var cmds := Commands(price, qty, lot);
    assert "buy" != "sell" by { assert "buy"[0] != "sell"[0]; }
  }

  lemma {:induction false} FourDeeds(x: Setup, w: Worker, d: seq<Deed>)
    requires |d| == 4
    ensures RunFrom(x, w, d) == Act(x, Act(x, Act(x, Act(x, w, d[0]), d[1]), d[2]), d[3])
  {
    hide Act;
    assert d[..3][..2][..1][..0] == [] && d[..3][..2][..1][0] == d[0] && d[..3][..2][1] == d[1] && d[..3][2] == d[2];
    assert RunFrom(x, w, d[..3][..2][..1]) == Act(x, w, d[0]);
    assert RunFrom(x, w, d[..3][..2]) == Act(x, Act(x, w, d[0]), d[1]);
    assert RunFrom(x, w, d[..3]) == Act(x, Act(x, Act(x, w, d[0]), d[1]), d[2]);
  }

  lemma {:induction false} RunFromAppend(x: Setup, w: Worker, a: seq<Deed>, b: seq<Deed>)
    ensures RunFrom(x, w, a + b) == RunFrom(x, RunFrom(x, w, a), b)
  {
    hide Act;
    if b == [] {
      assert a + b == a;
    } else {
      assert (a + b)[..|a + b| - 1] == a + b[..|b| - 1];
      RunFromAppend(x, w, a, b[..|b| - 1]);
    }
  }

  /** The two orders the gateway has recorded. */
  ghost predicate TwoOrders(s: Exchange, price: u64, qty: u64, lot: u64)
    requires lot <= qty
  {
    && |s.orders| == 2
    && s.orders[0] == Settlement.Order("sell", "seller", Sell, Halts.BASE, Halts.QUOTE, 0, qty - lot,
                                       qty - lot, [], true, 0)
    && s.orders[1] == Settlement.Order("buy", "buyer", Buy, Halts.BASE, Halts.QUOTE, price, qty,
                                       BuyReserve(price, qty), [], true, 0)
  }

  /** Recording is what settlement's own run does. */
  lemma {:induction false} BooksBoth(price: u64, qty: u64, lot: u64) returns (s: Exchange)
    requires Lots(price, qty, lot) && BuyReserve(price, qty) > 0
    ensures s == S.Run(S.NOTHING, Halts.PlaceBoth(price, qty - lot, qty)) && TwoOrders(s, price, qty, lot)
    ensures RunFrom(Both(price, qty, lot), START, Booked(price, qty, lot)) == Worker(s, 0, 0, 0, {}, false)
  {
    hide S.Step, S.Run, BuyReserve, Value, Results;
    var a, x := Halts.PlaceBoth(price, qty - lot, qty), Both(price, qty, lot);
    s := Halts.BothPlaced(price, qty - lot, qty);
    var s1 := S.Step(S.NOTHING, a[0]);
    var s2 := S.Step(s1, a[1]);
    var s3 := S.Step(s2, a[2]);
    Halts.FourSteps(S.NOTHING, a);
    FourDeeds(x, START, Booked(price, qty, lot));
    BookedOrders(S.NOTHING, a[0]);
    BookedOrders(s1, a[1]);
    BookedOrders(s2, a[2]);
    BookedOrders(s3, a[3]);
    hide S.NewOrder, ComputeHold, NewlyBooked, Act;
    assert s3.orders == [s.orders[0]];
    assert "buy" != "sell" by { assert "buy"[0] != "sell"[0]; }
    BookTakes(x, START, a[0]);
    BookTakes(x, START.(s := s1), a[1]);
    BookTakes(x, START.(s := s2), a[2]);
    BookTakes(x, START.(s := s3), a[3]);
  }

  lemma BookTakes(x: Setup, w: Worker, a: S.Action)
    requires !a.Settle? && !a.Finish? && (a.Submit? ==> forall o :: o in w.s.orders ==> o.id != a.id)
    ensures Act(x, w, Gateway(a)) == w.(s := S.Step(w.s, a))
  {
    hide S.Step;
    assert forall j :: 0 <= j < |w.s.orders| ==> w.s.orders[j] in w.s.orders;
  }

  // ------------------------------------------------------------------ sending, and the fill that stops it

  /** Both commands ask for what was recorded. */
  lemma {:induction false} BothRecorded(price: u64, qty: u64, lot: u64, s: Exchange)
    requires Lots(price, qty, lot) && TwoOrders(s, price, qty, lot)
    ensures OrderAt(s.orders, "sell") == Some(0) && OrderAt(s.orders, "buy") == Some(1)
    ensures Recorded(Both(price, qty, lot), 0, s.orders[0]) && Recorded(Both(price, qty, lot), 1, s.orders[1])
  {
    hide Run, Value, BuyReserve;
    assert "buy" != "sell" by { assert "buy"[0] != "sell"[0]; }
    AtIsThere(s.orders, 0);
    AtIsThere(s.orders, 1);
  }

  lemma {:induction false} SendsBoth(price: u64, qty: u64, lot: u64, s: Exchange)
    requires Lots(price, qty, lot) && TwoOrders(s, price, qty, lot)
    ensures var x, w := Both(price, qty, lot), Worker(s, 0, 0, 0, {}, false);
      Act(x, Act(x, w, Send), Send) == w.(sent := 2)
  {
    hide Recorded, OrderAt, Results;
    BothRecorded(price, qty, lot, s);
  }

  lemma {:induction false} AppliesAcceptance(price: u64, qty: u64, lot: u64, s: Exchange)
    requires Lots(price, qty, lot) && TwoOrders(s, price, qty, lot)
    ensures var x, w := Both(price, qty, lot), Worker(s, 2, 0, 0, {}, false);
      Act(x, Act(x, w, SENT[2]), SENT[3]) == w.(i := 1)
  {
    hide Recorded, OrderAt, Results, Value, BuyReserve;
    EngineSays(price, qty, lot);
    BothRecorded(price, qty, lot, s);
    assert TotalQty([]) == 0;
  }

  /** The fill is the engine's own, and the worker stops at it. */
  lemma {:induction false} StopsAtFill(price: u64, qty: u64, lot: u64, s: Exchange)
    requires Lots(price, qty, lot) && TwoOrders(s, price, qty, lot) && BuyReserve(price, qty) > 0
    requires BuyReserve(price, qty - lot) == BuyReserve(price, qty)
    requires s == S.Run(S.NOTHING, Halts.PlaceBoth(price, qty - lot, qty))
    ensures Act(Both(price, qty, lot), Worker(s, 2, 1, 0, {}, false), LAST).halted
  {
    hide Recorded, OrderAt, Results, Value, BuyReserve, S.Run, Halts.PlaceBoth, S.Settles, Commits, S.Settleable;
    EngineSays(price, qty, lot);
    BothRecorded(price, qty, lot, s);
    Halts.AllButALotHalts(price, qty, lot);
  }

  /** A sell for all but one lot of a buy rests, the buy meets it, and everything is sent and applied in order: if
      the last lot adds nothing to the reserve, the worker stops at the engine's own fill. */
  lemma {:induction false} EngineRunHalts(price: u64, qty: u64, lot: u64)
    requires Lots(price, qty, lot) && BuyReserve(price, qty) > 0
    requires BuyReserve(price, qty - lot) == BuyReserve(price, qty)
    ensures var x := Both(price, qty, lot); var w := RunFrom(x, START, Booked(price, qty, lot) + SENT);
      Sane(x) && !w.halted && Act(x, w, LAST).halted && TwoOrders(w.s, price, qty, lot)
  {
    hide Act, Booked, BuyReserve, Value, S.Run, Halts.PlaceBoth, Sane, TwoOrders, RunFrom;
    var x := Both(price, qty, lot);
    BothIsSane(price, qty, lot);
    var s := BooksBoth(price, qty, lot);
    var w0 := Worker(s, 0, 0, 0, {}, false);
    RunFromAppend(x, START, Booked(price, qty, lot), SENT);
    FourDeeds(x, w0, SENT);
    SendsBoth(price, qty, lot, s);
    AppliesAcceptance(price, qty, lot, s);
    StopsAtFill(price, qty, lot, s);
  }

  // ------------------------------------------------------------------ exactly when

  /** A run of gateway, engine and worker in a market of these lots stops at a fill of a buy on these terms. */
  ghost predicate HaltsOn(x: Setup, deeds: seq<Deed>, d: Deed, reserve: nat, qty: nat, lot: nat) {
    var w := RunFrom(x, START, deeds);
    && Sane(x) && x.engine.lotSize == lot && !w.halted && Act(x, w, d).halted
    && Applying(x, w, d) && NextEvent(x, w).Filled?
    && exists j :: 0 <= j < |w.s.orders| && IsBuyOf(w.s.orders[j], NextEvent(x, w).fill)
                   && w.s.orders[j].reserve == reserve && w.s.orders[j].qty == qty
  }

  predicate IsBuyOf(o: Settlement.Order, f: Fill) {
    o.id == if f.takerSide == Buy then f.takerOrderId else f.makerOrderId
  }

  /** For a buy of whole lots: no run stops at a fill of it if and only if its last lot adds to its reserve. A
      caller can check that before placing the order. */
  lemma {:induction false} HaltFreeExactly(reserve: u64, qty: u64, lot: u64)
    requires reserve > 0 && 0 < lot <= qty && qty % lot == 0
    requires Value(reserve, qty) <= MAX_U64 && BuyReserve(reserve, qty) > 0
    ensures (forall x, deeds, d :: !HaltsOn(x, deeds, d, reserve, qty, lot))
       <==> BuyReserve(reserve, qty - lot) < BuyReserve(reserve, qty)
  {
    hide HaltsOn, BuyReserve, Value;
    if BuyReserve(reserve, qty - lot) < BuyReserve(reserve, qty) {
      forall x, deeds, d ensures !HaltsOn(x, deeds, d, reserve, qty, lot) {
        SafeNeverHalts(x, deeds, d, reserve, qty, lot);
      }
    } else {
      Halts.NothingToReserve(reserve);
      assert lot < qty;
      Halts.ReserveGrows(reserve, qty, lot);
      SomeRunHalts(reserve, qty, lot);
    }
  }

  lemma {:induction false} SafeNeverHalts(x: Setup, deeds: seq<Deed>, d: Deed, reserve: nat, qty: nat, lot: nat)
    requires LastLotAdds(reserve, qty, lot)
    ensures !HaltsOn(x, deeds, d, reserve, qty, lot)
  {
    hide Act, Good, AtEmptyingFill, RunFrom, LastLotAdds;
    if HaltsOn(x, deeds, d, reserve, qty, lot) {
      var w := RunFrom(x, START, deeds);
      RunIsGood(x, deeds);
      StepHaltsExactly(x, w, d);
      var j :| 0 <= j < |w.s.orders| && IsBuyOf(w.s.orders[j], NextEvent(x, w).fill)
               && w.s.orders[j].reserve == reserve && w.s.orders[j].qty == qty;
      SafeNeverEmpties(x, w, d, j);
    }
  }

  lemma {:induction false} SomeRunHalts(price: u64, qty: u64, lot: u64)
    requires Lots(price, qty, lot) && BuyReserve(price, qty) > 0
    requires BuyReserve(price, qty - lot) == BuyReserve(price, qty)
    ensures exists x, deeds, d :: HaltsOn(x, deeds, d, price, qty, lot)
  {
    hide Act, Good, AtEmptyingFill, RunFrom, BuyReserve, Value, Booked, Commands;
    EngineRunHalts(price, qty, lot);
    var x, deeds := Both(price, qty, lot), Booked(price, qty, lot) + SENT;
    var w := RunFrom(x, START, deeds);
    RunIsGood(x, deeds);
    StepHaltsExactly(x, w, LAST);
    FacesTheFill(price, qty, lot);
    assert IsBuyOf(w.s.orders[1], NextEvent(x, w).fill);
    assert HaltsOn(x, deeds, LAST, price, qty, lot);
  }

  lemma {:induction false} FacesTheFill(price: u64, qty: u64, lot: u64)
    requires Lots(price, qty, lot) && BuyReserve(price, qty) > 0
    ensures var x := Both(price, qty, lot); var w := RunFrom(x, START, Booked(price, qty, lot) + SENT);
      w.i == 1 && w.p == 0 && Said(x)[1].events[0] == Filled(Traded(price, qty, lot))
  {
    hide Act, Booked, BuyReserve, Value, S.Run, Halts.PlaceBoth, RunFrom, Results, TwoOrders;
    var x := Both(price, qty, lot);
    var s := BooksBoth(price, qty, lot);
    RunFromAppend(x, START, Booked(price, qty, lot), SENT);
    FourDeeds(x, Worker(s, 0, 0, 0, {}, false), SENT);
    SendsBoth(price, qty, lot, s);
    AppliesAcceptance(price, qty, lot, s);
    EngineSays(price, qty, lot);
  }

  /** A buy that validation admits, and that a run brings to a halt: three units at half a quote unit each. */
  lemma {:induction false} AdmittedOrderHalts()
    ensures var request := Halts.Request(Buy, 500_000_000, 3);
      && (forall reason :: !Orders.Applies(reason, request, Halts.MARKET, None))
      && ComputeHold(request, Halts.MARKET, None) == Success(Hold(Halts.QUOTE, 1, 0))
    ensures exists x, deeds, d :: HaltsOn(x, deeds, d, 500_000_000, 3, 1)
  {
    hide HaltsOn;
    Halts.HalfUnits();
    Halts.Admitted();
    SomeRunHalts(500_000_000, 3, 1);
  }
}
