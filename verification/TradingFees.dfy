/** Every fee a fill charges reaches the house, and nothing else does. */
module TradingFees {
  import opened MatchingTypes
  import opened Orders
  import opened Ledger
  import opened LedgerHistory
  import opened Settlement
  import opened HouseFlows
  import opened CustodyRuns
  import S = SettlementRuns

  function FeeOfCharge(c: Charge): nat { FeeAmount(Value(c.price, c.qty), c.bps) }

  function FeesOf(fills: seq<Charge>): nat {
    if fills == [] then 0 else FeesOf(fills[..|fills| - 1]) + FeeOfCharge(fills[|fills| - 1])
  }

  function OrderFees(o: Order, asset: string): nat { if o.quote == asset then FeesOf(o.fills) else 0 }

  /** The fees of every fill of every order, on the buy's side and on the sell's, in an asset. */
  function FeesCharged(orders: seq<Order>, asset: string): nat {
    if orders == [] then 0
    else FeesCharged(orders[..|orders| - 1], asset) + OrderFees(orders[|orders| - 1], asset)
  }

  lemma {:induction false} ChargedUpdate(orders: seq<Order>, i: nat, o: Order, asset: string)
    requires i < |orders|
    ensures FeesCharged(orders[i := o], asset)
         == FeesCharged(orders, asset) - OrderFees(orders[i], asset) + OrderFees(o, asset)
  {
    var n := |orders| - 1;
    if i == n {
      assert orders[i := o][..n] == orders[..n];
    } else {
      assert orders[i := o][..n] == orders[..n][i := o];
      ChargedUpdate(orders[..n], i, o, asset);
    }
  }

  lemma ChargedPush(orders: seq<Order>, o: Order, asset: string)
    ensures FeesCharged(orders + [o], asset) == FeesCharged(orders, asset) + OrderFees(o, asset)
  {
    assert (orders + [o])[..|orders|] == orders;
  }

  /** A fill adds its fee to each of its two orders: the buyer's to the buy, the seller's to the sell. */
  lemma FilledFees(o: Order, terms: FillTerms, asset: string)
    requires AmountsOf(terms).Success?
    ensures var a := AmountsOf(terms).value;
      OrderFees(S.Filled(o, terms), asset)
        == OrderFees(o, asset) + if o.quote != asset then 0 else if o.side == Buy then a.buyerFee else a.sellerFee
  {
    hide Value, FeeAmount;
    var a, more := AmountsOf(terms).value, S.Filled(o, terms).fills;
    assert more[..|more| - 1] == o.fills;
  }

  // ------------------------------------------------------------------ what each step earns

  lemma {:induction false} EarnsNothing(history: seq<Posting>, ps: seq<Posting>, asset: string)
    requires forall p :: p in ps ==> !p.TradeSettlement?
    ensures BroughtOver(history + ps, asset, HouseTradingFees) == BroughtOver(history, asset, HouseTradingFees)
  {
    hide Commits;
    if ps == [] {
      assert history + ps == history;
    } else {
      var most, p := ps[..|ps| - 1], ps[|ps| - 1];
      assert p in ps && (history + ps)[..|history + ps| - 1] == history + most;
      EarnsNothing(history, most, asset);
    }
  }

  lemma TradeEarns(history: seq<Posting>, p: Posting, rest: seq<Posting>, asset: string)
    requires Commits(p) && p.TradeSettlement? && OnlyReleases(rest)
    ensures BroughtOver(history + ([p] + rest), asset, HouseTradingFees)
         == BroughtOver(history, asset, HouseTradingFees) + if p.quote == asset then p.buyerFee + p.sellerFee else 0
  {
    hide Commits;
    assert history + ([p] + rest) == (history + [p]) + rest && (history + [p])[..|history|] == history;
    EarnsNothing(history + [p], rest, asset);
  }

  /** Two orders changed: each one's fees are counted once. */
  lemma ChargedTwice(orders: seq<Order>, after: seq<Order>, b: nat, k: nat, asset: string)
    requires b < |orders| && k < |orders| && b != k && |after| == |orders|
    requires forall j :: 0 <= j < |orders| && j != b && j != k ==> after[j] == orders[j]
    ensures FeesCharged(after, asset)
         == FeesCharged(orders, asset) - OrderFees(orders[b], asset) - OrderFees(orders[k], asset)
            + OrderFees(after[b], asset) + OrderFees(after[k], asset)
  {
    assert after == orders[b := after[b]][k := after[k]];
    ChargedUpdate(orders, b, after[b], asset);
    ChargedUpdate(orders[b := after[b]], k, after[k], asset);
  }

  lemma EndedFees(after: Order, before: Order, asset: string)
    requires after == before || S.Ended(after, before)
    ensures OrderFees(after, asset) == OrderFees(before, asset)
  {
  }

  lemma SettleEarns(s: Exchange, fillId: string, b: nat, k: nat, terms: FillTerms, asset: string)
    ensures var after := S.SettleFill(s, fillId, b, k, terms);
      BroughtOver(after.history, asset, HouseTradingFees) - FeesCharged(after.orders, asset)
        == BroughtOver(s.history, asset, HouseTradingFees) - FeesCharged(s.orders, asset)
  {
    hide S.Disposed, Commits, S.Settles, AmountsOf, S.Filled, BroughtOver, FeesCharged, OrderFees, Order.Remaining;
    var after := S.SettleFill(s, fillId, b, k, terms);
    if after != s {
      var buy, sell := s.orders[b], s.orders[k];
      var ps := DisposedPosts(s, fillId, b, k, terms);
      assert ps == [ps[0]] + ps[1..];
      TradeEarns(s.history, ps[0], ps[1..], asset);
      S.DisposedOrders(s, fillId, b, k, terms);
      EndedFees(after.orders[b], S.Filled(buy, terms), asset);
      EndedFees(after.orders[k], S.Filled(sell, terms), asset);
      FilledFees(buy, terms, asset);
      FilledFees(sell, terms, asset);
      ChargedTwice(s.orders, after.orders, b, k, asset);
    }
  }

  lemma CloseEarns(s: Exchange, i: nat, asset: string)
    requires i < |s.orders|
    ensures FeesCharged(S.Close(s, i).orders, asset) == FeesCharged(s.orders, asset)
  {
    hide Order.Residue, FeesCharged;
    ChargedUpdate(s.orders, i, S.Close(s, i).orders[i], asset);
  }

  lemma OthersCharge(s: Exchange, a: S.Action, asset: string)
    requires !a.Settle?
    ensures FeesCharged(S.Step(s, a).orders, asset) == FeesCharged(s.orders, asset)
  {
    hide S.Close, Commits, Owes, FeesCharged, ComputeHold;
    match a
    case Submit(id, user, request, market, reference) =>
      if ComputeHold(request, market, reference).Success? {
        ChargedPush(s.orders, S.NewOrder(id, user, request, market, reference), asset);
      }
    case Finish(i) => if i < |s.orders| { CloseEarns(s, i, asset); }
    case _ =>
  }

  lemma {:induction false} StepEarns(s: Exchange, a: S.Action, asset: string)
    ensures BroughtOver(S.Step(s, a).history, asset, HouseTradingFees) - FeesCharged(S.Step(s, a).orders, asset)
         == BroughtOver(s.history, asset, HouseTradingFees) - FeesCharged(s.orders, asset)
  {
    hide S.Step, BroughtOver, FeesCharged;
    if a.Settle? {
      SettleEarns(s, a.fillId, a.buy, a.sell, a.terms, asset);
      assert S.Step(s, a) == S.SettleFill(s, a.fillId, a.buy, a.sell, a.terms) by { SettleIs(s, a); }
    } else {
      OthersCharge(s, a, asset);
      if a.Record? && OfWithdrawal(a.p) {
        EarnsNothing(s.history, [a.p], asset);
        RecordIs(s, a);
      } else {
        var ps := StepPosts(s, a);
        EarnsNothing(s.history, ps, asset);
      }
    }
  }

  lemma SettleIs(s: Exchange, a: S.Action)
    requires a.Settle?
    ensures S.Step(s, a) == S.SettleFill(s, a.fillId, a.buy, a.sell, a.terms)
  {
  }

  lemma RecordIs(s: Exchange, a: S.Action)
    requires a.Record?
    ensures S.Step(s, a).history == s.history || S.Step(s, a).history == s.history + [a.p]
  {
  }

  /** Over every run, what the house has earned in an asset is exactly the fees of every fill that settled, the
      buyer's and the seller's, each at its own rate and rounded on its own. */
  lemma {:induction false} HouseEarnsEveryFee(actions: seq<S.Action>, asset: string)
    ensures var s := S.Run(S.NOTHING, actions);
      Held(LedgerOf(s.history), asset, HouseTradingFees) == FeesCharged(s.orders, asset)
  {
    var s := S.Run(S.NOTHING, actions);
    HeldIsBrought(s.history, asset, HouseTradingFees);
    RunEarns(actions, asset);
    hide *;
  }

  lemma {:induction false} RunEarns(actions: seq<S.Action>, asset: string)
    ensures var s := S.Run(S.NOTHING, actions);
      BroughtOver(s.history, asset, HouseTradingFees) == FeesCharged(s.orders, asset)
  {
    hide S.Step;
    if actions == [] {
    } else {
      RunEarns(actions[..|actions| - 1], asset);
      StepEarns(S.Run(S.NOTHING, actions[..|actions| - 1]), actions[|actions| - 1], asset);
    }
  }
}
