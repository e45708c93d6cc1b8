/** What each step of settlement does, account by account: money goes where it should, and nowhere else. */
module SettlementEffects {
  import opened MatchingTypes
  import opened Orders
  import opened Ledger
  import opened LedgerHistory
  import opened Settlement
  import opened CustodyRuns
  import S = SettlementRuns

  /** What a user has in the trading tier outside pending deallocations: spendable, and reserved by orders. */
  ghost function Trading(history: seq<Posting>, user: string, asset: string): int {
    Owes(history, user, asset, UserTradingAvailable) + Owes(history, user, asset, UserOrderLocked)
  }

  /** What a fill is worth to a user: the buyer gains the quantity and pays value and fee, the seller gains the value
      less its fee and gives up the quantity. */
  function Gain(buyer: string, seller: string, base: string, quote: string, qty: int, a: FillAmounts, user: string,
                asset: string): int {
    (if user == buyer && asset == base then qty else 0)
    - (if user == buyer && asset == quote then a.notional + a.buyerFee else 0)
    + (if user == seller && asset == quote then a.notional - a.sellerFee else 0)
    - (if user == seller && asset == base then qty else 0)
  }

  lemma {:induction false} ReleasesChangeNothing(history: seq<Posting>, ps: seq<Posting>, user: string, asset: string)
    requires OnlyReleases(ps)
    ensures Trading(history + ps, user, asset) == Trading(history, user, asset)
  {
    hide Owes, Commits;
    if ps == [] {
      assert history + ps == history;
    } else {
      var most, p := ps[..|ps| - 1], ps[|ps| - 1];
      assert p in ps && history + ps == (history + most) + [p];
      ReleasesChangeNothing(history, most, user, asset);
      ReleaseChangesNothing(history + most, p, user, asset);
    }
  }

  lemma ReleaseChangesNothing(history: seq<Posting>, p: Posting, user: string, asset: string)
    requires p.OrderRelease?
    ensures Trading(history + [p], user, asset) == Trading(history, user, asset)
  {
    if Commits(p) {
      PostCredits(history, p, user, asset, UserTradingAvailable);
      PostCredits(history, p, user, asset, UserOrderLocked);
      hide Owes, Commits;
    } else {
      assert (history + [p])[..|history + [p]| - 1] == history;
      assert LedgerOf(history) + [] == LedgerOf(history);
    }
  }

  lemma TradeGains(history: seq<Posting>, fillId: string, buy: Order, sell: Order, terms: FillTerms, user: string,
                   asset: string)
    requires AmountsOf(terms).Success? && Commits(S.TradeOf(fillId, buy, sell, terms))
    ensures Trading(history + [S.TradeOf(fillId, buy, sell, terms)], user, asset)
         == Trading(history, user, asset)
            + Gain(buy.user, sell.user, buy.base, buy.quote, terms.qty, AmountsOf(terms).value, user, asset)
  {
    hide Owes, Commits, AmountsOf;
    var p := S.TradeOf(fillId, buy, sell, terms);
    PostCredits(history, p, user, asset, UserTradingAvailable);
    PostCredits(history, p, user, asset, UserOrderLocked);
  }

  /** A fill that goes through moves exactly its price and quantity, with each side's fee, between its two users, and
      changes what no one else has. One that does not go through changes nothing. */
  lemma {:induction false} SettleMovesMoney(s: Exchange, fillId: string, b: nat, k: nat, terms: FillTerms, user: string,
                                            asset: string)
    ensures var after := S.SettleFill(s, fillId, b, k, terms);
      if !S.Settleable(s, b, k, terms) || !Commits(S.TradeOf(fillId, s.orders[b], s.orders[k], terms))
         || !S.Settles(s, fillId, b, k, terms)
      then after == s
      else Trading(after.history, user, asset)
           == Trading(s.history, user, asset)
              + Gain(s.orders[b].user, s.orders[k].user, s.orders[b].base, s.orders[b].quote, terms.qty,
                     AmountsOf(terms).value, user, asset)
  {
    hide S.Disposed, Commits, S.Settles, S.TradeOf, Trading, Gain;
    if S.Settleable(s, b, k, terms) && Commits(S.TradeOf(fillId, s.orders[b], s.orders[k], terms))
       && S.Settles(s, fillId, b, k, terms) {
      var ps := DisposedPosts(s, fillId, b, k, terms);
      TradeGains(s.history, fillId, s.orders[b], s.orders[k], terms, user, asset);
      assert s.history + ps == (s.history + [ps[0]]) + ps[1..];
      ReleasesChangeNothing(s.history + [ps[0]], ps[1..], user, asset);
    }
  }

  /** An order is recorded exactly when its hold can be computed and posted and the spendable balance covers it; then
      the hold leaves what can be spent and joins what orders reserve. Otherwise nothing happens. */
  lemma {:induction false} SubmitMovesHold(s: Exchange, id: string, user: string, request: OrderRequest, market: Market,
                                           reference: Option<nat>)
    ensures var after, hold := S.SubmitOrder(s, id, user, request, market, reference),
                               ComputeHold(request, market, reference);
      if hold.Failure? || !Commits(OrderHold(id, user, hold.value.asset, hold.value.amount))
         || Owes(s.history, user, hold.value.asset, UserTradingAvailable) < hold.value.amount
      then after == s
      else && |after.orders| == |s.orders| + 1 && after.orders[..|s.orders|] == s.orders
           && Owes(after.history, user, hold.value.asset, UserTradingAvailable)
              == Owes(s.history, user, hold.value.asset, UserTradingAvailable) - hold.value.amount
           && Owes(after.history, user, hold.value.asset, UserOrderLocked)
              == Owes(s.history, user, hold.value.asset, UserOrderLocked) + hold.value.amount
  {
    hide Owes, Commits, ComputeHold, S.NewOrder;
    var hold := ComputeHold(request, market, reference);
    if hold.Success? && Commits(OrderHold(id, user, hold.value.asset, hold.value.amount)) {
      var p := OrderHold(id, user, hold.value.asset, hold.value.amount);
      PostCredits(s.history, p, user, hold.value.asset, UserTradingAvailable);
      PostCredits(s.history, p, user, hold.value.asset, UserOrderLocked);
    }
  }

  /** Finishing a live order gives back exactly what it still reserved. */
  lemma {:induction false} FinishReturnsResidue(s: Exchange, i: nat)
    requires Inv(s) && i < |s.orders| && s.orders[i].live
    ensures var o, after := s.orders[i], S.Step(s, S.Finish(i));
      && !after.orders[i].live && after.orders[i].released == o.Residue()
      && Owes(after.history, o.user, o.HoldAsset(), UserTradingAvailable)
         == Owes(s.history, o.user, o.HoldAsset(), UserTradingAvailable) + o.Residue()
      && Owes(after.history, o.user, o.HoldAsset(), UserOrderLocked)
         == Owes(s.history, o.user, o.HoldAsset(), UserOrderLocked) - o.Residue()
  {
    hide Owes, Commits, Order.HoldAsset, Order.Residue, AllSquare;
    var o := s.orders[i];
    assert o in s.orders;
    ResidueIsLeft(o);
    S.HoldIsQualified(o);
    if o.Residue() > 0 {
      var p := OrderRelease(o.id, o.user, o.HoldAsset(), o.Residue());
      S.QualifiedCommits(p);
      PostCredits(s.history, p, o.user, o.HoldAsset(), UserTradingAvailable);
      PostCredits(s.history, p, o.user, o.HoldAsset(), UserOrderLocked);
    }
  }

  /** A deallocation locks exactly when the spendable trading balance covers it. */
  lemma {:induction false} LockFundsMoves(s: Exchange, id: string, user: string, asset: string, n: nat)
    ensures var after, p := S.Step(s, S.LockFunds(id, user, asset, n)), TradingLock(id, user, asset, n);
      if !Commits(p) || Owes(s.history, user, asset, UserTradingAvailable) < n then after == s
      else && |after.locks| == |s.locks| + 1
           && Owes(after.history, user, asset, UserTradingAvailable)
              == Owes(s.history, user, asset, UserTradingAvailable) - n
           && Owes(after.history, user, asset, UserTradingLocked)
              == Owes(s.history, user, asset, UserTradingLocked) + n
  {
    hide Owes, Commits;
    var p := TradingLock(id, user, asset, n);
    if Commits(p) {
      PostCredits(s.history, p, user, asset, UserTradingAvailable);
      PostCredits(s.history, p, user, asset, UserTradingLocked);
    }
  }

  /** And ends once: returned to the spendable trading balance, or paid into custody. */
  lemma {:induction false} DeallocationEnds(s: Exchange, i: nat, fee: Option<int>, feeAsset: Option<string>)
    requires Inv(s) && i < |s.locks| && s.locks[i].pending
    requires var l := s.locks[i]; Commits(Deallocation(l.id, l.user, l.asset, l.amount, fee, feeAsset))
    ensures var l, back, paid := s.locks[i], S.Step(s, S.ReturnFunds(i)), S.Step(s, S.Deallocate(i, fee, feeAsset));
      && !back.locks[i].pending && !paid.locks[i].pending
      && Owes(back.history, l.user, l.asset, UserTradingLocked)
         == Owes(paid.history, l.user, l.asset, UserTradingLocked)
         == Owes(s.history, l.user, l.asset, UserTradingLocked) - l.amount
      && Owes(back.history, l.user, l.asset, UserTradingAvailable)
         == Owes(s.history, l.user, l.asset, UserTradingAvailable) + l.amount
      && Owes(paid.history, l.user, l.asset, UserCustodyAvailable)
         == Owes(s.history, l.user, l.asset, UserCustodyAvailable) + l.amount
  {
    hide Owes, Commits, AllSquare;
    var l := s.locks[i];
    S.LockIsQualified(s, i);
    var p, q := TradingRelease(l.id, l.user, l.asset, l.amount),
      Deallocation(l.id, l.user, l.asset, l.amount, fee, feeAsset);
    S.QualifiedCommits(p);
    PostCredits(s.history, p, l.user, l.asset, UserTradingLocked);
    PostCredits(s.history, p, l.user, l.asset, UserTradingAvailable);
    PostCredits(s.history, q, l.user, l.asset, UserTradingLocked);
    PostCredits(s.history, q, l.user, l.asset, UserCustodyAvailable);
  }
}
