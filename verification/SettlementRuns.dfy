/** Every run of orders, fills, cancellations and transfers keeps the trading tier square. */
module SettlementRuns {
  import opened MatchingTypes
  import opened Orders
  import opened Ledger
  import opened LedgerHistory
  import opened Settlement

  /** One serializable transaction of the gateway, the settlement worker or the transfer workers. A
      fill names its two orders by their place in order of arrival. */
  datatype Action =
    | Record(p: Posting)
    | Submit(id: string, user: string, request: OrderRequest, market: Market, reference: Option<nat>)
    | Settle(fillId: string, buy: nat, sell: nat, terms: FillTerms)
    | Finish(order: nat)
    | LockFunds(id: string, user: string, asset: string, amount: nat)
    | ReturnFunds(lock: nat)
    | Deallocate(lock: nat, networkFee: Option<int>, feeAsset: Option<string>)

  /** Postings that belong to no order and no pending deallocation. */
  predicate Untracked(p: Posting) {
    !p.OrderHold? && !p.OrderRelease? && !p.TradingLock? && !p.TradingRelease? && !p.Deallocation?
      && !p.TradeSettlement?
  }

  /** Post `p` if the builder accepts it. */
  ghost function Posted(s: Exchange, p: Posting): Exchange { s.(history := s.history + [p]) }

  // ------------------------------------------------------------------ placing and finishing an order

  function NewOrder(id: string, user: string, request: OrderRequest, market: Market, reference: Option<nat>): Order
    requires ComputeHold(request, market, reference).Success?
  {
    Order(id, user, request.side, market.baseAsset, market.quoteAsset,
          if request.side == Buy then ReservePrice(request, market, reference).value else 0,
          request.qty, ComputeHold(request, market, reference).value.amount, [], true, 0)
  }

  /** The balance is read in the transaction that posts the hold, and the order is refused if it cannot cover it. */
  ghost function SubmitOrder(s: Exchange, id: string, user: string, request: OrderRequest, market: Market,
                             reference: Option<nat>): Exchange {
    var hold := ComputeHold(request, market, reference);
    if hold.Failure? then s
    else
      var p := OrderHold(id, user, hold.value.asset, hold.value.amount);
      if Owes(s.history, user, hold.value.asset, UserTradingAvailable) < hold.value.amount || !Commits(p) then s
      else Posted(s, p).(orders := s.orders + [NewOrder(id, user, request, market, reference)])
  }

  /** A finished order releases what is left of its hold; a fully consumed hold has nothing to return. */
  ghost function Close(s: Exchange, i: nat): Exchange
    requires i < |s.orders|
  {
    var o := s.orders[i];
    var left := if o.Residue() >= 0 then o.Residue() else 0;
    var closed := s.(orders := s.orders[i := o.(live := false, released := left)]);
    if o.Residue() <= 0 then closed
    else Posted(closed, OrderRelease(o.id, o.user, o.HoldAsset(), o.Residue()))
  }

  // ------------------------------------------------------------------ settling a fill

  /** What settlement checks of a fill before it posts it: two known open orders of one market, on opposite
      sides, with that much left, and amounts that can be computed. Rates come from the fee schedule. */
  ghost predicate Settleable(s: Exchange, b: nat, k: nat, terms: FillTerms) {
    && b < |s.orders| && k < |s.orders|
    && var buy := s.orders[b];
       var sell := s.orders[k];
       && buy.side == Buy && sell.side == Sell && buy.live && sell.live
       && buy.base == sell.base && buy.quote == sell.quote
       && terms.qty <= buy.Remaining() && terms.qty <= sell.Remaining()
       && terms.takerBps <= WORST_CASE_TAKER_BPS && terms.makerBps <= WORST_CASE_TAKER_BPS
       && AmountsOf(terms).Success?
  }

  /** What the engine owes settlement for a fill: all of that, at a price the buy reserved for. */
  ghost predicate Matched(s: Exchange, b: nat, k: nat, terms: FillTerms) {
    Settleable(s, b, k, terms) && terms.price <= s.orders[b].reserve
  }

  function TradeOf(fillId: string, buy: Order, sell: Order, terms: FillTerms): Posting
    requires AmountsOf(terms).Success?
  {
    var a := AmountsOf(terms).value;
    TradeSettlement(fillId, buy.user, sell.user, buy.base, buy.quote, terms.qty, a.notional, a.buyerFee, a.sellerFee)
  }

  function Filled(o: Order, terms: FillTerms): Order
    requires AmountsOf(terms).Success?
  {
    var a := AmountsOf(terms).value;
    o.(fills := o.fills + [Charge(terms.price, terms.qty, if o.side == Buy then a.buyerBps else a.sellerBps)])
  }

  ghost function Traded(s: Exchange, fillId: string, b: nat, k: nat, terms: FillTerms): Exchange
    requires Settleable(s, b, k, terms)
  {
    var buy, sell := s.orders[b], s.orders[k];
    Posted(s, TradeOf(fillId, buy, sell, terms)).(orders := s.orders[b := Filled(buy, terms)][k := Filled(sell, terms)])
  }

  ghost function CloseIfDone(s: Exchange, i: nat): Exchange
    requires i < |s.orders|
  {
    if s.orders[i].live && s.orders[i].Remaining() == 0 then Close(s, i) else s
  }

  /** A live order holds something; a finished one holds nothing. */
  ghost predicate Agrees(s: Exchange, i: nat)
    requires i < |s.orders|
  {
    s.orders[i].live ==> s.orders[i].Residue() > 0
  }

  /** Neither hold is consumed beyond what it holds. */
  ghost predicate Covered(s: Exchange, b: nat, k: nat, terms: FillTerms)
    requires Settleable(s, b, k, terms)
  {
    Filled(s.orders[b], terms).Residue() >= 0 && Filled(s.orders[k], terms).Residue() >= 0
  }

  /** One fill, one transaction: consume both holds, record the quantity, finish what is complete. If a hold is
      over-consumed, or the status and the hold then disagree, the whole transaction is abandoned. */
  ghost function SettleFill(s: Exchange, fillId: string, b: nat, k: nat, terms: FillTerms): Exchange {
    if !Settleable(s, b, k, terms) || !Commits(TradeOf(fillId, s.orders[b], s.orders[k], terms)) then s
    else if Settles(s, fillId, b, k, terms) then Disposed(s, fillId, b, k, terms)
    else s
  }

  /** The fill goes through: no hold is over-consumed, and afterwards what each order holds agrees with its status. */
  ghost predicate Settles(s: Exchange, fillId: string, b: nat, k: nat, terms: FillTerms)
    requires Settleable(s, b, k, terms)
  {
    Covered(s, b, k, terms) && var after := Disposed(s, fillId, b, k, terms); Agrees(after, b) && Agrees(after, k)
  }

  /** The taker is disposed of before the maker. */
  ghost function Disposed(s: Exchange, fillId: string, b: nat, k: nat, terms: FillTerms): Exchange
    requires Settleable(s, b, k, terms)
  {
    var first, second := if terms.takerSide == Buy then b else k, if terms.takerSide == Buy then k else b;
    CloseIfDone(CloseIfDone(Traded(s, fillId, b, k, terms), first), second)
  }

  /** A deallocation locks its funds first, on the same read-and-refuse terms as a hold. */
  ghost function Reserve(s: Exchange, id: string, user: string, asset: string, n: nat): Exchange {
    var p := TradingLock(id, user, asset, n);
    if Owes(s.history, user, asset, UserTradingAvailable) < n || !Commits(p) then s
    else Posted(s, p).(locks := s.locks + [Lock(id, user, asset, n, true)])
  }

  // ------------------------------------------------------------------ one step

  ghost function Step(s: Exchange, a: Action): Exchange {
    match a
    case Record(p) => if Untracked(p) && Commits(p) then Posted(s, p) else s
    case Submit(id, user, request, market, reference) => SubmitOrder(s, id, user, request, market, reference)
    case Settle(fillId, b, k, terms) => SettleFill(s, fillId, b, k, terms)
    case Finish(i) => if i < |s.orders| && s.orders[i].live then Close(s, i) else s
    case LockFunds(id, user, asset, n) => Reserve(s, id, user, asset, n)
    case ReturnFunds(i) =>
      if i >= |s.locks| || !s.locks[i].pending then s
      else
        var l := s.locks[i];
        Posted(s, TradingRelease(l.id, l.user, l.asset, l.amount)).(locks := s.locks[i := l.(pending := false)])
    case Deallocate(i, fee, feeAsset) =>
      if i >= |s.locks| || !s.locks[i].pending then s
      else
        var l := s.locks[i];
        var p := Deallocation(l.id, l.user, l.asset, l.amount, fee, feeAsset);
        if !Commits(p) then s else Posted(s, p).(locks := s.locks[i := l.(pending := false)])
  }

  ghost function Run(s: Exchange, actions: seq<Action>): Exchange {
    if actions == [] then s else Step(Run(s, actions[..|actions| - 1]), actions[|actions| - 1])
  }

  const NOTHING := Exchange([], [], [])

  // ------------------------------------------------------------------ each step keeps the invariant

  /** A posting changes the three trading accounts of each user by what it credits. */
  lemma PostAll(s: Exchange, p: Posting, user: string, asset: string)
    requires Commits(p)
    ensures forall kind :: kind in TRADING ==>
      Owes(Posted(s, p).history, user, asset, kind) == Owes(s.history, user, asset, kind)
        + Credited(p, user, asset, kind)
  {
    forall kind | kind in TRADING
      ensures Owes(s.history + [p], user, asset, kind) == Owes(s.history, user, asset, kind)
        + Credited(p, user, asset, kind)
    {
      PostCredits(s.history, p, user, asset, kind);
    }
  }

  lemma RecordKeeps(s: Exchange, p: Posting)
    requires Inv(s) && Untracked(p) && Commits(p)
    ensures Inv(Posted(s, p))
  {
    hide Owes, OrderOk, HeldBy, LockedBy;
    forall user, asset
      ensures Squares(Posted(s, p), user, asset)
    {
      assert Squares(s, user, asset);
      PostAll(s, p, user, asset);
      assert p.amount > 0;
    }
  }

  lemma {:induction false} SubmitKeeps(s: Exchange, id: string, user: string, request: OrderRequest, market: Market,
                                       reference: Option<nat>)
    requires Inv(s)
    ensures Inv(SubmitOrder(s, id, user, request, market, reference))
  {
    hide Owes, OrderOk, HeldBy, LockedBy, ComputeHold, NewOrder, Commits, Squares, Order.HoldAsset, Order.Residue;
    var after := SubmitOrder(s, id, user, request, market, reference);
    if after != s {
      var hold := ComputeHold(request, market, reference).value;
      var p, o := OrderHold(id, user, hold.asset, hold.amount), NewOrder(id, user, request, market, reference);
      NewOrderOk(id, user, request, market, reference);
      forall u, x
        ensures Squares(after, u, x)
      {
        assert Squares(s, u, x);
        HoldSquares(s, o, p, u, x);
      }
    }
  }

  lemma HoldSquares(s: Exchange, o: Order, p: Posting, u: string, x: string)
    requires Commits(p) && p.OrderHold? && p.user == o.user && p.asset == o.HoldAsset() && p.amount == o.Residue()
    requires Owes(s.history, p.user, p.asset, UserTradingAvailable) >= p.amount && Squares(s, u, x)
    ensures Squares(Posted(s, p).(orders := s.orders + [o]), u, x)
  {
    hide Owes, LockedBy, Commits, Order.HoldAsset, Order.Residue;
    PostAll(s, p, u, x);
    var more := s.orders + [o];
    assert more[..|more| - 1] == s.orders;
  }

  lemma NewOrderOk(id: string, user: string, request: OrderRequest, market: Market, reference: Option<nat>)
    requires ComputeHold(request, market, reference).Success?
    requires var hold := ComputeHold(request, market, reference).value;
      Commits(OrderHold(id, user, hold.asset, hold.amount))
    ensures var o := NewOrder(id, user, request, market, reference);
      var hold := ComputeHold(request, market, reference).value;
      OrderOk(o) && o.live && o.user == user && o.HoldAsset() == hold.asset && o.Residue() == hold.amount
  {
    var hold := ComputeHold(request, market, reference).value;
    CommittedIsQualified(OrderHold(id, user, hold.asset, hold.amount));
    hide Commits, Value, FeeAmount;
  }

  /** A committed posting's asset is qualified by a cluster. */
  lemma CommittedIsQualified(p: Posting)
    requires Commits(p) && (p.OrderHold? || p.TradingLock?)
    ensures ClusterOf(p.asset).Some? && p.amount > 0
  {
    NonZeroMembers(Proposed(p));
    assert Proposed(p)[0] in Legs(p) && Proposed(p)[0].asset == p.asset;
    hide ClusterOf;
  }

  lemma QualifiedCommits(p: Posting)
    requires (p.OrderRelease? || p.TradingRelease?) && p.amount > 0 && ClusterOf(p.asset).Some?
    ensures Commits(p)
  {
    NonZeroMembers(Proposed(p));
    assert forall e :: e in Legs(p) ==> e.asset == p.asset;
    assert ClusterOf(p.asset).value in CLUSTERS;
    hide ClusterOf, Legs;
  }

  lemma {:induction false} CloseKeeps(s: Exchange, i: nat)
    requires Inv(s) && i < |s.orders| && s.orders[i].live
    ensures Inv(Close(s, i)) && |Close(s, i).orders| == |s.orders| && !Close(s, i).orders[i].live
  {
    hide Owes, OrderOk, HeldBy, LockedBy, Commits, Squares, Order.HoldAsset, Order.Consumed;
    var o, after := s.orders[i], Close(s, i);
    assert o in s.orders;
    ResidueIsLeft(o);
    HoldIsQualified(o);
    ClosedOk(o);
    var o' := after.orders[i];
    forall u, x
      ensures Squares(after, u, x)
    {
      assert Squares(s, u, x);
      ReleaseSquares(s, i, o', u, x);
    }
  }

  lemma HoldIsQualified(o: Order)
    requires OrderOk(o)
    ensures ClusterOf(o.HoldAsset()).Some?
  {
  }

  lemma ClosedHoldsNothing(o: Order, o': Order)
    requires o' == o.(live := false, released := o'.released)
    ensures o'.Residue() == 0 && o'.HoldAsset() == o.HoldAsset() && o'.user == o.user
  {
  }

  lemma ReleaseSquares(s: Exchange, i: nat, o': Order, u: string, x: string)
    requires i < |s.orders| && s.orders[i].Residue() >= 0 && ClusterOf(s.orders[i].HoldAsset()).Some?
      && Squares(s, u, x)
    requires o' == s.orders[i].(live := false, released := s.orders[i].Residue())
    ensures Squares(Close(s, i), u, x)
  {
    hide Owes, HeldBy, LockedBy, Commits, Order.HoldAsset, Order.Residue, ClusterOf;
    var o := s.orders[i];
    ClosedHoldsNothing(o, o');
    HeldUpdate(s.orders, i, o', u, x);
    if o.Residue() > 0 {
      var p := OrderRelease(o.id, o.user, o.HoldAsset(), o.Residue());
      QualifiedCommits(p);
      PostAll(s, p, u, x);
    }
  }

  lemma ClosedOk(o: Order)
    requires OrderOk(o) && o.live && o.Residue() >= 0
    ensures OrderOk(o.(live := false, released := o.Residue()))
  {
  }

  lemma {:induction false} TradedKeeps(s: Exchange, fillId: string, b: nat, k: nat, terms: FillTerms)
    requires Inv(s) && Settleable(s, b, k, terms) && Commits(TradeOf(fillId, s.orders[b], s.orders[k], terms))
    requires Covered(s, b, k, terms)
    ensures Inv(Traded(s, fillId, b, k, terms))
  {
    hide Owes, OrderOk, HeldBy, LockedBy, Commits, Filled, AmountsOf, Squares, Order.HoldAsset, Order.Residue,
      Order.Remaining;
    var buy, sell, after := s.orders[b], s.orders[k], Traded(s, fillId, b, k, terms);
    assert buy in s.orders && sell in s.orders;
    var buy', sell', p := Filled(buy, terms), Filled(sell, terms), TradeOf(fillId, buy, sell, terms);
    FilledOk(buy, terms);
    FilledOk(sell, terms);
    FilledBuy(buy, terms);
    FilledSell(sell, terms);
    BuyerPaysItsCost(terms);
    forall u, x
      ensures Squares(after, u, x)
    {
      assert Squares(s, u, x);
      TradeSquares(s, b, k, buy', sell', p, u, x);
    }
  }

  lemma TradeSquares(s: Exchange, b: nat, k: nat, buy': Order, sell': Order, p: Posting, u: string, x: string)
    requires b < |s.orders| && k < |s.orders| && b != k && Commits(p) && p.TradeSettlement? && p.sellerFee <= p.notional
    requires var buy, sell := s.orders[b], s.orders[k];
      && p.buyer == buy.user == buy'.user && p.seller == sell.user == sell'.user
      && p.quote == buy.HoldAsset() == buy'.HoldAsset() && p.asset == sell.HoldAsset() == sell'.HoldAsset()
      && buy'.Residue() == buy.Residue() - (p.notional + p.buyerFee) && sell'.Residue() == sell.Residue() - p.amount
    requires Squares(s, u, x) && p.amount >= 0
    ensures Squares(Posted(s, p).(orders := s.orders[b := buy'][k := sell']), u, x)
  {
    hide Owes, HeldBy, LockedBy, Commits, Order.HoldAsset, Order.Residue;
    HeldUpdate(s.orders, b, buy', u, x);
    HeldUpdate(s.orders[b := buy'], k, sell', u, x);
    PostAll(s, p, u, x);
  }

  lemma TakePush(fills: seq<Charge>, c: Charge)
    ensures TotalQty(fills + [c]) == TotalQty(fills) + c.qty && TotalCost(fills + [c]) == TotalCost(fills) + Cost(c)
  {
    var more := fills + [c];
    assert more[..|more| - 1] == fills && more[|more| - 1] == c;
  }

  lemma FilledOk(o: Order, terms: FillTerms)
    requires OrderOk(o) && o.live && AmountsOf(terms).Success? && terms.qty <= o.Remaining()
    requires Filled(o, terms).Residue() >= 0
    ensures OrderOk(Filled(o, terms))
  {
    hide Cost, Value, FeeAmount, BuyReserve, TotalCost, TotalQty, ClusterOf;
    var a := AmountsOf(terms).value;
    TakePush(o.fills, Charge(terms.price, terms.qty, if o.side == Buy then a.buyerBps else a.sellerBps));
  }

  lemma FilledBuy(o: Order, terms: FillTerms)
    requires o.side == Buy && o.live && AmountsOf(terms).Success?
    ensures var o', a := Filled(o, terms), AmountsOf(terms).value;
      o'.live && o'.Residue() == o.Residue() - (a.notional + a.buyerFee) && o'.user == o.user
        && o'.HoldAsset() == o.HoldAsset() == o.quote
  {
    TakePush(o.fills, Charge(terms.price, terms.qty, AmountsOf(terms).value.buyerBps));
    BuyerPaysItsCost(terms);
  }

  lemma FilledSell(o: Order, terms: FillTerms)
    requires o.side == Sell && o.live && AmountsOf(terms).Success?
    ensures var o' := Filled(o, terms);
      o'.live && o'.side == Sell && o'.Residue() == o.Residue() - terms.qty && o'.user == o.user
        && o'.HoldAsset() == o.HoldAsset() == o.base
  {
    TakePush(o.fills, Charge(terms.price, terms.qty, AmountsOf(terms).value.sellerBps));
  }

  lemma CloseIfDoneKeeps(s: Exchange, i: nat)
    requires Inv(s) && i < |s.orders|
    ensures Inv(CloseIfDone(s, i)) && |CloseIfDone(s, i).orders| == |s.orders|
  {
    hide Inv, Close;
    if s.orders[i].live && s.orders[i].Remaining() == 0 { CloseKeeps(s, i); }
  }

  lemma SettleKeeps(s: Exchange, fillId: string, b: nat, k: nat, terms: FillTerms)
    requires Inv(s)
    ensures Inv(SettleFill(s, fillId, b, k, terms))
  {
    hide Inv, CloseIfDone, Commits, TradeOf, Agrees;
    if && Settleable(s, b, k, terms) && Commits(TradeOf(fillId, s.orders[b], s.orders[k], terms))
       && Covered(s, b, k, terms) {
      var first, second := if terms.takerSide == Buy then b else k, if terms.takerSide == Buy then k else b;
      var t := Traded(s, fillId, b, k, terms);
      TradedKeeps(s, fillId, b, k, terms);
      CloseIfDoneKeeps(t, first);
      CloseIfDoneKeeps(CloseIfDone(t, first), second);
    }
  }

  lemma LockKeeps(s: Exchange, id: string, user: string, asset: string, n: nat)
    requires Inv(s)
    ensures Inv(Reserve(s, id, user, asset, n))
  {
    hide Owes, OrderOk, HeldBy, Commits, ClusterOf;
    var after, p := Reserve(s, id, user, asset, n), TradingLock(id, user, asset, n);
    if after != s {
      CommittedIsQualified(p);
      forall u, x
        ensures Squares(after, u, x)
      {
        assert Squares(s, u, x);
        PostAll(s, p, u, x);
        assert after.locks[..|after.locks| - 1] == s.locks;
      }
    }
  }

  lemma UnlockCredits(p: Posting, user: string, asset: string)
    requires (p.TradingRelease? || p.Deallocation?) && p.amount >= 0
    ensures var mine := p.user == user && p.asset == asset;
      && Credited(p, user, asset, UserTradingLocked) == (if mine then -p.amount else 0)
      && Credited(p, user, asset, UserTradingAvailable) >= 0
      && Credited(p, user, asset, UserOrderLocked) == 0
  {
  }

  lemma {:induction false} UnlockKeeps(s: Exchange, i: nat, p: Posting)
    requires Inv(s) && i < |s.locks| && s.locks[i].pending && Commits(p)
    requires var l := s.locks[i];
      p == TradingRelease(l.id, l.user, l.asset, l.amount)
      || (p.Deallocation? && p.user == l.user && p.asset == l.asset && p.amount == l.amount)
    ensures Inv(Posted(s, p).(locks := s.locks[i := s.locks[i].(pending := false)]))
  {
    hide Owes, OrderOk, HeldBy, LockedBy, Commits, Credited;
    var l := s.locks[i];
    var l' := l.(pending := false);
    var after := Posted(s, p).(locks := s.locks[i := l']);
    assert l in s.locks;
    forall u, x
      ensures Squares(after, u, x)
    {
      assert Squares(s, u, x);
      LockedUpdate(s.locks, i, l', u, x);
      PostAll(s, p, u, x);
      UnlockCredits(p, u, x);
    }
  }

  lemma {:induction false} StepKeeps(s: Exchange, a: Action)
    requires Inv(s)
    ensures Inv(Step(s, a))
  {
    hide Inv, SubmitOrder, SettleFill, Close, Reserve, Commits, Owes;
    match a
    case Record(p) => if Untracked(p) && Commits(p) { RecordKeeps(s, p); }
    case Submit(id, user, request, market, reference) => SubmitKeeps(s, id, user, request, market, reference);
    case Settle(fillId, b, k, terms) => SettleKeeps(s, fillId, b, k, terms);
    case Finish(i) => if i < |s.orders| && s.orders[i].live { CloseKeeps(s, i); }
    case LockFunds(id, user, asset, n) => LockKeeps(s, id, user, asset, n);
    case ReturnFunds(i) =>
      if i < |s.locks| && s.locks[i].pending {
        var l := s.locks[i];
        LockIsQualified(s, i);
        QualifiedCommits(TradingRelease(l.id, l.user, l.asset, l.amount));
        UnlockKeeps(s, i, TradingRelease(l.id, l.user, l.asset, l.amount));
      }
    case Deallocate(i, fee, feeAsset) =>
      if i < |s.locks| && s.locks[i].pending {
        var l := s.locks[i];
        var p := Deallocation(l.id, l.user, l.asset, l.amount, fee, feeAsset);
        if Commits(p) { UnlockKeeps(s, i, p); }
      }
  }

  lemma LockIsQualified(s: Exchange, i: nat)
    requires Inv(s) && i < |s.locks|
    ensures s.locks[i].amount > 0 && ClusterOf(s.locks[i].asset).Some?
  {
    assert s.locks[i] in s.locks;
  }

  // ------------------------------------------------------------------ whole runs

  lemma {:induction false} RunKeeps(actions: seq<Action>)
    ensures Inv(Run(NOTHING, actions))
  {
    if actions == [] {
      NothingIsSquare();
    } else {
      RunKeeps(actions[..|actions| - 1]);
      StepKeeps(Run(NOTHING, actions[..|actions| - 1]), actions[|actions| - 1]);
    }
  }

  lemma NothingIsSquare()
    ensures Inv(NOTHING)
  {
    forall user, asset
      ensures Squares(NOTHING, user, asset)
    {
    }
  }

  /** Over every run of placements, fills, cancellations and transfers, no user's trading balance is ever
      negative, and the locked balance is exactly the sum of what outstanding orders still reserve. */
  lemma {:induction false} TradingBalancesNeverNegative(actions: seq<Action>, user: string, asset: string)
    ensures var s := Run(NOTHING, actions);
      && Owes(s.history, user, asset, UserTradingAvailable) >= 0
      && Owes(s.history, user, asset, UserOrderLocked) == HeldBy(s.orders, user, asset) >= 0
      && Owes(s.history, user, asset, UserTradingLocked) == LockedBy(s.locks, user, asset) >= 0
  {
    var s := Run(NOTHING, actions);
    RunKeeps(actions);
    assert Squares(s, user, asset);
    hide Run, Owes;
    HeldIsNonNegative(s.orders, user, asset);
    LockedIsNonNegative(s.locks, user, asset);
  }

  lemma {:induction false} HeldIsNonNegative(orders: seq<Order>, user: string, asset: string)
    requires forall o :: o in orders ==> OrderOk(o)
    ensures HeldBy(orders, user, asset) >= 0
  {
    if orders == [] {
    } else {
      var o := orders[|orders| - 1];
      assert o in orders;
      ResidueIsLeft(o);
      hide OrderOk;
      HeldIsNonNegative(orders[..|orders| - 1], user, asset);
    }
  }

  lemma {:induction false} LockedIsNonNegative(locks: seq<Lock>, user: string, asset: string)
    ensures LockedBy(locks, user, asset) >= 0
  {
    if locks == [] {
    } else {
      LockedIsNonNegative(locks[..|locks| - 1], user, asset);
    }
  }

  /** Every order of every run: what its fills consumed and what it was given back never exceed its hold,
      and once it is finished they are all of it. */
  lemma {:induction false} HoldsAreAccountedFor(actions: seq<Action>, o: Order)
    requires o in Run(NOTHING, actions).orders
    ensures o.Consumed() + o.released + o.Residue() == o.hold && o.Residue() >= 0
    ensures !o.live ==> o.Consumed() + o.released == o.hold
  {
    RunKeeps(actions);
    ResidueIsLeft(o);
  }

  /** When settlement abandons a fill and stops: exactly when the fill takes more than the buy's hold, or takes
      all of it without completing the buy. The sell never stops it, and a fill within the reserve price
      never over-consumes. */
  lemma {:induction false} HaltsExactly(s: Exchange, fillId: string, b: nat, k: nat, terms: FillTerms)
    requires Inv(s) && Settleable(s, b, k, terms)
    ensures Filled(s.orders[k], terms).Residue() >= 0
    ensures Matched(s, b, k, terms) && Priced(s.orders[b]) ==> Filled(s.orders[b], terms).Residue() >= 0
    ensures var buy := Filled(s.orders[b], terms);
      Settles(s, fillId, b, k, terms) <==> buy.Residue() > 0 || (buy.Residue() == 0 && buy.Remaining() == 0)
  {
    hide OrderOk, Filled, AmountsOf, Disposed, Order.Residue, Order.Remaining;
    var buy, sell := s.orders[b], s.orders[k];
    assert buy in s.orders && sell in s.orders;
    FilledSell(sell, terms);
    SellHoldsItsRemainder(sell);
    FilledOk(sell, terms);
    FilledBuy(buy, terms);
    SellHoldsItsRemainder(Filled(sell, terms));
    if Matched(s, b, k, terms) && Priced(buy) { PricedIsCovered(buy, terms); }
    DisposedOrders(s, fillId, b, k, terms);
  }

  /** A fill within the reserve price keeps a buy priced, and its hold covers it. */
  lemma {:induction false} PricedIsCovered(o: Order, terms: FillTerms)
    requires OrderOk(o) && Priced(o) && o.live && AmountsOf(terms).Success? && terms.qty <= o.Remaining()
    requires o.side == Buy ==> terms.price <= o.reserve
    requires terms.takerBps <= WORST_CASE_TAKER_BPS && terms.makerBps <= WORST_CASE_TAKER_BPS
    ensures Priced(Filled(o, terms)) && Filled(o, terms).Residue() >= 0
  {
    hide Cost, Value, FeeAmount, BuyReserve, TotalCost, TotalQty, ClusterOf;
    var a := AmountsOf(terms).value;
    TakePush(o.fills, Charge(terms.price, terms.qty, if o.side == Buy then a.buyerBps else a.sellerBps));
    ResidueIsCovered(Filled(o, terms));
  }

  /** The same order, finished. */
  predicate Ended(after: Order, before: Order) { after == before.(live := false, released := after.released) }

  /** What disposing of a fill leaves: each order as the fill left it, or closed if the fill completed it. */
  lemma DisposedOrders(s: Exchange, fillId: string, b: nat, k: nat, terms: FillTerms)
    requires Settleable(s, b, k, terms)
    ensures var after, buy, sell := Disposed(s, fillId, b, k, terms), Filled(s.orders[b], terms),
      Filled(s.orders[k], terms);
      && |after.orders| == |s.orders|
      && (if buy.Remaining() == 0 then Ended(after.orders[b], buy) else after.orders[b] == buy)
      && (if sell.Remaining() == 0 then Ended(after.orders[k], sell) else after.orders[k] == sell)
      && (forall j :: 0 <= j < |s.orders| && j != b && j != k ==> after.orders[j] == s.orders[j])
  {
    hide AmountsOf, TradeOf, CloseIfDone, Order.Residue, Order.Remaining, Order.HoldAsset;
    var first, second := if terms.takerSide == Buy then b else k, if terms.takerSide == Buy then k else b;
    var t := Traded(s, fillId, b, k, terms);
    ClosesOnlyTheDone(t, first);
    ClosesOnlyTheDone(CloseIfDone(t, first), second);
  }

  lemma SellHoldsItsRemainder(o: Order)
    requires OrderOk(o) && o.side == Sell && o.live
    ensures o.Residue() == o.Remaining() >= 0
  {
  }

  lemma ClosesOnlyTheDone(s: Exchange, i: nat)
    requires i < |s.orders|
    ensures var after := CloseIfDone(s, i);
      && |after.orders| == |s.orders|
      && (forall j :: 0 <= j < |s.orders| && j != i ==> after.orders[j] == s.orders[j])
      && (if s.orders[i].live && s.orders[i].Remaining() == 0 then Ended(after.orders[i], s.orders[i])
          else after.orders[i] == s.orders[i])
  {
    hide Order.Residue, Order.Remaining, Order.HoldAsset;
  }

  /** With lots worth at least one unit of quote at the limit, a fill that leaves a lot or more never halts. */
  lemma {:induction false} WholeLotsNeverHalt(s: Exchange, fillId: string, b: nat, k: nat, terms: FillTerms, lot: nat)
    requires Inv(s) && Matched(s, b, k, terms) && Priced(s.orders[b])
    requires Filled(s.orders[b], terms).Remaining() == 0 || Filled(s.orders[b], terms).Remaining() >= lot
    requires lot > 0 && s.orders[b].reserve * lot >= PRICE_SCALE
    ensures Settles(s, fillId, b, k, terms)
  {
    hide Settles, Filled, AmountsOf, OrderOk, Priced, Within, AllSquare, Order.Residue, Order.Remaining;
    assert s.orders[b] in s.orders;
    HaltsExactly(s, fillId, b, k, terms);
    if Filled(s.orders[b], terms).Remaining() != 0 { LotLeft(s.orders[b], terms, lot); }
  }

  lemma LotLeft(o: Order, terms: FillTerms, lot: nat)
    requires OrderOk(o) && Priced(o) && o.live && AmountsOf(terms).Success? && terms.qty <= o.Remaining()
    requires o.side == Buy && terms.price <= o.reserve
    requires terms.takerBps <= WORST_CASE_TAKER_BPS && terms.makerBps <= WORST_CASE_TAKER_BPS
    requires Filled(o, terms).Remaining() >= lot > 0 && o.reserve * lot >= PRICE_SCALE
    ensures Filled(o, terms).Residue() > 0
  {
    PricedIsCovered(o, terms);
    var o' := Filled(o, terms);
    hide AmountsOf, Value, FeeAmount, Cost, TotalCost, TotalQty, BuyReserve;
    HoldCoversAnySplit(o'.fills, o'.reserve, o'.qty - lot);
    LotWorthAUnit(o'.reserve, o'.qty, lot);
  }

  // ------------------------------------------------------------------ the ledger takes every trade

  lemma OnCluster(p: Posting, cluster: string)
    requires Refusal(p).None? && cluster in CLUSTERS && forall e :: e in Proposed(p) ==>
      ClusterOf(e.asset) == Some(cluster)
    ensures Commits(p)
  {
    NonZeroMembers(Proposed(p));
    hide Proposed, ClusterOf, Refusal;
    assert forall e :: e in Legs(p) ==> ClusterOf(e.asset) == Some(cluster);
  }

  /** The trade of any fill whose amounts can be computed, in a market of two assets of one cluster, is posted. */
  lemma {:induction false} TradeCommits(fillId: string, buy: Order, sell: Order, terms: FillTerms)
    requires AmountsOf(terms).Success? && buy.base != buy.quote
    requires ClusterOf(buy.base).Some? && ClusterOf(buy.base) == ClusterOf(buy.quote)
    requires terms.makerBps <= BPS_DENOMINATOR && terms.takerBps <= BPS_DENOMINATOR
    ensures Commits(TradeOf(fillId, buy, sell, terms))
  {
    var p := TradeOf(fillId, buy, sell, terms);
    assert terms.qty > 0;
    BuyerPaysItsCost(terms);
    KnownCluster(buy.base);
    hide ClusterOf, AmountsOf, Commits;
    TradeOnCluster(p, ClusterOf(p.asset).value);
    OnCluster(p, ClusterOf(p.asset).value);
  }

  lemma TradeOnCluster(p: Posting, cluster: string)
    requires p.TradeSettlement? && ClusterOf(p.asset) == ClusterOf(p.quote) == Some(cluster)
    ensures forall e :: e in Proposed(p) ==> ClusterOf(e.asset) == Some(cluster)
  {
    hide ClusterOf;
    var legs := Proposed(p);
    forall i | 0 <= i < |legs| ensures legs[i].asset == p.asset || legs[i].asset == p.quote {
    }
  }
}
