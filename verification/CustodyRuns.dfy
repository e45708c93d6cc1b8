/** Custody and trading together: withdrawals lock what they will pay out, and over every run no account of any
    user is ever overdrawn in either tier. */
module CustodyRuns {
  import opened MatchingTypes
  import opened Ledger
  import opened LedgerHistory
  import opened Settlement
  import Orders
  import S = SettlementRuns

  /** Both tiers: the trading tier as it is, and every withdrawal that ever locked custody funds. */
  datatype Accounts = Accounts(s: Exchange, withdrawals: seq<Lock>)

  datatype Action =
    | Elsewhere(a: S.Action)                                            // deposits, orders, fills, deallocations
    | LockWithdrawal(id: string, user: string, asset: string, amount: nat)
    | ReturnWithdrawal(i: nat)                                          // refused, failed or cancelled
    | SettleWithdrawal(i: nat, networkFee: Option<int>, nativeAsset: string)
    | Allocate(i: nat, networkFee: Option<int>, feeAsset: Option<string>)

  /** The postings that move locked custody funds. */
  predicate OfWithdrawal(p: Posting) {
    p.WithdrawalLock? || p.WithdrawalRelease? || p.WithdrawalSettlement? || p.Allocation?
  }

  /** The posting that ends a pending withdrawal, one of three ways. */
  function Ending(l: Lock, a: Action): Posting
    requires a.ReturnWithdrawal? || a.SettleWithdrawal? || a.Allocate?
  {
    match a
    case ReturnWithdrawal(_) => WithdrawalRelease(l.id, l.user, l.asset, l.amount)
    case SettleWithdrawal(_, fee, native) => WithdrawalSettlement(l.id, l.user, l.asset, l.amount, fee, native)
    case Allocate(_, fee, feeAsset) => Allocation(l.id, l.user, l.asset, l.amount, fee, feeAsset)
  }

  /** Funds are locked only if the balance read in the same transaction covers them, and a lock ends once. */
  ghost function Step(v: Accounts, a: Action): Accounts {
    match a
    case Elsewhere(b) => if b.Record? && OfWithdrawal(b.p) then v else v.(s := S.Step(v.s, b))
    case LockWithdrawal(id, user, asset, n) =>
      var p := WithdrawalLock(id, user, asset, n);
      if Owes(v.s.history, user, asset, UserCustodyAvailable) < n || !Commits(p) then v
      else Accounts(S.Step(v.s, S.Record(p)), v.withdrawals + [Lock(id, user, asset, n, true)])
    case _ =>
      if a.i >= |v.withdrawals| || !v.withdrawals[a.i].pending then v
      else
        var l := v.withdrawals[a.i];
        if !Commits(Ending(l, a)) then v
        else Accounts(S.Step(v.s, S.Record(Ending(l, a))), v.withdrawals[a.i := l.(pending := false)])
  }

  ghost function Run(v: Accounts, actions: seq<Action>): Accounts {
    if actions == [] then v else Step(Run(v, actions[..|actions| - 1]), actions[|actions| - 1])
  }

  const NOTHING := Accounts(S.NOTHING, [])

  // ------------------------------------------------------------------ what the rest of the system does to custody

  ghost predicate NoWithdrawals(ps: seq<Posting>) { forall p :: p in ps ==> !OfWithdrawal(p) }

  /** Postings that are not of a withdrawal leave locked funds alone and never lower a spendable balance. */
  lemma {:induction false} OthersAddUp(history: seq<Posting>, ps: seq<Posting>, user: string, asset: string)
    requires NoWithdrawals(ps)
    ensures Owes(history + ps, user, asset, UserCustodyLocked) == Owes(history, user, asset, UserCustodyLocked)
    ensures Owes(history + ps, user, asset, UserCustodyAvailable) >= Owes(history, user, asset, UserCustodyAvailable)
  {
    hide Owes, Commits;
    if ps == [] {
      assert history + ps == history;
    } else {
      var most, p := ps[..|ps| - 1], ps[|ps| - 1];
      assert p in ps && history + ps == (history + most) + [p];
      OthersAddUp(history, most, user, asset);
      OtherAdds(history + most, p, user, asset);
    }
  }

  lemma OtherAdds(history: seq<Posting>, p: Posting, user: string, asset: string)
    requires !OfWithdrawal(p)
    ensures Owes(history + [p], user, asset, UserCustodyLocked) == Owes(history, user, asset, UserCustodyLocked)
    ensures Owes(history + [p], user, asset, UserCustodyAvailable) >= Owes(history, user, asset, UserCustodyAvailable)
  {
    if Commits(p) {
      PostCredits(history, p, user, asset, UserCustodyLocked);
      PostCredits(history, p, user, asset, UserCustodyAvailable);
      assert p.amount > 0 && (p.Deposit? ==> Or(p.rent, 0) <= p.amount);
      hide Owes, Commits;
    } else {
      assert (history + [p])[..|history + [p]| - 1] == history;
      assert LedgerOf(history) + [] == LedgerOf(history);
    }
  }

  ghost predicate OnlyReleases(ps: seq<Posting>) { forall p :: p in ps ==> p.OrderRelease? }

  lemma ClosePosts(s: Exchange, i: nat) returns (ps: seq<Posting>)
    requires i < |s.orders|
    ensures S.Close(s, i).history == s.history + ps && OnlyReleases(ps)
    ensures |S.Close(s, i).orders| == |s.orders|
  {
    hide Order.Residue;
    var o := s.orders[i];
    ps := if o.Residue() <= 0 then [] else [OrderRelease(o.id, o.user, o.HoldAsset(), o.Residue())];
  }

  lemma MaybeClosePosts(s: Exchange, i: nat) returns (ps: seq<Posting>)
    requires i < |s.orders|
    ensures S.CloseIfDone(s, i).history == s.history + ps && OnlyReleases(ps)
    ensures |S.CloseIfDone(s, i).orders| == |s.orders|
  {
    hide S.Close;
    ps := [];
    if s.orders[i].live && s.orders[i].Remaining() == 0 { ps := ClosePosts(s, i); }
  }

  lemma SettlePosts(s: Exchange, fillId: string, b: nat, k: nat, terms: Orders.FillTerms) returns (ps: seq<Posting>)
    ensures S.SettleFill(s, fillId, b, k, terms).history == s.history + ps && NoWithdrawals(ps)
  {
    hide S.Disposed, S.Settleable, S.Settles, Commits, S.TradeOf;
    ps := [];
    if S.SettleFill(s, fillId, b, k, terms) != s {
      ps := DisposedPosts(s, fillId, b, k, terms);
      assert ps == [ps[0]] + ps[1..] && ps[0].TradeSettlement? by { TradesTrade(s, fillId, b, k, terms); }
    }
  }

  lemma TradesTrade(s: Exchange, fillId: string, b: nat, k: nat, terms: Orders.FillTerms)
    requires S.Settleable(s, b, k, terms)
    ensures S.TradeOf(fillId, s.orders[b], s.orders[k], terms).TradeSettlement?
  {
  }

  lemma DisposedPosts(s: Exchange, fillId: string, b: nat, k: nat, terms: Orders.FillTerms) returns (ps: seq<Posting>)
    requires S.Settleable(s, b, k, terms)
    ensures S.Disposed(s, fillId, b, k, terms).history == s.history + ps && ps != [] && OnlyReleases(ps[1..])
    ensures ps[0] == S.TradeOf(fillId, s.orders[b], s.orders[k], terms)
  {
    hide S.CloseIfDone, S.Filled, Orders.AmountsOf, Order.Remaining;
    var traded := S.Traded(s, fillId, b, k, terms);
    var first, second := if terms.takerSide == Buy then b else k, if terms.takerSide == Buy then k else b;
    var qs := MaybeClosePosts(traded, first);
    var rs := MaybeClosePosts(S.CloseIfDone(traded, first), second);
    ps := [S.TradeOf(fillId, s.orders[b], s.orders[k], terms)] + (qs + rs);
  }

  lemma StepPosts(s: Exchange, a: S.Action) returns (ps: seq<Posting>)
    requires !(a.Record? && OfWithdrawal(a.p))
    ensures S.Step(s, a).history == s.history + ps && NoWithdrawals(ps)
    ensures !a.Settle? ==> forall p :: p in ps ==> !p.TradeSettlement?
  {
    hide S.Close, S.SettleFill, Commits, Owes;
    ps := [];
    match a
    case Settle(fillId, b, k, terms) => ps := SettlePosts(s, fillId, b, k, terms);
    case Finish(i) => if i < |s.orders| && s.orders[i].live { ps := ClosePosts(s, i); }
    case _ =>
      if S.Step(s, a).history != s.history { ps := [S.Step(s, a).history[|s.history|]]; }
  }

  // ------------------------------------------------------------------ the invariant

  ghost predicate CustodySquares(v: Accounts, user: string, asset: string) {
    && Owes(v.s.history, user, asset, UserCustodyAvailable) >= 0
    && Owes(v.s.history, user, asset, UserCustodyLocked) == LockedBy(v.withdrawals, user, asset)
  }

  ghost predicate AccountsInv(v: Accounts) {
    && Inv(v.s) && (forall l :: l in v.withdrawals ==> LockOk(l))
    && forall user, asset :: CustodySquares(v, user, asset)
  }

  /** A committed posting of a withdrawal, and what it moves. */
  lemma RecordMoves(s: Exchange, p: Posting, user: string, asset: string)
    requires OfWithdrawal(p) && Commits(p)
    ensures var after := S.Step(s, S.Record(p)).history;
      forall kind :: kind in CUSTODY ==>
        Owes(after, user, asset, kind) == Owes(s.history, user, asset, kind) + Credited(p, user, asset, kind)
  {
    hide Owes, Commits, Credited, S.Step;
    RecordPosts(s, p);
    PostCredits(s.history, p, user, asset, UserCustodyAvailable);
    PostCredits(s.history, p, user, asset, UserCustodyLocked);
  }

  lemma RecordPosts(s: Exchange, p: Posting)
    requires OfWithdrawal(p) && Commits(p)
    ensures S.Step(s, S.Record(p)).history == s.history + [p]
  {
    hide Commits;
  }

  lemma {:induction false} LockKeeps(v: Accounts, id: string, user: string, asset: string, n: nat)
    requires AccountsInv(v)
    ensures AccountsInv(Step(v, LockWithdrawal(id, user, asset, n)))
  {
    hide Owes, Inv, LockedBy, Commits, S.Step;
    var p, after := WithdrawalLock(id, user, asset, n), Step(v, LockWithdrawal(id, user, asset, n));
    if after != v {
      S.StepKeeps(v.s, S.Record(p));
      WithdrawalIsQualified(p);
      forall u, x ensures CustodySquares(after, u, x) {
        assert CustodySquares(v, u, x);
        RecordMoves(v.s, p, u, x);
        LockedPush(v.withdrawals, Lock(id, user, asset, n, true), u, x);
      }
    }
  }

  lemma LockedPush(locks: seq<Lock>, l: Lock, user: string, asset: string)
    ensures LockedBy(locks + [l], user, asset) == LockedBy(locks, user, asset) + Pending(l, user, asset)
  {
    assert (locks + [l])[..|locks|] == locks;
  }

  lemma WithdrawalIsQualified(p: Posting)
    requires p.WithdrawalLock? && Commits(p)
    ensures ClusterOf(p.asset).Some? && p.amount > 0
  {
    NonZeroMembers(Proposed(p));
    assert Proposed(p)[0] in Legs(p) && Proposed(p)[0].asset == p.asset;
    hide ClusterOf;
  }

  lemma {:induction false} EndingKeeps(v: Accounts, a: Action)
    requires AccountsInv(v) && (a.ReturnWithdrawal? || a.SettleWithdrawal? || a.Allocate?)
    ensures AccountsInv(Step(v, a))
  {
    hide Owes, Inv, LockedBy, Commits, S.Step;
    var after := Step(v, a);
    if after != v {
      var l := v.withdrawals[a.i];
      assert l in v.withdrawals;
      var p := Ending(l, a);
      S.StepKeeps(v.s, S.Record(p));
      forall u, x ensures CustodySquares(after, u, x) {
        assert CustodySquares(v, u, x);
        RecordMoves(v.s, p, u, x);
        LockedUpdate(v.withdrawals, a.i, l.(pending := false), u, x);
      }
    }
  }

  lemma {:induction false} ElsewhereKeeps(v: Accounts, a: S.Action)
    requires AccountsInv(v)
    ensures AccountsInv(Step(v, Elsewhere(a)))
  {
    hide Owes, Inv, LockedBy, S.Step;
    var after := Step(v, Elsewhere(a));
    if !(a.Record? && OfWithdrawal(a.p)) {
      S.StepKeeps(v.s, a);
      var ps := StepPosts(v.s, a);
      forall u, x ensures CustodySquares(after, u, x) {
        assert CustodySquares(v, u, x);
        OthersAddUp(v.s.history, ps, u, x);
      }
    }
  }

  lemma {:induction false} BothTiersKeep(v: Accounts, a: Action)
    requires AccountsInv(v)
    ensures AccountsInv(Step(v, a))
  {
    match a
    case Elsewhere(b) => ElsewhereKeeps(v, b);
    case LockWithdrawal(id, user, asset, n) => LockKeeps(v, id, user, asset, n);
    case _ => EndingKeeps(v, a);
  }

  lemma {:induction false} RunKeeps(actions: seq<Action>)
    ensures AccountsInv(Run(NOTHING, actions))
  {
    hide Step, AccountsInv;
    if actions == [] {
      NothingIsKept();
    } else {
      RunKeeps(actions[..|actions| - 1]);
      BothTiersKeep(Run(NOTHING, actions[..|actions| - 1]), actions[|actions| - 1]);
    }
  }

  lemma NothingIsKept()
    ensures AccountsInv(NOTHING)
  {
    S.NothingIsSquare();
    hide Inv;
  }

  /** Over every run of deposits, withdrawals, allocations, orders, fills and deallocations: none of a user's five
      balances is ever negative, and what is locked in custody is exactly the withdrawals still pending. */
  lemma {:induction false} NoBalanceIsOverdrawn(actions: seq<Action>, user: string, asset: string)
    ensures var v := Run(NOTHING, actions);
      && Owes(v.s.history, user, asset, UserCustodyAvailable) >= 0
      && Owes(v.s.history, user, asset, UserTradingAvailable) >= 0
      && Owes(v.s.history, user, asset, UserCustodyLocked) == LockedBy(v.withdrawals, user, asset) >= 0
      && Owes(v.s.history, user, asset, UserOrderLocked) == HeldBy(v.s.orders, user, asset) >= 0
      && Owes(v.s.history, user, asset, UserTradingLocked) == LockedBy(v.s.locks, user, asset) >= 0
  {
    hide Run, Owes, HeldBy, LockedBy;
    RunKeeps(actions);
    var v := Run(NOTHING, actions);
    assert CustodySquares(v, user, asset) && Squares(v.s, user, asset);
    S.HeldIsNonNegative(v.s.orders, user, asset);
    S.LockedIsNonNegative(v.s.locks, user, asset);
    S.LockedIsNonNegative(v.withdrawals, user, asset);
  }

  /** A withdrawal locks exactly when the spendable balance covers it: the amount leaves what can be spent and joins
      what is locked. Otherwise nothing happens. */
  lemma {:induction false} LockMovesFunds(v: Accounts, id: string, user: string, asset: string, n: nat)
    requires n > 0 && ClusterOf(asset).Some?
    ensures var after, covered := Step(v, LockWithdrawal(id, user, asset, n)),
                                  Owes(v.s.history, user, asset, UserCustodyAvailable) >= n;
      && (!covered ==> after == v)
      && (covered ==>
            && |after.withdrawals| == |v.withdrawals| + 1
            && Owes(after.s.history, user, asset, UserCustodyAvailable)
               == Owes(v.s.history, user, asset, UserCustodyAvailable) - n
            && Owes(after.s.history, user, asset, UserCustodyLocked)
               == Owes(v.s.history, user, asset, UserCustodyLocked) + n)
  {
    var p := WithdrawalLock(id, user, asset, n);
    OneAssetCommits(p);
    RecordMoves(v.s, p, user, asset);
    hide Owes, Commits, S.Step;
  }

  lemma OneAssetCommits(p: Posting)
    requires (p.WithdrawalLock? || p.WithdrawalRelease?) && p.amount > 0 && ClusterOf(p.asset).Some?
    ensures Commits(p)
  {
    NonZeroMembers(Proposed(p));
    assert forall e :: e in Legs(p) ==> e.asset == p.asset;
    KnownCluster(p.asset);
    hide ClusterOf, Legs;
  }

  /** And a pending withdrawal can always be returned in full: what was locked can be spent again. */
  lemma {:induction false} ReturnGivesBack(v: Accounts, i: nat)
    requires AccountsInv(v) && i < |v.withdrawals| && v.withdrawals[i].pending
    ensures var after, l := Step(v, ReturnWithdrawal(i)), v.withdrawals[i];
      && !after.withdrawals[i].pending
      && Owes(after.s.history, l.user, l.asset, UserCustodyAvailable)
         == Owes(v.s.history, l.user, l.asset, UserCustodyAvailable) + l.amount
      && Owes(after.s.history, l.user, l.asset, UserCustodyLocked)
         == Owes(v.s.history, l.user, l.asset, UserCustodyLocked) - l.amount
  {
    var l := v.withdrawals[i];
    assert l in v.withdrawals;
    var p := Ending(l, ReturnWithdrawal(i));
    OneAssetCommits(p);
    RecordMoves(v.s, p, l.user, l.asset);
    hide Owes, Commits, S.Step;
  }
}
