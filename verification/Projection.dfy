/** Balances as projections over entries, and the four checks that read them. */
module Projection {
  import opened MatchingTypes
  import opened Ledger
  import opened LedgerHistory

  datatype Violation =
    | BooksBalance(asset: string, residual: int)
    | NegativeUserBalance(account: Account, held: int)
    | AccountSign(account: Account, held: int)
    | Uncovered(tier: Tier, asset: string, shortfall: int)

  // ------------------------------------------------------------------ projecting

  method ProjectAccount(account: Account, entries: seq<Entry>) returns (balance: int)
    ensures balance == Balance(entries, account)
  {
    balance := 0;
    for i := 0 to |entries|
      invariant balance == Balance(entries[..i], account)
    {
      assert entries[..i + 1] == entries[..i] + [entries[i]];
      SumPush(entries[..i], entries[i], OfAccount(account));
      if entries[i].account == account { balance := balance + entries[i].Signed(); }
    }
    assert entries[..|entries|] == entries;
  }

  /** A user's spendable and locked balance in custody. Liabilities are credit balances: the sign flips once, here. */
  method ProjectUserBalance(user: string, asset: string, entries: seq<Entry>) returns (available: int, locked: int)
    ensures available == -Balance(entries, User(user, asset, UserCustodyAvailable))
    ensures locked == -Balance(entries, User(user, asset, UserCustodyLocked))
  {
    available, locked := 0, 0;
    for i := 0 to |entries|
      invariant available == -Balance(entries[..i], User(user, asset, UserCustodyAvailable))
      invariant locked == -Balance(entries[..i], User(user, asset, UserCustodyLocked))
    {
      var e := entries[i];
      assert entries[..i + 1] == entries[..i] + [e];
      SumPush(entries[..i], e, OfAccount(User(user, asset, UserCustodyAvailable)));
      SumPush(entries[..i], e, OfAccount(User(user, asset, UserCustodyLocked)));
      if e.account.owner == Some(user) && e.account.asset == asset {
        var value := -e.Signed();
        if e.account.kind == UserCustodyAvailable { available := available + value; }
        else if e.account.kind == UserCustodyLocked { locked := locked + value; }
      }
    }
    assert entries[..|entries|] == entries;
  }

  ghost predicate Touched(entries: seq<Entry>, account: Account) { exists e :: e in entries && e.account == account }

  ghost predicate Distinct<T(!new)>(s: seq<T>) { forall i, j :: 0 <= i < j < |s| ==> s[i] != s[j] }

  /** Every account the entries touch, once, and the balance of each. */
  ghost predicate Projects(order: seq<Account>, balances: map<Account, int>, entries: seq<Entry>) {
    && Distinct(order)
    && (forall a :: a in order <==> a in balances)
    && (forall a :: a in balances <==> Touched(entries, a))
    && (forall a :: a in balances ==> balances[a] == Balance(entries, a))
  }

  /** An insertion-ordered map of balances: its keys in order, and its values. */
  method ProjectAll(entries: seq<Entry>) returns (order: seq<Account>, balances: map<Account, int>)
    ensures Projects(order, balances, entries)
  {
    order, balances := [], map[];
    for i := 0 to |entries|
      invariant Projects(order, balances, entries[..i])
    {
      var e := entries[i];
      ProjectStep(order, balances, entries[..i], e);
      assert entries[..i + 1] == entries[..i] + [e];
      if e.account !in balances { order := order + [e.account]; }
      balances := balances[e.account := (if e.account in balances then balances[e.account] else 0) + e.Signed()];
    }
    assert entries[..|entries|] == entries;
  }

  lemma ProjectStep(order: seq<Account>, balances: map<Account, int>, entries: seq<Entry>, e: Entry)
    requires Projects(order, balances, entries)
    ensures Projects(if e.account in balances then order else order + [e.account],
                     balances[e.account := (if e.account in balances then balances[e.account] else 0) + e.Signed()],
                     entries + [e])
  {
    hide Balance, Touched;
    forall a
      ensures Balance(entries + [e], a) == Balance(entries, a) + if e.account == a then e.Signed() else 0
      ensures Touched(entries + [e], a) <==> Touched(entries, a) || e.account == a
    {
      BalancePush(entries, e, a);
    }
    if e.account !in balances { Untouched(entries, e.account); }
  }

  lemma BalancePush(entries: seq<Entry>, e: Entry, a: Account)
    ensures Balance(entries + [e], a) == Balance(entries, a) + if e.account == a then e.Signed() else 0
    ensures Touched(entries + [e], a) <==> Touched(entries, a) || e.account == a
  {
    SumPush(entries, e, OfAccount(a));
    if Touched(entries, a) {
      var f :| f in entries && f.account == a;
      assert f in entries + [e];
    }
    if e.account == a { assert e in entries + [e]; }
  }

  lemma {:induction false} Untouched(entries: seq<Entry>, account: Account)
    requires !Touched(entries, account)
    ensures Balance(entries, account) == 0
  {
    if entries == [] {
    } else {
      assert entries[|entries| - 1] in entries;
      forall e | e in entries[..|entries| - 1]
        ensures e.account != account
      {
        assert e in entries;
      }
      Untouched(entries[..|entries| - 1], account);
    }
  }

  // ------------------------------------------------------------------ checks on single balances

  /** Reports exactly the assets whose entries do not sum to zero. */
  method CheckBooksBalance(entries: seq<Entry>) returns (violations: seq<Violation>)
    ensures forall v :: v in violations <==>
      v.BooksBalance? && v.residual == SumOf(entries, InAsset(v.asset)) && v.residual != 0
  {
    var order: seq<string>, byAsset: map<string, int> := [], map[];
    for i := 0 to |entries|
      invariant forall asset :: asset in order <==> asset in byAsset
      invariant forall asset ::
        (if asset in byAsset then byAsset[asset] else 0) == SumOf(entries[..i], InAsset(asset))
    {
      var e := entries[i];
      forall asset
        ensures SumOf(entries[..i + 1], InAsset(asset))
             == SumOf(entries[..i], InAsset(asset)) + if e.asset == asset then e.Signed() else 0
      {
        assert entries[..i + 1] == entries[..i] + [e];
        SumPush(entries[..i], e, InAsset(asset));
      }
      if e.asset !in byAsset { order := order + [e.asset]; }
      byAsset := byAsset[e.asset := (if e.asset in byAsset then byAsset[e.asset] else 0) + e.Signed()];
    }
    assert entries[..|entries|] == entries;
    violations := [];
    for i := 0 to |order|
      invariant forall v :: v in violations <==>
        v.BooksBalance? && v.asset in order[..i] && v.residual == byAsset[v.asset] && v.residual != 0
    {
      var asset := order[i];
      assert forall x :: x in order[..i + 1] <==> x in order[..i] || x == asset;
      if byAsset[asset] != 0 { violations := violations + [BooksBalance(asset, byAsset[asset])]; }
    }
    assert order[..|order|] == order;
  }

  /** Reports exactly the user accounts that are owed less than nothing. */
  method CheckNoNegativeUserBalances(entries: seq<Entry>) returns (violations: seq<Violation>)
    ensures forall v :: v in violations <==>
      && v.NegativeUserBalance? && v.held == -Balance(entries, v.account) && v.held < 0
      && v.account.kind in {UserCustodyAvailable, UserCustodyLocked, UserTradingAvailable, UserOrderLocked,
                            UserTradingLocked}
  {
    var order, balances := ProjectAll(entries);
    violations := [];
    for i := 0 to |order|
      invariant forall v :: v in violations <==>
        v.NegativeUserBalance? && v.account in order[..i] && v.account.kind in USER && v.held == -balances[v.account]
          && v.held < 0
    {
      var a := order[i];
      assert forall x :: x in order[..i + 1] <==> x in order[..i] || x == a;
      if a.kind in USER && -balances[a] < 0 { violations := violations + [NegativeUserBalance(a, -balances[a])]; }
    }
    assert order[..|order|] == order;
    UntouchedAreZero(entries);
  }

  /** Reports exactly the accounts with a declared sign that break it. */
  method CheckAccountSigns(entries: seq<Entry>) returns (violations: seq<Violation>)
    ensures forall v :: v in violations <==>
      && v.AccountSign? && v.account.kind != External
      && v.held == Normal(v.account.kind, Balance(entries, v.account)) && v.held < 0
  {
    var order, balances := ProjectAll(entries);
    violations := [];
    for i := 0 to |order|
      invariant forall v :: v in violations <==>
        && v.AccountSign? && v.account in order[..i] && v.account.kind in NON_NEGATIVE
        && v.held == Normal(v.account.kind, balances[v.account]) && v.held < 0
    {
      var a := order[i];
      assert forall x :: x in order[..i + 1] <==> x in order[..i] || x == a;
      var normal := Normal(a.kind, balances[a]);
      if a.kind in NON_NEGATIVE && normal < 0 { violations := violations + [AccountSign(a, normal)]; }
    }
    assert order[..|order|] == order;
    UntouchedAreZero(entries);
  }

  lemma UntouchedAreZero(entries: seq<Entry>)
    ensures forall a :: !Touched(entries, a) ==> Balance(entries, a) == 0
  {
    forall a | !Touched(entries, a)
      ensures Balance(entries, a) == 0
    {
      Untouched(entries, a);
    }
  }
}
