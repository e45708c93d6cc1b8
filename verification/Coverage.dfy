/** Liabilities covered tier by tier: the check, and exactly when a history passes it. */
module Coverage {
  import opened MatchingTypes
  import opened Ledger
  import opened LedgerHistory
  import opened Projection

  // ------------------------------------------------------------------ sums over accounts are sums over entries

  /** What listed accounts of these types hold in an asset, each in its own sign. */
  ghost function Tally(order: seq<Account>, entries: seq<Entry>, asset: string, kinds: set<AccountType>): int {
    if order == [] then 0
    else Tally(order[..|order| - 1], entries, asset, kinds) + Share(order[|order| - 1], entries, asset, kinds)
  }

  ghost function Share(a: Account, entries: seq<Entry>, asset: string, kinds: set<AccountType>): int {
    if a.asset == asset && a.kind in kinds then Normal(a.kind, Balance(entries, a)) else 0
  }

  lemma {:induction false} TallyPush(order: seq<Account>, entries: seq<Entry>, e: Entry, asset: string,
                                     kinds: set<AccountType>)
    requires Distinct(order)
    ensures Tally(order, entries + [e], asset, kinds) == Tally(order, entries, asset, kinds)
      + if e.account in order && OfKinds(asset, kinds)(e) then Normal(e.account.kind, e.Signed()) else 0
  {
    if order == [] {
    } else {
      var most, last := order[..|order| - 1], order[|order| - 1];
      assert order == most + [last];
      TallyPush(most, entries, e, asset, kinds);
      SumPush(entries, e, OfAccount(last));
    }
  }

  lemma {:induction false} TallyOfNothing(order: seq<Account>, asset: string, kinds: set<AccountType>)
    ensures Tally(order, [], asset, kinds) == 0
  {
    if order == [] {
    } else {
      TallyOfNothing(order[..|order| - 1], asset, kinds);
    }
  }

  /** Types that share one normal sign. */
  predicate OneSign(kinds: set<AccountType>, sign: int) { forall kind :: kind in kinds ==> Normal(kind, 1) == sign }

  lemma SignOut(kinds: set<AccountType>, sign: int, e: Entry)
    requires OneSign(kinds, sign) && e.account.kind in kinds
    ensures Normal(e.account.kind, e.Signed()) == sign * e.Signed()
  {
    assert Normal(e.account.kind, 1) == sign;
  }

  lemma {:induction false} TallyIsSum(order: seq<Account>, entries: seq<Entry>, asset: string,
                                      kinds: set<AccountType>, sign: int)
    requires Distinct(order) && OneSign(kinds, sign) && (forall e :: e in entries ==> e.account in order)
    ensures Tally(order, entries, asset, kinds) == sign * SumOf(entries, OfKinds(asset, kinds))
    decreases |entries|
  {
    if entries == [] {
      TallyOfNothing(order, asset, kinds);
    } else {
      var most, e := entries[..|entries| - 1], entries[|entries| - 1];
      assert entries == most + [e] && e in entries;
      TallyIsSum(order, most, asset, kinds, sign);
      TallyPush(order, most, e, asset, kinds);
      SumPush(most, e, OfKinds(asset, kinds));
      if e.account.kind in kinds { SignOut(kinds, sign, e); }
      hide Tally, SumOf, Normal;
    }
  }

  // ------------------------------------------------------------------ one bucket per asset

  ghost predicate Listed(order: seq<Account>, asset: string, kinds: set<AccountType>) {
    exists a :: a in order && a.asset == asset && a.kind in kinds
  }

  /** The bucket names the assets listed accounts of these types have, and what they hold in each. */
  ghost predicate Tallies(bucket: map<string, int>, order: seq<Account>, entries: seq<Entry>, kinds: set<AccountType>) {
    && (forall asset :: asset in bucket <==> Listed(order, asset, kinds))
    && (forall asset :: Get(bucket, asset) == Tally(order, entries, asset, kinds))
  }

  function Get(bucket: map<string, int>, asset: string): int { if asset in bucket then bucket[asset] else 0 }

  function Add(bucket: map<string, int>, asset: string, value: int): map<string, int> {
    bucket[asset := Get(bucket, asset) + value]
  }

  lemma AddTallies(bucket: map<string, int>, order: seq<Account>, entries: seq<Entry>, kinds: set<AccountType>,
                   a: Account)
    requires Tallies(bucket, order, entries, kinds)
    ensures var value := Normal(a.kind, Balance(entries, a));
      Tallies(if a.kind in kinds then Add(bucket, a.asset, value) else bucket, order + [a], entries, kinds)
  {
    var longer := order + [a];
    assert longer[..|longer| - 1] == order;
    forall asset
      ensures Listed(longer, asset, kinds) <==> Listed(order, asset, kinds) || (a.asset == asset && a.kind in kinds)
    {
      if Listed(order, asset, kinds) {
        var b :| b in order && b.asset == asset && b.kind in kinds;
        assert b in longer;
      }
      if a.asset == asset && a.kind in kinds { assert a in longer; }
    }
    forall asset
      ensures Tally(longer, entries, asset, kinds) == Tally(order, entries, asset, kinds)
        + Share(a, entries, asset, kinds)
    {
    }
    hide Tally, Balance;
  }

  // ------------------------------------------------------------------ the check

  ghost predicate HasKind(entries: seq<Entry>, asset: string, kinds: set<AccountType>) {
    exists e :: e in entries && e.account.asset == asset && e.account.kind in kinds
  }

  /** A tier that owes its users more than its own holdings: never offset by the other tier's. */
  ghost predicate Short(entries: seq<Entry>, v: Violation) {
    v.Uncovered? && v.shortfall > 0
    && match v.tier
       case Vault =>
         HasKind(entries, v.asset, CUSTODY)
         && v.shortfall == Owed(entries, v.asset, CUSTODY)
           - (Held(entries, v.asset, ChainAssets) - Held(entries, v.asset, HouseRent))
       case Clearing =>
         HasKind(entries, v.asset, TRADING)
         && v.shortfall == Owed(entries, v.asset, TRADING) - Held(entries, v.asset, ClearingAssets)
       case Outside => false
  }

  lemma ListedIsHas(order: seq<Account>, balances: map<Account, int>, entries: seq<Entry>, asset: string,
                    kinds: set<AccountType>)
    requires Projects(order, balances, entries)
    ensures Listed(order, asset, kinds) <==> HasKind(entries, asset, kinds)
  {
    if Listed(order, asset, kinds) {
      var a :| a in order && a.asset == asset && a.kind in kinds;
      assert Touched(entries, a);
    }
    if HasKind(entries, asset, kinds) {
      var e :| e in entries && e.account.asset == asset && e.account.kind in kinds;
      assert Touched(entries, e.account);
    }
  }

  /** Once every account is counted, a bucket is a sum over the entries. */
  ghost predicate Sums(bucket: map<string, int>, entries: seq<Entry>, kinds: set<AccountType>, sign: int) {
    && (forall asset :: asset in bucket <==> HasKind(entries, asset, kinds))
    && (forall asset :: Get(bucket, asset) == sign * SumOf(entries, OfKinds(asset, kinds)))
  }

  lemma TalliesAreSums(bucket: map<string, int>, order: seq<Account>, balances: map<Account, int>, entries: seq<Entry>,
                       kinds: set<AccountType>, sign: int)
    requires Projects(order, balances, entries) && Tallies(bucket, order, entries, kinds) && OneSign(kinds, sign)
    ensures Sums(bucket, entries, kinds, sign)
  {
    forall asset
      ensures asset in bucket <==> HasKind(entries, asset, kinds)
      ensures Get(bucket, asset) == sign * SumOf(entries, OfKinds(asset, kinds))
    {
      ListedIsHas(order, balances, entries, asset, kinds);
      forall e | e in entries
        ensures e.account in order
      {
        assert Touched(entries, e.account);
      }
      TallyIsSum(order, entries, asset, kinds, sign);
    }
  }

  datatype Buckets = Buckets(custody: map<string, int>, trading: map<string, int>, chain: map<string, int>,
                             clearing: map<string, int>, rent: map<string, int>)

  ghost predicate AllTally(b: Buckets, order: seq<Account>, entries: seq<Entry>) {
    && Tallies(b.custody, order, entries, CUSTODY) && Tallies(b.trading, order, entries, TRADING)
    && Tallies(b.chain, order, entries, {ChainAssets}) && Tallies(b.clearing, order, entries, {ClearingAssets})
    && Tallies(b.rent, order, entries, {HouseRent})
  }

  /** An account's balance goes into the bucket of its type. */
  function Sort(b: Buckets, a: Account, value: int): Buckets {
    if a.kind in CUSTODY then b.(custody := Add(b.custody, a.asset, value))
    else if a.kind in TRADING then b.(trading := Add(b.trading, a.asset, value))
    else if a.kind == ChainAssets then b.(chain := Add(b.chain, a.asset, value))
    else if a.kind == ClearingAssets then b.(clearing := Add(b.clearing, a.asset, value))
    else if a.kind == HouseRent then b.(rent := Add(b.rent, a.asset, value))
    else b
  }

  lemma SortTallies(b: Buckets, order: seq<Account>, entries: seq<Entry>, a: Account)
    requires AllTally(b, order, entries)
    ensures AllTally(Sort(b, a, Normal(a.kind, Balance(entries, a))), order + [a], entries)
  {
    hide Tallies, Add, Balance, Normal;
    AddTallies(b.custody, order, entries, CUSTODY, a);
    AddTallies(b.trading, order, entries, TRADING, a);
    AddTallies(b.chain, order, entries, {ChainAssets}, a);
    AddTallies(b.clearing, order, entries, {ClearingAssets}, a);
    AddTallies(b.rent, order, entries, {HouseRent}, a);
  }

  ghost predicate AllSum(b: Buckets, entries: seq<Entry>) {
    && Sums(b.custody, entries, CUSTODY, -1) && Sums(b.trading, entries, TRADING, -1)
    && Sums(b.chain, entries, {ChainAssets}, 1) && Sums(b.clearing, entries, {ClearingAssets}, 1)
    && Sums(b.rent, entries, {HouseRent}, -1)
  }

  lemma SortedAll(b: Buckets, order: seq<Account>, balances: map<Account, int>, entries: seq<Entry>)
    requires Projects(order, balances, entries) && AllTally(b, order, entries)
    ensures AllSum(b, entries)
  {
    hide Tallies, Sums, Projects;
    TalliesAreSums(b.custody, order, balances, entries, CUSTODY, -1);
    TalliesAreSums(b.trading, order, balances, entries, TRADING, -1);
    TalliesAreSums(b.chain, order, balances, entries, {ChainAssets}, 1);
    TalliesAreSums(b.clearing, order, balances, entries, {ClearingAssets}, 1);
    TalliesAreSums(b.rent, order, balances, entries, {HouseRent}, -1);
  }

  method Fill(entries: seq<Entry>) returns (b: Buckets)
    ensures AllSum(b, entries)
  {
    var order, balances := ProjectAll(entries);
    b := Buckets(map[], map[], map[], map[], map[]);
    assert AllTally(b, [], entries);
    hide AllTally, AllSum, Sort;
    for i := 0 to |order|
      invariant AllTally(b, order[..i], entries)
    {
      var a := order[i];
      assert order[..i + 1] == order[..i] + [a];
      SortTallies(b, order[..i], entries, a);
      b := Sort(b, a, Normal(a.kind, balances[a]));
    }
    assert order[..|order|] == order;
    SortedAll(b, order, balances, entries);
  }

  /** The assets in which a tier owes more than it holds, and by how much. */
  method Shortfalls(tier: Tier, owed: map<string, int>, held: map<string, int>, withheld: map<string, int>)
    returns (violations: seq<Violation>)
    ensures forall v :: v in violations <==>
      && v.Uncovered? && v.tier == tier && v.asset in owed && v.shortfall > 0
      && v.shortfall == owed[v.asset] - (Get(held, v.asset) - Get(withheld, v.asset))
  {
    violations := [];
    var left := owed.Keys;
    while left != {}
      invariant left <= owed.Keys
      invariant forall v :: v in violations <==>
        && v.Uncovered? && v.tier == tier && v.asset in owed && v.asset !in left && v.shortfall > 0
        && v.shortfall == owed[v.asset] - (Get(held, v.asset) - Get(withheld, v.asset))
    {
      var asset :| asset in left;
      var spendable := Get(held, asset) - Get(withheld, asset);
      if owed[asset] > spendable { violations := violations + [Uncovered(tier, asset, owed[asset] - spendable)]; }
      left := left - {asset};
    }
  }

  /** Reports exactly the tiers and assets that are short, and by how much. */
  method CheckLiabilitiesCovered(entries: seq<Entry>) returns (violations: seq<Violation>)
    ensures forall v :: v in violations <==> Short(entries, v)
  {
    var b := Fill(entries);
    var vault := Shortfalls(Vault, b.custody, b.chain, b.rent);
    var clearing := Shortfalls(Clearing, b.trading, b.clearing, map[]);
    hide SumOf, HasKind;
    violations := vault + clearing;
    forall v
      ensures v in violations <==> Short(entries, v)
    {
      assert v in violations <==> v in vault || v in clearing;
      if v.Uncovered? { Read(b, entries, v.asset); }
    }
  }

  lemma Read(b: Buckets, entries: seq<Entry>, asset: string)
    requires AllSum(b, entries)
    ensures asset in b.custody <==> HasKind(entries, asset, CUSTODY)
    ensures asset in b.trading <==> HasKind(entries, asset, TRADING)
    ensures Get(b.custody, asset) == Owed(entries, asset, CUSTODY)
      && Get(b.trading, asset) == Owed(entries, asset, TRADING)
    ensures Get(b.chain, asset) == Held(entries, asset, ChainAssets)
      && Get(b.rent, asset) == Held(entries, asset, HouseRent)
    ensures Get(b.clearing, asset) == Held(entries, asset, ClearingAssets)
  {
    hide SumOf, HasKind;
  }

  // ------------------------------------------------------------------ when a history passes

  /** On the books of any history the clearing tier always covers its users. The vault tier is short in
      an asset exactly when the prepaid network fees of that asset went negative, and by that much: that
      the books balance is not enough. */
  lemma {:induction false} ShortExactly(history: seq<Posting>, v: Violation)
    ensures Short(LedgerOf(history), v) <==>
      && v.Uncovered? && v.tier == Vault && HasKind(LedgerOf(history), v.asset, CUSTODY)
      && v.shortfall == -Held(LedgerOf(history), v.asset, HouseFees) && v.shortfall > 0
  {
    hide LedgerOf, SumOf, HasKind, OfKinds, InAsset, Held, Owed;
    if v.Uncovered? {
      TierEquations(history, v.asset);
      HouseEarns(history, v.asset, HouseTradingFees);
    }
  }

  lemma {:induction false} CoveredExactly(history: seq<Posting>)
    ensures (forall v :: !Short(LedgerOf(history), v))
       <==> (forall asset :: HasKind(LedgerOf(history), asset, CUSTODY) ==>
             Held(LedgerOf(history), asset, HouseFees) >= 0)
  {
    var books := LedgerOf(history);
    forall v
      ensures Short(books, v) <==>
        && v.Uncovered? && v.tier == Vault && HasKind(books, v.asset, CUSTODY)
        && v.shortfall == -Held(books, v.asset, HouseFees) && v.shortfall > 0
    {
      ShortExactly(history, v);
    }
    hide Short, LedgerOf, HasKind, Held;
    forall asset | HasKind(books, asset, CUSTODY) && Held(books, asset, HouseFees) < 0
      ensures Short(books, Uncovered(Vault, asset, -Held(books, asset, HouseFees)))
    {
    }
  }

  /** A sweep fee paid before the house funded its fee balance: the books balance, and the check fires. */
  lemma {:induction false} UnfundedFeeUncovers()
    ensures var asset := "devnet:SOL";
      Short(LedgerOf([Deposit("d", "alice", asset, 10, None), SweepFee("s", asset, 1)]), Uncovered(Vault, asset, 1))
  {
    hide *;
    DevnetIsQualified();
    FeeUncovers(Deposit("d", "alice", "devnet:SOL", 10, None), SweepFee("s", "devnet:SOL", 1));
  }

  lemma FeeUncovers(d: Posting, f: Posting)
    requires d.Deposit? && d.amount > 0 && d.rent.None? && f == SweepFee(f.id, d.asset, 1) && ClusterOf(d.asset).Some?
    ensures Short(LedgerOf([d, f]), Uncovered(Vault, d.asset, 1))
  {
    hide ClusterOf, Legs, Short, HasKind, SumOf, Held, LedgerOf;
    TwoCommitted(d, f);
    var l, m := Legs(d), Legs(f);
    FeesHeld(l, m, d.asset);
    CustodyIsListed(l, m, d.asset);
    ShortExactly([d, f], Uncovered(Vault, d.asset, 1));
  }

  lemma TwoCommitted(d: Posting, f: Posting)
    requires d.Deposit? && d.amount > 0 && d.rent.None? && f == SweepFee(f.id, d.asset, 1) && ClusterOf(d.asset).Some?
    ensures LedgerOf([d, f]) == Legs(d) + Legs(f)
    ensures Legs(d) == Move(User(d.user, d.asset, ChainAssets), User(d.user, d.asset, UserCustodyAvailable), d.amount)
    ensures Legs(f) == Move(House(d.asset, HouseFees), House(d.asset, ChainAssets), 1)
  {
    DepositLegs(d);
    FeeLegs(f);
    KnownCluster(d.asset);
    hide ClusterOf, Legs;
    assert OneCluster(Legs(d)) && OneCluster(Legs(f));
    assert [d, f][..1] == [d] && [d][..0] == [];
    assert LedgerOf([d]) == [] + Committed(d) == Legs(d);
  }

  lemma CustodyIsListed(l: seq<Entry>, m: seq<Entry>, asset: string)
    requires |l| > 1 && l[1].account.asset == asset && l[1].account.kind in CUSTODY
    ensures HasKind(l + m, asset, CUSTODY)
  {
    assert l[1] in l + m;
  }

  lemma FeesHeld(l: seq<Entry>, m: seq<Entry>, asset: string)
    requires forall e :: e in l ==> e.account.kind != HouseFees
    requires m == Move(House(asset, HouseFees), House(asset, ChainAssets), 1)
    ensures Held(l + m, asset, HouseFees) == -1
  {
    var s := OfKinds(asset, {HouseFees});
    SumAppend(l, m, s);
    SumMove(House(asset, HouseFees), House(asset, ChainAssets), 1, s);
    NoneSelected(l, s);
  }

  lemma {:induction false} NoneSelected(entries: seq<Entry>, s: Entry -> bool)
    requires forall e :: e in entries ==> !s(e)
    ensures SumOf(entries, s) == 0
  {
    if entries == [] {
    } else {
      assert entries[|entries| - 1] in entries;
      NoneSelected(entries[..|entries| - 1], s);
    }
  }

  lemma DevnetIsQualified()
    ensures ClusterOf("devnet:SOL") == Some("devnet")
  {
    var key := "devnet:SOL";
    IndexOfFirst(key, ':', 6);
    assert key[..6] == "devnet" == CLUSTERS[1];
  }

  lemma DepositLegs(p: Posting)
    requires p.Deposit? && p.amount > 0 && p.rent.None?
    ensures Legs(p) == Move(User(p.user, p.asset, ChainAssets), User(p.user, p.asset, UserCustodyAvailable), p.amount)
  {
    var all := Proposed(p);
    assert all[..2][..1][..0] == [] && NonZero(all[..2][..1]) == [all[0]];
    assert NonZero(all[..2]) == [all[0], all[1]];
  }

  lemma FeeLegs(p: Posting)
    requires p.SweepFee? && p.amount > 0
    ensures Legs(p) == Move(House(p.asset, HouseFees), House(p.asset, ChainAssets), p.amount)
  {
    var all := Proposed(p);
    assert all[..1][..0] == [] && NonZero(all[..1]) == [all[0]];
  }
}
