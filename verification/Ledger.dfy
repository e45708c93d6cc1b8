/** The ledger: accounts, entries, the one way a transaction is built, and every posting there is. */
module Ledger {
  import opened MatchingTypes
  import opened Outcomes

  datatype AccountType =
    | UserCustodyAvailable | UserCustodyLocked
    | UserTradingAvailable | UserOrderLocked | UserTradingLocked
    | ClearingAssets | HouseTradingFees
    | ChainAssets | HouseFees | HouseRent | External

  const TRADING := {UserTradingAvailable, UserOrderLocked, UserTradingLocked}
  const CUSTODY := {UserCustodyAvailable, UserCustodyLocked}
  const USER := TRADING + CUSTODY

  /** Accounts that must never project below zero in their own sign: all but the outside world. */
  const NON_NEGATIVE := USER + {ClearingAssets, HouseTradingFees, ChainAssets, HouseRent, HouseFees}

  /** Each tier's on-chain holdings together with everything they answer for. */
  const CLEARING_TIER := TRADING + {ClearingAssets, HouseTradingFees}
  const VAULT_TIER := CUSTODY + {ChainAssets, HouseRent, HouseFees}

  /** An account is the triple of owner, asset and type. House accounts have no owner. */
  datatype Account = Account(owner: Option<string>, asset: string, kind: AccountType)

  datatype Direction = Debit | Credit

  datatype Entry = Entry(account: Account, asset: string, amount: int, direction: Direction) {
    /** Debit-positive. */
    function Signed(): int { if direction == Debit then amount else -amount }
  }

  datatype Transaction = Transaction(kind: string, referenceType: string, referenceId: string, entries: seq<Entry>)

  function DebitTo(account: Account, amount: int): Entry { Entry(account, account.asset, amount, Debit) }
  function CreditTo(account: Account, amount: int): Entry { Entry(account, account.asset, amount, Credit) }
  function User(user: string, asset: string, kind: AccountType): Account { Account(Some(user), asset, kind) }
  function House(asset: string, kind: AccountType): Account { Account(None, asset, kind) }

  /** A debit-positive balance in the account's own sign: assets are debit-normal, all else credit-normal. */
  function Normal(kind: AccountType, balance: int): int {
    if kind == ClearingAssets || kind == ChainAssets then balance else -balance
  }

  // ------------------------------------------------------------------ sums over entries

  /** The debit-positive sum of the selected entries: the only kind of balance there is. */
  ghost function SumOf(entries: seq<Entry>, selected: Entry -> bool): int {
    if entries == [] then 0
    else SumOf(entries[..|entries| - 1], selected) + Part(entries[|entries| - 1], selected)
  }

  ghost function Part(e: Entry, selected: Entry -> bool): int { if selected(e) then e.Signed() else 0 }

  ghost function InAsset(asset: string): Entry -> bool { (e: Entry) => e.asset == asset }
  ghost function OfAccount(account: Account): Entry -> bool { (e: Entry) => e.account == account }

  ghost function OfKinds(asset: string, kinds: set<AccountType>): Entry -> bool {
    (e: Entry) => e.account.asset == asset && e.account.kind in kinds
  }

  ghost function OfOwner(owner: string, asset: string, kinds: set<AccountType>): Entry -> bool {
    (e: Entry) => e.account.owner == Some(owner) && e.account.asset == asset && e.account.kind in kinds
  }

  ghost function Balance(entries: seq<Entry>, account: Account): int { SumOf(entries, OfAccount(account)) }

  lemma {:induction false} SumAppend(a: seq<Entry>, b: seq<Entry>, selected: Entry -> bool)
    ensures SumOf(a + b, selected) == SumOf(a, selected) + SumOf(b, selected)
    decreases |b|
  {
    if b == [] {
      assert a + b == a;
    } else {
      assert (a + b)[..|a + b| - 1] == a + b[..|b| - 1];
      SumAppend(a, b[..|b| - 1], selected);
    }
  }

  lemma SumOne(e: Entry, selected: Entry -> bool)
    ensures SumOf([e], selected) == Part(e, selected)
  {
    assert [e][..0] == [];
  }

  lemma SumPush(entries: seq<Entry>, e: Entry, selected: Entry -> bool)
    ensures SumOf(entries + [e], selected) == SumOf(entries, selected) + Part(e, selected)
  {
    SumAppend(entries, [e], selected);
    SumOne(e, selected);
  }

  // ------------------------------------------------------------------ building a transaction

  const CLUSTERS: seq<string> := ["localnet", "devnet", "testnet", "mainnet-beta"]

  function IndexOf(key: string, c: char): Option<nat>
    ensures IndexOf(key, c).Some? ==> IndexOf(key, c).value < |key| && key[IndexOf(key, c).value] == c
  {
    if key == "" then None
    else if key[0] == c then Some(0)
    else match IndexOf(key[1..], c)
      case None => None
      case Some(i) => Some(i + 1)
  }

  lemma {:induction false} IndexOfFirst(key: string, c: char, i: nat)
    requires i < |key| && key[i] == c && forall j :: 0 <= j < i ==> key[j] != c
    ensures IndexOf(key, c) == Some(i)
  {
    if i == 0 {
    } else {
      IndexOfFirst(key[1..], c, i - 1);
    }
  }

  /** The cluster an asset key is qualified by, if it is qualified at all. */
  function ClusterOf(key: string): Option<string> {
    match IndexOf(key, ':')
    case None => None
    case Some(i) => if key[..i] in CLUSTERS && key[i + 1..] != "" then Some(key[..i]) else None
  }

  lemma KnownCluster(key: string)
    requires ClusterOf(key).Some?
    ensures ClusterOf(key).value in CLUSTERS
  {
  }

  predicate GoodEntry(e: Entry) { e.amount > 0 && e.asset == e.account.asset }

  predicate OneCluster(entries: seq<Entry>) {
    exists cluster :: cluster in CLUSTERS && forall e :: e in entries ==> ClusterOf(e.asset) == Some(cluster)
  }

  ghost predicate Balances(entries: seq<Entry>) { forall asset :: SumOf(entries, InAsset(asset)) == 0 }

  /** Two entries or more, all positive, all on one cluster, and balanced for every asset on its own. */
  ghost predicate Acceptable(entries: seq<Entry>) {
    |entries| >= 2 && (forall e :: e in entries ==> GoodEntry(e)) && OneCluster(entries) && Balances(entries)
  }

  /** The only way a transaction comes to exist: nothing unbalanced, mixed or empty gets through. */
  method BuildTransaction(kind: string, referenceType: string, referenceId: string, entries: seq<Entry>)
    returns (r: Result<Transaction>)
    ensures r.Success? <==> Acceptable(entries)
    ensures r.Success? ==> r.value == Transaction(kind, referenceType, referenceId, entries)
  {
    if |entries| < 2 { return Failure("transaction_needs_two_entries"); }
    for i := 0 to |entries|
      invariant forall j :: 0 <= j < i ==> GoodEntry(entries[j])
    {
      var e := entries[i];
      assert e in entries;
      if e.amount < 0 { return Failure("entry_amount_negative"); }
      if e.amount == 0 { return Failure("entry_amount_zero"); }
      if e.asset != e.account.asset { return Failure("entry_asset_mismatch"); }
    }
    var cluster: Option<string> := None;
    for i := 0 to |entries|
      invariant i > 0 <==> cluster.Some?
      invariant cluster.Some? ==> cluster.value in CLUSTERS
      invariant forall j :: 0 <= j < i ==> ClusterOf(entries[j].asset) == cluster
    {
      var parsed := ClusterOf(entries[i].asset);
      assert entries[i] in entries && entries[0] in entries;
      if parsed.None? { return Failure("entry_asset_not_cluster_qualified"); }
      if cluster.None? {
        cluster := parsed;
      } else if parsed != cluster {
        return Failure("cross_cluster_transaction");
      }
    }
    assert OneCluster(entries);
    var balanced := IsBalanced(entries);
    if !balanced { return Failure("unbalanced_transaction"); }
    return Success(Transaction(kind, referenceType, referenceId, entries));
  }

  /** One bucket per asset, then a look for a residual. */
  method IsBalanced(entries: seq<Entry>) returns (ok: bool)
    ensures ok <==> Balances(entries)
  {
    var byAsset: map<string, int> := map[];
    for i := 0 to |entries|
      invariant forall asset ::
        (if asset in byAsset then byAsset[asset] else 0) == SumOf(entries[..i], InAsset(asset))
    {
      var e := entries[i];
      forall asset
        ensures SumOf(entries[..i + 1], InAsset(asset))
             == SumOf(entries[..i], InAsset(asset)) + if e.asset == asset then e.Signed() else 0
      {
        assert entries[..i + 1] == entries[..i] + [e];
        SumPush(entries[..i], e, InAsset(asset));
      }
      byAsset := byAsset[e.asset := (if e.asset in byAsset then byAsset[e.asset] else 0) + e.Signed()];
    }
    assert entries[..|entries|] == entries;
    ok := forall asset :: asset in byAsset ==> byAsset[asset] == 0;
    if !ok {
      var asset :| asset in byAsset && byAsset[asset] != 0;
      assert SumOf(entries, InAsset(asset)) != 0;
    }
  }

  // ------------------------------------------------------------------ the postings

  datatype Posting =
    | Deposit(id: string, user: string, asset: string, amount: int, rent: Option<int>)
    | WithdrawalLock(id: string, user: string, asset: string, amount: int)
    | WithdrawalRelease(id: string, user: string, asset: string, amount: int)
    | WithdrawalSettlement(id: string, user: string, asset: string, amount: int, networkFee: Option<int>,
                           nativeAsset: string)
    | HouseFunding(id: string, asset: string, amount: int)
    | NonceAccountRent(id: string, asset: string, amount: int)
    | SweepFee(id: string, asset: string, amount: int)
    | TokenAccountRent(id: string, user: string, asset: string, amount: int)
    | OrderHold(id: string, user: string, asset: string, amount: int)
    | OrderRelease(id: string, user: string, asset: string, amount: int)
    | Allocation(id: string, user: string, asset: string, amount: int, networkFee: Option<int>,
                 feeAsset: Option<string>)
    | Deallocation(id: string, user: string, asset: string, amount: int, networkFee: Option<int>,
                   feeAsset: Option<string>)
    | TradingLock(id: string, user: string, asset: string, amount: int)
    | TradingRelease(id: string, user: string, asset: string, amount: int)
    | TradeSettlement(id: string, buyer: string, seller: string, asset: string, quote: string,
                      amount: int, notional: int, buyerFee: int, sellerFee: int)

  /** A balanced pair of entries in one asset. */
  function Move(debited: Account, credited: Account, amount: int): seq<Entry> {
    [DebitTo(debited, amount), CreditTo(credited, amount)]
  }

  /** One debit against two credits, `share` of it to the second. */
  function Split(debited: Account, credited: Account, sharer: Account, amount: int, share: int): seq<Entry> {
    [DebitTo(debited, amount), CreditTo(credited, amount - share), CreditTo(sharer, share)]
  }

  /** A zero-valued leg is left out, because the ledger refuses zero entries. */
  function NonZero(legs: seq<Entry>): seq<Entry> {
    if legs == [] then []
    else if legs[|legs| - 1].amount == 0 then NonZero(legs[..|legs| - 1])
    else NonZero(legs[..|legs| - 1]) + [legs[|legs| - 1]]
  }

  function Or(value: Option<int>, otherwise: int): int { if value.Some? then value.value else otherwise }

  /** The house bears the network fee of a movement, in the native asset, out of its prepaid balance. */
  function FeeMove(fee: Option<int>, native: Option<string>): seq<Entry> {
    if native.None? then []
    else Move(House(native.value, HouseFees), House(native.value, ChainAssets), Or(fee, 0))
  }

  function FeeRefusal(fee: Option<int>, native: Option<string>): Option<string> {
    if Or(fee, 0) < 0 then Some("fee_negative")
    else if Or(fee, 0) > 0 && native.None? then Some("fee_asset_missing")
    else None
  }

  /** A posting's own checks, before any entry is built. */
  function Refusal(p: Posting): Option<string> {
    if p.amount <= 0 then Some("amount_not_positive")
    else match p
      case Deposit(_, _, _, amount, rent) =>
        if Or(rent, 0) < 0 then Some("deposit_rent_negative")
        else if Or(rent, 0) > amount then Some("deposit_rent_exceeds_amount") else None
      case WithdrawalSettlement(_, _, _, _, fee, native) => FeeRefusal(fee, Some(native))
      case Allocation(_, _, _, _, fee, native) => FeeRefusal(fee, native)
      case Deallocation(_, _, _, _, fee, native) => FeeRefusal(fee, native)
      case TradeSettlement(_, _, _, base, quote, _, notional, buyerFee, sellerFee) =>
        if notional < 0 || buyerFee < 0 || sellerFee < 0 then Some("trade_value_negative")
        else if sellerFee > notional then Some("trade_seller_fee_exceeds_notional")
        else if base == quote then Some("trade_assets_identical") else None
      case _ => None
  }

  /** Every leg of a posting, the zero-valued ones included. */
  function Proposed(p: Posting): seq<Entry> {
    match p
    case Deposit(_, user, asset, amount, rent) =>
      Split(User(user, asset, ChainAssets), User(user, asset, UserCustodyAvailable), House(asset, HouseRent),
            amount, Or(rent, 0))
    case WithdrawalLock(_, user, asset, amount) =>
      Move(User(user, asset, UserCustodyAvailable), User(user, asset, UserCustodyLocked), amount)
    case WithdrawalRelease(_, user, asset, amount) =>
      Move(User(user, asset, UserCustodyLocked), User(user, asset, UserCustodyAvailable), amount)
    case WithdrawalSettlement(_, user, asset, amount, fee, native) =>
      Move(User(user, asset, UserCustodyLocked), User(user, asset, ChainAssets), amount) + FeeMove(fee, Some(native))
    case HouseFunding(_, asset, amount) => Move(House(asset, ChainAssets), House(asset, HouseFees), amount)
    case NonceAccountRent(_, asset, amount) => Move(House(asset, ChainAssets), House(asset, HouseRent), amount)
    case SweepFee(_, asset, amount) => Move(House(asset, HouseFees), House(asset, ChainAssets), amount)
    case TokenAccountRent(_, user, asset, amount) =>
      Move(User(user, asset, ChainAssets), House(asset, HouseRent), amount)
    case OrderHold(_, user, asset, amount) =>
      Move(User(user, asset, UserTradingAvailable), User(user, asset, UserOrderLocked), amount)
    case OrderRelease(_, user, asset, amount) =>
      Move(User(user, asset, UserOrderLocked), User(user, asset, UserTradingAvailable), amount)
    case Allocation(_, user, asset, amount, fee, native) =>
      Move(User(user, asset, UserCustodyLocked), User(user, asset, ChainAssets), amount)
      + Move(House(asset, ClearingAssets), User(user, asset, UserTradingAvailable), amount) + FeeMove(fee, native)
    case Deallocation(_, user, asset, amount, fee, native) =>
      Move(User(user, asset, UserTradingLocked), House(asset, ClearingAssets), amount)
      + Move(User(user, asset, ChainAssets), User(user, asset, UserCustodyAvailable), amount) + FeeMove(fee, native)
    case TradingLock(_, user, asset, amount) =>
      Move(User(user, asset, UserTradingAvailable), User(user, asset, UserTradingLocked), amount)
    case TradingRelease(_, user, asset, amount) =>
      Move(User(user, asset, UserTradingLocked), User(user, asset, UserTradingAvailable), amount)
    case TradeSettlement(_, buyer, seller, base, quote, qty, notional, buyerFee, sellerFee) =>
      Split(User(buyer, quote, UserOrderLocked), User(seller, quote, UserTradingAvailable),
            House(quote, HouseTradingFees), notional + buyerFee, buyerFee + sellerFee)
      + Move(User(seller, base, UserOrderLocked), User(buyer, base, UserTradingAvailable), qty)
  }

  function Legs(p: Posting): seq<Entry> { NonZero(Proposed(p)) }
}
