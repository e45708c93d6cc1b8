/** Where the house's own balances come from: over every history each of them is a sum of what was posted for it. */
module HouseFlows {
  import opened MatchingTypes
  import opened Ledger
  import opened LedgerHistory

  // ------------------------------------------------------------------ what each posting brings

  /** Network fees a posting pays in an asset. */
  function FeePaid(p: Posting, asset: string): int {
    match p
    case WithdrawalSettlement(_, _, _, _, fee, native) => if native == asset then Or(fee, 0) else 0
    case Allocation(_, _, _, _, fee, native) => if native == Some(asset) then Or(fee, 0) else 0
    case Deallocation(_, _, _, _, fee, native) => if native == Some(asset) then Or(fee, 0) else 0
    case SweepFee(_, x, n) => if x == asset then n else 0
    case _ => 0
  }

  /** Trading fees earned: both sides', in quote. */
  function Earned(p: Posting, asset: string): int {
    if p.TradeSettlement? && p.quote == asset then p.buyerFee + p.sellerFee else 0
  }

  /** Rent set aside, whether out of a deposit, for a nonce account or for a token account. */
  function Rented(p: Posting, asset: string): int {
    if p.Deposit? && p.asset == asset then Or(p.rent, 0)
    else if (p.NonceAccountRent? || p.TokenAccountRent?) && p.asset == asset then p.amount
    else 0
  }

  /** Funds moved into the clearing address, less those moved back out. */
  function Pooled(p: Posting, asset: string): int {
    if p.Allocation? && p.asset == asset then p.amount
    else if p.Deallocation? && p.asset == asset then -p.amount
    else 0
  }

  function Funded(p: Posting, asset: string): int { if p.HouseFunding? && p.asset == asset then p.amount else 0 }

  /** What arrives at or leaves the vault addresses. */
  function Arrived(p: Posting, asset: string): int {
    (if p.asset != asset then 0
     else match p
       case Deposit(_, _, _, n, _) => n
       case HouseFunding(_, _, n) => n
       case NonceAccountRent(_, _, n) => n
       case TokenAccountRent(_, _, _, n) => n
       case Deallocation(_, _, _, n, _, _) => n
       case WithdrawalSettlement(_, _, _, n, _, _) => -n
       case Allocation(_, _, _, n, _, _) => -n
       case _ => 0) - FeePaid(p, asset)
  }

  predicate IsHouse(kind: AccountType) {
    kind in {HouseTradingFees, HouseRent, HouseFees, ClearingAssets, ChainAssets}
  }

  /** What a posting adds to everything held in accounts of one of these types. */
  function Brings(p: Posting, asset: string, kind: AccountType): int
    requires IsHouse(kind)
  {
    match kind
    case HouseTradingFees => Earned(p, asset)
    case HouseRent => Rented(p, asset)
    case HouseFees => Funded(p, asset) - FeePaid(p, asset)
    case ClearingAssets => Pooled(p, asset)
    case ChainAssets => Arrived(p, asset)
  }

  // ------------------------------------------------------------------ leg by leg

  function Of(a: Account, n: int, asset: string, kind: AccountType): int {
    if a.asset == asset && a.kind == kind then n else 0
  }

  lemma MoveOf(a: Account, b: Account, n: int, asset: string, kind: AccountType)
    ensures SumOf(Move(a, b, n), OfKinds(asset, {kind})) == Of(a, n, asset, kind) - Of(b, n, asset, kind)
  {
    SumMove(a, b, n, OfKinds(asset, {kind}));
  }

  lemma FeeOf(legs: seq<Entry>, fee: Option<int>, native: Option<string>, asset: string, kind: AccountType)
    ensures var s := OfKinds(asset, {kind});
      SumOf(legs + FeeMove(fee, native), s)
        == SumOf(legs, s)
           + if native == Some(asset)
             then (if kind == HouseFees then Or(fee, 0) else if kind == ChainAssets then -Or(fee, 0) else 0) else 0
  {
    var s := OfKinds(asset, {kind});
    SumAppend(legs, FeeMove(fee, native), s);
    if native.Some? {
      MoveOf(House(native.value, HouseFees), House(native.value, ChainAssets), Or(fee, 0), asset, kind);
    }
  }

  lemma TwoMovesOf(a: Account, b: Account, c: Account, d: Account, n: int, fee: Option<int>, native: Option<string>,
                   asset: string, kind: AccountType)
    ensures SumOf(Move(a, b, n) + Move(c, d, n) + FeeMove(fee, native), OfKinds(asset, {kind}))
         == Of(a, n, asset, kind) - Of(b, n, asset, kind) + Of(c, n, asset, kind) - Of(d, n, asset, kind)
            + if native == Some(asset)
              then (if kind == HouseFees then Or(fee, 0) else if kind == ChainAssets then -Or(fee, 0) else 0) else 0
  {
    FeeOf(Move(a, b, n) + Move(c, d, n), fee, native, asset, kind);
    SumAppend(Move(a, b, n), Move(c, d, n), OfKinds(asset, {kind}));
    MoveOf(a, b, n, asset, kind);
    MoveOf(c, d, n, asset, kind);
    hide SumOf, FeeMove, Move;
  }

  lemma DepositBrings(p: Posting, asset: string, kind: AccountType)
    requires p.Deposit? && IsHouse(kind)
    ensures Normal(kind, SumOf(Proposed(p), OfKinds(asset, {kind}))) == Brings(p, asset, kind)
  {
    SumSplit(User(p.user, p.asset, ChainAssets), User(p.user, p.asset, UserCustodyAvailable), House(p.asset, HouseRent),
             p.amount, Or(p.rent, 0), OfKinds(asset, {kind}));
    hide SumOf, Split;
  }

  lemma TradeBrings(p: Posting, asset: string, kind: AccountType)
    requires p.TradeSettlement? && IsHouse(kind)
    ensures Normal(kind, SumOf(Proposed(p), OfKinds(asset, {kind}))) == Brings(p, asset, kind)
  {
    var s := OfKinds(asset, {kind});
    var a, b, c := User(p.buyer, p.quote, UserOrderLocked), User(p.seller, p.quote, UserTradingAvailable),
      House(p.quote, HouseTradingFees);
    var d, e, n, m := User(p.seller, p.asset, UserOrderLocked), User(p.buyer, p.asset, UserTradingAvailable),
      p.notional + p.buyerFee, p.buyerFee + p.sellerFee;
    SumSplit(a, b, c, n, m, s);
    MoveOf(d, e, p.amount, asset, kind);
    SumAppend(Split(a, b, c, n, m), Move(d, e, p.amount), s);
    hide SumOf, Split, Move;
  }

  predicate BearsFee(p: Posting) { p.WithdrawalSettlement? || p.Allocation? || p.Deallocation? }

  lemma FeeBearerBrings(p: Posting, asset: string, kind: AccountType)
    requires BearsFee(p) && IsHouse(kind)
    ensures Normal(kind, SumOf(Proposed(p), OfKinds(asset, {kind}))) == Brings(p, asset, kind)
  {
    hide SumOf, Move, FeeMove, OfKinds, Or;
    match p
    case WithdrawalSettlement(_, u, x, n, fee, native) =>
      FeeOf(Move(User(u, x, UserCustodyLocked), User(u, x, ChainAssets), n), fee, Some(native), asset, kind);
      MoveOf(User(u, x, UserCustodyLocked), User(u, x, ChainAssets), n, asset, kind);
    case Allocation(_, u, x, n, fee, native) =>
      TwoMovesOf(User(u, x, UserCustodyLocked), User(u, x, ChainAssets),
                 House(x, ClearingAssets), User(u, x, UserTradingAvailable), n, fee, native, asset, kind);
    case Deallocation(_, u, x, n, fee, native) =>
      TwoMovesOf(User(u, x, UserTradingLocked), House(x, ClearingAssets),
                 User(u, x, ChainAssets), User(u, x, UserCustodyAvailable), n, fee, native, asset, kind);
  }

  lemma PlainBrings(p: Posting, asset: string, kind: AccountType)
    requires !p.Deposit? && !p.TradeSettlement? && !BearsFee(p) && IsHouse(kind)
    ensures Normal(kind, SumOf(Proposed(p), OfKinds(asset, {kind}))) == Brings(p, asset, kind)
  {
    hide SumOf, Move, FeeMove, OfKinds;
    match p
    case WithdrawalLock(_, u, x, n) =>
      MoveOf(User(u, x, UserCustodyAvailable), User(u, x, UserCustodyLocked), n, asset, kind);
    case WithdrawalRelease(_, u, x, n) =>
      MoveOf(User(u, x, UserCustodyLocked), User(u, x, UserCustodyAvailable), n, asset, kind);
    case HouseFunding(_, x, n) => MoveOf(House(x, ChainAssets), House(x, HouseFees), n, asset, kind);
    case NonceAccountRent(_, x, n) => MoveOf(House(x, ChainAssets), House(x, HouseRent), n, asset, kind);
    case SweepFee(_, x, n) => MoveOf(House(x, HouseFees), House(x, ChainAssets), n, asset, kind);
    case TokenAccountRent(_, u, x, n) => MoveOf(User(u, x, ChainAssets), House(x, HouseRent), n, asset, kind);
    case OrderHold(_, u, x, n) => MoveOf(User(u, x, UserTradingAvailable), User(u, x, UserOrderLocked), n, asset, kind);
    case OrderRelease(_, u, x, n) =>
      MoveOf(User(u, x, UserOrderLocked), User(u, x, UserTradingAvailable), n, asset, kind);
    case TradingLock(_, u, x, n) =>
      MoveOf(User(u, x, UserTradingAvailable), User(u, x, UserTradingLocked), n, asset, kind);
    case TradingRelease(_, u, x, n) =>
      MoveOf(User(u, x, UserTradingLocked), User(u, x, UserTradingAvailable), n, asset, kind);
  }

  lemma PostingBrings(p: Posting, asset: string, kind: AccountType)
    requires IsHouse(kind)
    ensures Normal(kind, SumOf(Legs(p), OfKinds(asset, {kind}))) == Brings(p, asset, kind)
  {
    SumNonZero(Proposed(p), OfKinds(asset, {kind}));
    hide SumOf, OfKinds, Proposed, NonZero, Brings;
    if p.Deposit? { DepositBrings(p, asset, kind); }
    else if p.TradeSettlement? { TradeBrings(p, asset, kind); }
    else if BearsFee(p) { FeeBearerBrings(p, asset, kind); }
    else { PlainBrings(p, asset, kind); }
  }

  // ------------------------------------------------------------------ over every history

  /** The sum of what the committed postings of a history brought. */
  ghost function BroughtOver(history: seq<Posting>, asset: string, kind: AccountType): int
    requires IsHouse(kind)
  {
    if history == [] then 0
    else BroughtOver(history[..|history| - 1], asset, kind)
         + if Commits(history[|history| - 1]) then Brings(history[|history| - 1], asset, kind) else 0
  }

  /** In every history: the house's trading fees are the fees of both sides of every trade; the clearing address
      holds what was allocated less what was deallocated; rent is all that was set aside as rent; prepaid fees are
      the funding less every network fee; and the vaults hold what arrived less what left. */
  lemma {:induction false} HeldIsBrought(history: seq<Posting>, asset: string, kind: AccountType)
    requires IsHouse(kind)
    ensures Held(LedgerOf(history), asset, kind) == BroughtOver(history, asset, kind)
  {
    if history == [] {
    } else {
      var most, last := history[..|history| - 1], history[|history| - 1];
      HeldIsBrought(most, asset, kind);
      hide Commits, Legs, Brings, OfKinds, SumOf;
      PostingBrings(last, asset, kind);
      SumAppend(LedgerOf(most), Committed(last), OfKinds(asset, {kind}));
      assert SumOf([], OfKinds(asset, {kind})) == 0 by { NothingSums(asset, kind); }
    }
  }

  lemma NothingSums(asset: string, kind: AccountType)
    ensures SumOf([], OfKinds(asset, {kind})) == 0
  {
  }
}
