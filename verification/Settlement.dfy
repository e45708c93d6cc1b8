/** Orders and the ledger together: holds, fills, releases and deallocations, over every run. */
module Settlement {
  import opened MatchingTypes
  import opened Orders
  import opened Ledger
  import opened LedgerHistory

  // ------------------------------------------------------------------ what a posting does to a user's account

  /** What a user is owed in one account: its credit balance over the whole history. */
  ghost function Owes(history: seq<Posting>, user: string, asset: string, kind: AccountType): int {
    -Balance(LedgerOf(history), User(user, asset, kind))
  }

  function Sided(mine: bool, kind: AccountType, from: AccountType, to: AccountType, n: int): int {
    if !mine then 0 else (if kind == to then n else 0) - (if kind == from then n else 0)
  }

  /** How much a committed posting adds to one of a user's accounts. */
  function Credited(p: Posting, user: string, asset: string, kind: AccountType): int {
    match p
    case Deposit(_, u, x, n, rent) =>
      if u == user && x == asset && kind == UserCustodyAvailable then n - Or(rent, 0) else 0
    case WithdrawalLock(_, u, x, n) => Sided(u == user && x == asset, kind, UserCustodyAvailable, UserCustodyLocked, n)
    case WithdrawalRelease(_, u, x, n) =>
      Sided(u == user && x == asset, kind, UserCustodyLocked, UserCustodyAvailable, n)
    case WithdrawalSettlement(_, u, x, n, _, _) =>
      if u == user && x == asset && kind == UserCustodyLocked then -n else 0
    case OrderHold(_, u, x, n) => Sided(u == user && x == asset, kind, UserTradingAvailable, UserOrderLocked, n)
    case OrderRelease(_, u, x, n) => Sided(u == user && x == asset, kind, UserOrderLocked, UserTradingAvailable, n)
    case TradingLock(_, u, x, n) => Sided(u == user && x == asset, kind, UserTradingAvailable, UserTradingLocked, n)
    case TradingRelease(_, u, x, n) => Sided(u == user && x == asset, kind, UserTradingLocked, UserTradingAvailable, n)
    case Allocation(_, u, x, n, _, _) =>
      Sided(u == user && x == asset, kind, UserCustodyLocked, UserTradingAvailable, n)
    case Deallocation(_, u, x, n, _, _) =>
      Sided(u == user && x == asset, kind, UserTradingLocked, UserCustodyAvailable, n)
    case TradeSettlement(_, buyer, seller, base, quote, qty, notional, buyerFee, sellerFee) =>
      (if buyer == user && quote == asset && kind == UserOrderLocked then -(notional + buyerFee) else 0)
      + (if seller == user && quote == asset && kind == UserTradingAvailable then notional - sellerFee else 0)
      + (if seller == user && base == asset && kind == UserOrderLocked then -qty else 0)
      + (if buyer == user && base == asset && kind == UserTradingAvailable then qty else 0)
    case _ => 0
  }

  lemma MoveCredits(a: Account, b: Account, n: int, to: Account)
    ensures SumOf(Move(a, b, n), OfAccount(to)) == (if a == to then n else 0) - (if b == to then n else 0)
  {
    SumMove(a, b, n, OfAccount(to));
  }

  lemma FeeCredits(legs: seq<Entry>, fee: Option<int>, native: Option<string>, to: Account)
    requires to.owner.Some?
    ensures SumOf(legs + FeeMove(fee, native), OfAccount(to)) == SumOf(legs, OfAccount(to))
  {
    SumAppend(legs, FeeMove(fee, native), OfAccount(to));
    if native.Some? { MoveCredits(House(native.value, HouseFees), House(native.value, ChainAssets), Or(fee, 0), to); }
  }

  lemma TwoMovesCredit(a: Account, b: Account, c: Account, d: Account, n: int, fee: Option<int>,
                       native: Option<string>, to: Account)
    requires to.owner.Some?
    ensures SumOf(Move(a, b, n) + Move(c, d, n) + FeeMove(fee, native), OfAccount(to))
         == (if a == to then n else 0) - (if b == to then n else 0) + (if c == to then n else 0)
           - (if d == to then n else 0)
  {
    FeeCredits(Move(a, b, n) + Move(c, d, n), fee, native, to);
    SumAppend(Move(a, b, n), Move(c, d, n), OfAccount(to));
    MoveCredits(a, b, n, to);
    MoveCredits(c, d, n, to);
  }

  lemma TradeCredits(p: Posting, user: string, asset: string, kind: AccountType)
    requires p.TradeSettlement? && kind in USER
    ensures -SumOf(Proposed(p), OfAccount(User(user, asset, kind))) == Credited(p, user, asset, kind)
  {
    var to := User(user, asset, kind);
    var a, b, c := User(p.buyer, p.quote, UserOrderLocked), User(p.seller, p.quote, UserTradingAvailable),
      House(p.quote, HouseTradingFees);
    var d, e, n, m := User(p.seller, p.asset, UserOrderLocked), User(p.buyer, p.asset, UserTradingAvailable),
      p.notional + p.buyerFee, p.buyerFee + p.sellerFee;
    SumSplit(a, b, c, n, m, OfAccount(to));
    MoveCredits(d, e, p.amount, to);
    SumAppend(Split(a, b, c, n, m), Move(d, e, p.amount), OfAccount(to));
    hide SumOf, Split, Move;
  }

  lemma DepositCredits(p: Posting, user: string, asset: string, kind: AccountType)
    requires p.Deposit? && kind in USER
    ensures -SumOf(Proposed(p), OfAccount(User(user, asset, kind))) == Credited(p, user, asset, kind)
  {
    SumSplit(User(p.user, p.asset, ChainAssets), User(p.user, p.asset, UserCustodyAvailable), House(p.asset, HouseRent),
             p.amount, Or(p.rent, 0), OfAccount(User(user, asset, kind)));
    hide SumOf, Split;
  }

  lemma PlainCredits(p: Posting, user: string, asset: string, kind: AccountType)
    requires !p.Deposit? && !p.TradeSettlement? && kind in USER
    ensures -SumOf(Proposed(p), OfAccount(User(user, asset, kind))) == Credited(p, user, asset, kind)
  {
    hide SumOf, Move, FeeMove, OfAccount;
    var to := User(user, asset, kind);
    match p
    case WithdrawalLock(_, u, x, n) =>
      MoveCredits(User(u, x, UserCustodyAvailable), User(u, x, UserCustodyLocked), n, to);
    case WithdrawalRelease(_, u, x, n) =>
      MoveCredits(User(u, x, UserCustodyLocked), User(u, x, UserCustodyAvailable), n, to);
    case WithdrawalSettlement(_, u, x, n, fee, native) =>
      FeeCredits(Move(User(u, x, UserCustodyLocked), User(u, x, ChainAssets), n), fee, Some(native), to);
      MoveCredits(User(u, x, UserCustodyLocked), User(u, x, ChainAssets), n, to);
    case HouseFunding(_, x, n) => MoveCredits(House(x, ChainAssets), House(x, HouseFees), n, to);
    case NonceAccountRent(_, x, n) => MoveCredits(House(x, ChainAssets), House(x, HouseRent), n, to);
    case SweepFee(_, x, n) => MoveCredits(House(x, HouseFees), House(x, ChainAssets), n, to);
    case TokenAccountRent(_, u, x, n) => MoveCredits(User(u, x, ChainAssets), House(x, HouseRent), n, to);
    case OrderHold(_, u, x, n) => MoveCredits(User(u, x, UserTradingAvailable), User(u, x, UserOrderLocked), n, to);
    case OrderRelease(_, u, x, n) => MoveCredits(User(u, x, UserOrderLocked), User(u, x, UserTradingAvailable), n, to);
    case Allocation(_, u, x, n, fee, native) =>
      TwoMovesCredit(User(u, x, UserCustodyLocked), User(u, x, ChainAssets),
                     House(x, ClearingAssets), User(u, x, UserTradingAvailable), n, fee, native, to);
    case Deallocation(_, u, x, n, fee, native) =>
      TwoMovesCredit(User(u, x, UserTradingLocked), House(x, ClearingAssets),
                     User(u, x, ChainAssets), User(u, x, UserCustodyAvailable), n, fee, native, to);
    case TradingLock(_, u, x, n) => MoveCredits(User(u, x, UserTradingAvailable), User(u, x, UserTradingLocked), n, to);
    case TradingRelease(_, u, x, n) =>
      MoveCredits(User(u, x, UserTradingLocked), User(u, x, UserTradingAvailable), n, to);
  }

  /** What every committed posting does to each account of each user, in both tiers. */
  lemma {:induction false} PostCredits(history: seq<Posting>, p: Posting, user: string, asset: string,
                                       kind: AccountType)
    requires Commits(p) && kind in USER
    ensures Owes(history + [p], user, asset, kind) == Owes(history, user, asset, kind) + Credited(p, user, asset, kind)
  {
    var s := OfAccount(User(user, asset, kind));
    SumNonZero(Proposed(p), s);
    if p.Deposit? { DepositCredits(p, user, asset, kind); }
    else if p.TradeSettlement? { TradeCredits(p, user, asset, kind); }
    else { PlainCredits(p, user, asset, kind); }
    var after := history + [p];
    assert after[..|after| - 1] == history && after[|after| - 1] == p;
    SumAppend(LedgerOf(history), Legs(p), s);
    hide SumOf, Proposed, OfAccount;
  }

  // ------------------------------------------------------------------ orders and locks

  datatype Order = Order(
    id: string, user: string, side: Side, base: string, quote: string, reserve: nat, qty: nat, hold: nat,
    fills: seq<Charge>, live: bool, released: nat)
  {
    function HoldAsset(): string { if side == Buy then quote else base }

    /** What fills have taken from the hold: value and fee in quote for a buy, bare quantity for a sell. */
    function Consumed(): nat { if side == Buy then TotalCost(fills) else TotalQty(fills) }

    /** What is still reserved. A finished order reserves nothing. */
    function Residue(): int { if live then hold - Consumed() else 0 }

    function Remaining(): int { qty - TotalQty(fills) }
  }

  datatype Lock = Lock(id: string, user: string, asset: string, amount: nat, pending: bool)

  datatype Exchange = Exchange(history: seq<Posting>, orders: seq<Order>, locks: seq<Lock>)

  function Mine(o: Order, user: string, asset: string): int {
    if o.user == user && o.HoldAsset() == asset then o.Residue() else 0
  }

  /** The sum of a user's outstanding order residues in an asset. */
  function HeldBy(orders: seq<Order>, user: string, asset: string): int {
    if orders == [] then 0 else HeldBy(orders[..|orders| - 1], user, asset) + Mine(orders[|orders| - 1], user, asset)
  }

  function Pending(l: Lock, user: string, asset: string): int {
    if l.user == user && l.asset == asset && l.pending then l.amount else 0
  }

  function LockedBy(locks: seq<Lock>, user: string, asset: string): int {
    if locks == [] then 0 else LockedBy(locks[..|locks| - 1], user, asset) + Pending(locks[|locks| - 1], user, asset)
  }

  lemma {:induction false} HeldUpdate(orders: seq<Order>, i: nat, o: Order, user: string, asset: string)
    requires i < |orders|
    ensures HeldBy(orders[i := o], user, asset)
         == HeldBy(orders, user, asset) - Mine(orders[i], user, asset) + Mine(o, user, asset)
  {
    var n := |orders| - 1;
    if i == n {
      assert orders[i := o][..n] == orders[..n];
    } else {
      assert orders[i := o][..n] == orders[..n][i := o];
      HeldUpdate(orders[..n], i, o, user, asset);
    }
  }

  lemma {:induction false} LockedUpdate(locks: seq<Lock>, i: nat, l: Lock, user: string, asset: string)
    requires i < |locks|
    ensures LockedBy(locks[i := l], user, asset)
         == LockedBy(locks, user, asset) - Pending(locks[i], user, asset) + Pending(l, user, asset)
  {
    var n := |locks| - 1;
    if i == n {
      assert locks[i := l][..n] == locks[..n];
    } else {
      assert locks[i := l][..n] == locks[..n][i := l];
      LockedUpdate(locks[..n], i, l, user, asset);
    }
  }

  // ------------------------------------------------------------------ the invariant

  /** An order's hold is the reserve of its whole quantity, its fills stay within its quantity and its hold,
      and once it is finished everything it held was either consumed or released. */
  ghost predicate OrderOk(o: Order) {
    && o.hold == (if o.side == Buy then BuyReserve(o.reserve, o.qty) else o.qty)
    && TotalQty(o.fills) <= o.qty
    && o.Consumed() <= o.hold
    && ClusterOf(o.HoldAsset()).Some?
    && o.released == (if o.live then 0 else o.hold - o.Consumed())
  }

  ghost predicate LockOk(l: Lock) { l.amount > 0 && ClusterOf(l.asset).Some? }

  /** No trading balance is negative, and the locked ones are exactly what orders and locks account for. */
  ghost predicate Squares(s: Exchange, user: string, asset: string) {
    && Owes(s.history, user, asset, UserTradingAvailable) >= 0
    && Owes(s.history, user, asset, UserOrderLocked) == HeldBy(s.orders, user, asset)
    && Owes(s.history, user, asset, UserTradingLocked) == LockedBy(s.locks, user, asset)
  }

  ghost predicate AllSquare(s: Exchange) { forall user, asset :: Squares(s, user, asset) }

  ghost predicate Inv(s: Exchange) {
    && (forall o :: o in s.orders ==> OrderOk(o))
    && (forall l :: l in s.locks ==> LockOk(l))
    && AllSquare(s)
  }

  lemma ResidueIsLeft(o: Order)
    requires OrderOk(o)
    ensures o.Residue() >= 0
  {
  }

  /** Every fill of a buy so far was at or below the price it reserved at. */
  ghost predicate Priced(o: Order) { o.side == Buy ==> Within(o.fills, o.reserve) }

  /** The one hold covers whatever fills take within the reserve price, so they never over-consume it. */
  lemma {:induction false} ResidueIsCovered(o: Order)
    requires o.hold == (if o.side == Buy then BuyReserve(o.reserve, o.qty) else o.qty)
    requires TotalQty(o.fills) <= o.qty && Priced(o)
    ensures o.Consumed() <= o.hold && o.Residue() >= 0
  {
    if o.side == Buy { HoldCoversAnySplit(o.fills, o.reserve, o.qty); }
  }
}
