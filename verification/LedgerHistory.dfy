/** What every history of postings keeps: balanced books, and one equation per custody tier. */
module LedgerHistory {
  import opened MatchingTypes
  import opened Outcomes
  import opened Ledger

  // ------------------------------------------------------------------ the sum of a posting's legs

  lemma SumMove(a: Account, b: Account, n: int, selected: Entry -> bool)
    ensures SumOf(Move(a, b, n), selected) == Part(DebitTo(a, n), selected) + Part(CreditTo(b, n), selected)
  {
    assert Move(a, b, n) == [DebitTo(a, n)] + [CreditTo(b, n)];
    SumPush([DebitTo(a, n)], CreditTo(b, n), selected);
    SumOne(DebitTo(a, n), selected);
  }

  lemma SumSplit(a: Account, b: Account, c: Account, n: int, m: int, selected: Entry -> bool)
    ensures SumOf(Split(a, b, c, n, m), selected)
         == Part(DebitTo(a, n), selected) + Part(CreditTo(b, n - m), selected) + Part(CreditTo(c, m), selected)
  {
    var two := [DebitTo(a, n), CreditTo(b, n - m)];
    assert Split(a, b, c, n, m) == two + [CreditTo(c, m)] && two == [DebitTo(a, n)] + [CreditTo(b, n - m)];
    SumPush(two, CreditTo(c, m), selected);
    SumPush([DebitTo(a, n)], CreditTo(b, n - m), selected);
    SumOne(DebitTo(a, n), selected);
  }

  lemma {:induction false} SumNonZero(legs: seq<Entry>, selected: Entry -> bool)
    ensures SumOf(NonZero(legs), selected) == SumOf(legs, selected)
  {
    if legs == [] {
    } else {
      var most, last := legs[..|legs| - 1], legs[|legs| - 1];
      SumNonZero(most, selected);
      SumPush(NonZero(most), last, selected);
    }
  }

  lemma {:induction false} NonZeroMembers(legs: seq<Entry>)
    ensures forall e :: e in NonZero(legs) <==> e in legs && e.amount != 0
  {
    if legs == [] {
    } else {
      assert legs == legs[..|legs| - 1] + [legs[|legs| - 1]];
      NonZeroMembers(legs[..|legs| - 1]);
    }
  }

  datatype Tier = Clearing | Vault | Outside

  function TierOf(kind: AccountType): Tier {
    match kind
    case External => Outside
    case UserCustodyAvailable | UserCustodyLocked | ChainAssets | HouseRent | HouseFees => Vault
    case _ => Clearing
  }

  predicate SameTier(a: AccountType, b: AccountType) { TierOf(a) == TierOf(b) }

  /** A selection that cannot tell apart two accounts of one tier in one asset. */
  ghost predicate TierBlind(s: Entry -> bool) {
    forall e: Entry, f: Entry :: e.asset == f.asset == e.account.asset == f.account.asset
      && SameTier(e.account.kind, f.account.kind)
      ==> s(e) == s(f)
  }

  lemma MoveNeutral(a: Account, b: Account, n: int, s: Entry -> bool)
    requires TierBlind(s) && a.asset == b.asset && SameTier(a.kind, b.kind)
    ensures SumOf(Move(a, b, n), s) == 0
  {
    SumMove(a, b, n, s);
    assert s(DebitTo(a, n)) == s(CreditTo(b, n));
  }

  lemma SplitNeutral(a: Account, b: Account, c: Account, n: int, m: int, s: Entry -> bool)
    requires TierBlind(s) && a.asset == b.asset == c.asset && SameTier(a.kind, b.kind) && SameTier(a.kind, c.kind)
    ensures SumOf(Split(a, b, c, n, m), s) == 0
  {
    SumSplit(a, b, c, n, m, s);
    assert s(DebitTo(a, n)) == s(CreditTo(b, n - m)) == s(CreditTo(c, m));
  }

  lemma FeeNeutral(legs: seq<Entry>, fee: Option<int>, native: Option<string>, s: Entry -> bool)
    requires TierBlind(s)
    ensures SumOf(legs + FeeMove(fee, native), s) == SumOf(legs, s)
  {
    SumAppend(legs, FeeMove(fee, native), s);
    if native.Some? { MoveNeutral(House(native.value, HouseFees), House(native.value, ChainAssets), Or(fee, 0), s); }
  }

  /** Every posting moves value WITHIN a tier and within an asset, never across: even the ones that
      carry funds from one tier to the other, and whichever zero-valued legs were left out. */
  lemma {:induction false} PostingNeutral(p: Posting, s: Entry -> bool)
    requires TierBlind(s)
    ensures SumOf(Legs(p), s) == 0
  {
    hide TierBlind, SumOf, Move, Split, FeeMove, NonZero, Or;
    SumNonZero(Proposed(p), s);
    match p
    case Deposit(_, user, asset, n, rent) =>
      SplitNeutral(User(user, asset, ChainAssets), User(user, asset, UserCustodyAvailable), House(asset, HouseRent), n,
                   Or(rent, 0), s);
    case WithdrawalLock(_, user, asset, n) =>
      MoveNeutral(User(user, asset, UserCustodyAvailable), User(user, asset, UserCustodyLocked), n, s);
    case WithdrawalRelease(_, user, asset, n) =>
      MoveNeutral(User(user, asset, UserCustodyLocked), User(user, asset, UserCustodyAvailable), n, s);
    case WithdrawalSettlement(_, user, asset, n, fee, native) =>
      var a, b := User(user, asset, UserCustodyLocked), User(user, asset, ChainAssets);
      FeeNeutral(Move(a, b, n), fee, Some(native), s);
      MoveNeutral(a, b, n, s);
    case HouseFunding(_, asset, n) => MoveNeutral(House(asset, ChainAssets), House(asset, HouseFees), n, s);
    case NonceAccountRent(_, asset, n) => MoveNeutral(House(asset, ChainAssets), House(asset, HouseRent), n, s);
    case SweepFee(_, asset, n) => MoveNeutral(House(asset, HouseFees), House(asset, ChainAssets), n, s);
    case TokenAccountRent(_, user, asset, n) =>
      MoveNeutral(User(user, asset, ChainAssets), House(asset, HouseRent), n, s);
    case OrderHold(_, user, asset, n) =>
      MoveNeutral(User(user, asset, UserTradingAvailable), User(user, asset, UserOrderLocked), n, s);
    case OrderRelease(_, user, asset, n) =>
      MoveNeutral(User(user, asset, UserOrderLocked), User(user, asset, UserTradingAvailable), n, s);
    case Allocation(_, user, asset, n, fee, native) =>
      TwoMovesNeutral(User(user, asset, UserCustodyLocked), User(user, asset, ChainAssets),
                      House(asset, ClearingAssets), User(user, asset, UserTradingAvailable), n, fee, native, s);
    case Deallocation(_, user, asset, n, fee, native) =>
      TwoMovesNeutral(User(user, asset, UserTradingLocked), House(asset, ClearingAssets),
                      User(user, asset, ChainAssets), User(user, asset, UserCustodyAvailable), n, fee, native, s);
    case TradingLock(_, user, asset, n) =>
      MoveNeutral(User(user, asset, UserTradingAvailable), User(user, asset, UserTradingLocked), n, s);
    case TradingRelease(_, user, asset, n) =>
      MoveNeutral(User(user, asset, UserTradingLocked), User(user, asset, UserTradingAvailable), n, s);
    case TradeSettlement(_, buyer, seller, base, quote, qty, notional, buyerFee, sellerFee) =>
      var a, b, c := User(buyer, quote, UserOrderLocked), User(seller, quote, UserTradingAvailable),
        House(quote, HouseTradingFees);
      var d, e := User(seller, base, UserOrderLocked), User(buyer, base, UserTradingAvailable);
      SplitNeutral(a, b, c, notional + buyerFee, buyerFee + sellerFee, s);
      MoveNeutral(d, e, qty, s);
      SumAppend(Split(a, b, c, notional + buyerFee, buyerFee + sellerFee), Move(d, e, qty), s);
  }

  lemma TwoMovesNeutral(a: Account, b: Account, c: Account, d: Account, n: int, fee: Option<int>,
                        native: Option<string>, s: Entry -> bool)
    requires TierBlind(s) && a.asset == b.asset && c.asset == d.asset && SameTier(a.kind, b.kind)
      && SameTier(c.kind, d.kind)
    ensures SumOf(Move(a, b, n) + Move(c, d, n) + FeeMove(fee, native), s) == 0
  {
    FeeNeutral(Move(a, b, n) + Move(c, d, n), fee, native, s);
    SumAppend(Move(a, b, n), Move(c, d, n), s);
    MoveNeutral(a, b, n, s);
    MoveNeutral(c, d, n, s);
  }

  lemma AssetIsTierBlind(asset: string)
    ensures TierBlind(InAsset(asset))
  {
  }

  lemma TierIsTierBlind(asset: string, kinds: set<AccountType>)
    requires kinds == CLEARING_TIER || kinds == VAULT_TIER
    ensures TierBlind(OfKinds(asset, kinds))
  {
    assert forall kind :: kind in CLEARING_TIER <==> TierOf(kind) == Clearing;
    assert forall kind :: kind in VAULT_TIER <==> TierOf(kind) == Vault;
  }

  // ------------------------------------------------------------------ committing a posting

  function KindOf(p: Posting): string {
    match p
    case Deposit(_, _, _, _, _) => "deposit"
    case WithdrawalLock(_, _, _, _) => "withdrawal_lock"
    case WithdrawalRelease(_, _, _, _) => "withdrawal_release"
    case WithdrawalSettlement(_, _, _, _, _, _) => "withdrawal_settle"
    case OrderHold(_, _, _, _) => "order_hold"
    case OrderRelease(_, _, _, _) => "order_release"
    case Allocation(_, _, _, _, _, _) => "allocation"
    case Deallocation(_, _, _, _, _, _) => "deallocation"
    case TradingLock(_, _, _, _) => "withdrawal_lock"
    case TradingRelease(_, _, _, _) => "withdrawal_release"
    case TradeSettlement(_, _, _, _, _, _, _, _, _) => "trade_settle"
    case _ => "fee"
  }

  function ReferenceOf(p: Posting): string {
    match p
    case Deposit(_, _, _, _, _) => "deposit"
    case HouseFunding(_, _, _) => "house_funding"
    case NonceAccountRent(_, _, _) => "nonce_account"
    case SweepFee(_, _, _) => "sweep"
    case TokenAccountRent(_, _, _, _) => "token_account"
    case OrderHold(_, _, _, _) => "order"
    case OrderRelease(_, _, _, _) => "order"
    case TradeSettlement(_, _, _, _, _, _, _, _, _) => "fill"
    case _ => "withdrawal"
  }

  /** The shape of a posting. Locking for a withdrawal is one act in either tier, and so is returning. */
  function ShapeOf(p: Posting): nat {
    match p
    case Deposit(_, _, _, _, _) => 0
    case WithdrawalLock(_, _, _, _) => 1
    case TradingLock(_, _, _, _) => 1
    case WithdrawalRelease(_, _, _, _) => 2
    case TradingRelease(_, _, _, _) => 2
    case WithdrawalSettlement(_, _, _, _, _, _) => 3
    case HouseFunding(_, _, _) => 4
    case NonceAccountRent(_, _, _) => 5
    case SweepFee(_, _, _) => 6
    case TokenAccountRent(_, _, _, _) => 7
    case OrderHold(_, _, _, _) => 8
    case OrderRelease(_, _, _, _) => 9
    case Allocation(_, _, _, _, _, _) => 10
    case Deallocation(_, _, _, _, _, _) => 11
    case TradeSettlement(_, _, _, _, _, _, _, _, _) => 12
  }

  /** Kind and reference tell every act apart: two transactions that carry the same labels did the same thing. */
  lemma {:induction false} LabelsTellApart(p: Posting, q: Posting)
    requires KindOf(p) == KindOf(q) && ReferenceOf(p) == ReferenceOf(q)
    ensures ShapeOf(p) == ShapeOf(q)
  {
  }

  /** When a posting goes through: its own checks pass, and the assets it names are on one cluster. */
  ghost predicate Commits(p: Posting) { Refusal(p).None? && OneCluster(Legs(p)) }

  /** A posting is refused for its own amounts or for its asset keys, and never for anything else: its
      legs are positive, at least two, and balanced per asset on every input that passes its checks. */
  method Post(p: Posting) returns (r: Result<Transaction>)
    ensures r.Success? <==> Commits(p)
    ensures r.Success? ==> r.value == Transaction(KindOf(p), ReferenceOf(p), p.id, Legs(p))
  {
    var refusal := Refusal(p);
    if refusal.Some? { return Failure(refusal.value); }
    LegsAreGood(p);
    forall asset
      ensures SumOf(Legs(p), InAsset(asset)) == 0
    {
      AssetIsTierBlind(asset);
      PostingNeutral(p, InAsset(asset));
    }
    hide Legs, Refusal, KindOf, ReferenceOf, GoodEntry, OneCluster;
    r := BuildTransaction(KindOf(p), ReferenceOf(p), p.id, Legs(p));
  }

  lemma LegsAreGood(p: Posting)
    requires Refusal(p).None?
    ensures |Legs(p)| >= 2 && forall e :: e in Legs(p) ==> GoodEntry(e)
  {
    ProposedAreSound(p);
    var debit, credit := Anchors(p);
    NonZeroMembers(Proposed(p));
    hide Proposed, Refusal, NonZero;
    assert debit in Legs(p) && credit in Legs(p) && debit != credit;
  }

  lemma ProposedAreSound(p: Posting)
    requires Refusal(p).None?
    ensures forall e :: e in Proposed(p) ==> e.amount >= 0 && e.asset == e.account.asset
  {
  }

  /** One debit and one credit that no zero amount can remove. */
  lemma Anchors(p: Posting) returns (debit: Entry, credit: Entry)
    requires Refusal(p).None?
    ensures debit in Proposed(p) && credit in Proposed(p) && debit.amount > 0 && credit.amount > 0
    ensures debit.direction == Debit && credit.direction == Credit
  {
    var legs := Proposed(p);
    if p.TradeSettlement? {
      debit, credit := legs[3], legs[4];
    } else if p.Deposit? {
      debit, credit := legs[0], if legs[1].amount > 0 then legs[1] else legs[2];
    } else {
      debit, credit := legs[0], legs[1];
    }
  }

  // ------------------------------------------------------------------ every history

  ghost function Committed(p: Posting): seq<Entry> { if Commits(p) then Legs(p) else [] }

  /** The entries a history of attempted postings leaves behind. A refused posting leaves nothing. */
  ghost function LedgerOf(history: seq<Posting>): seq<Entry> {
    if history == [] then [] else LedgerOf(history[..|history| - 1]) + Committed(history[|history| - 1])
  }

  lemma {:induction false} HistoryNeutral(history: seq<Posting>, s: Entry -> bool)
    requires TierBlind(s)
    ensures SumOf(LedgerOf(history), s) == 0
  {
    if history == [] {
    } else {
      var most, last := history[..|history| - 1], history[|history| - 1];
      hide TierBlind, Commits, Legs;
      HistoryNeutral(most, s);
      PostingNeutral(last, s);
      SumAppend(LedgerOf(most), Committed(last), s);
    }
  }

  lemma {:induction false} SumDisjoint(entries: seq<Entry>, asset: string, a: set<AccountType>, b: set<AccountType>)
    requires a !! b
    ensures SumOf(entries, OfKinds(asset, a + b)) == SumOf(entries, OfKinds(asset, a))
      + SumOf(entries, OfKinds(asset, b))
  {
    if entries == [] {
    } else {
      SumDisjoint(entries[..|entries| - 1], asset, a, b);
    }
  }

  /** What accounts of these types hold in an asset, in the accounts' own sign. */
  ghost function Held(entries: seq<Entry>, asset: string, kind: AccountType): int {
    Normal(kind, SumOf(entries, OfKinds(asset, {kind})))
  }

  ghost function Owed(entries: seq<Entry>, asset: string, kinds: set<AccountType>): int {
    -SumOf(entries, OfKinds(asset, kinds))
  }

  /** The books balance, and EACH TIER balances on its own: what the clearing address holds is exactly
      what trading users are owed plus the fees earned, and what the vault addresses hold is exactly what
      custody users are owed plus rent plus the prepaid network fees. True of every history. */
  lemma {:induction false} TierEquations(history: seq<Posting>, asset: string)
    ensures var books := LedgerOf(history);
      && SumOf(books, InAsset(asset)) == 0
      && Held(books, asset, ClearingAssets) == Owed(books, asset, TRADING) + Held(books, asset, HouseTradingFees)
      && Held(books, asset, ChainAssets)
         == Owed(books, asset, CUSTODY) + Held(books, asset, HouseRent) + Held(books, asset, HouseFees)
  {
    hide SumOf, LedgerOf, OfKinds, InAsset, TierBlind;
    AssetIsTierBlind(asset);
    HistoryNeutral(history, InAsset(asset));
    TierIsTierBlind(asset, CLEARING_TIER);
    HistoryNeutral(history, OfKinds(asset, CLEARING_TIER));
    TierIsTierBlind(asset, VAULT_TIER);
    HistoryNeutral(history, OfKinds(asset, VAULT_TIER));
    ClearingParts(LedgerOf(history), asset);
    VaultParts(LedgerOf(history), asset);
  }

  lemma ClearingParts(entries: seq<Entry>, asset: string)
    ensures SumOf(entries, OfKinds(asset, CLEARING_TIER))
         == Held(entries, asset, ClearingAssets) - Owed(entries, asset, TRADING)
           - Held(entries, asset, HouseTradingFees)
  {
    hide SumOf, OfKinds;
    SumDisjoint(entries, asset, TRADING, {ClearingAssets, HouseTradingFees});
    SumDisjoint(entries, asset, {ClearingAssets}, {HouseTradingFees});
    assert {ClearingAssets, HouseTradingFees} == {ClearingAssets} + {HouseTradingFees};
  }

  lemma VaultParts(entries: seq<Entry>, asset: string)
    ensures SumOf(entries, OfKinds(asset, VAULT_TIER))
         == Held(entries, asset, ChainAssets) - Owed(entries, asset, CUSTODY)
            - Held(entries, asset, HouseRent) - Held(entries, asset, HouseFees)
  {
    hide SumOf, OfKinds;
    SumDisjoint(entries, asset, CUSTODY, {ChainAssets, HouseRent, HouseFees});
    assert {ChainAssets, HouseRent, HouseFees} == {ChainAssets} + {HouseRent, HouseFees};
    SumDisjoint(entries, asset, {ChainAssets}, {HouseRent, HouseFees});
    assert {HouseRent, HouseFees} == {HouseRent} + {HouseFees};
    SumDisjoint(entries, asset, {HouseRent}, {HouseFees});
  }

  lemma {:induction false} SumNotPositive(entries: seq<Entry>, s: Entry -> bool)
    requires forall e :: e in entries && s(e) ==> e.Signed() <= 0
    ensures SumOf(entries, s) <= 0
  {
    if entries == [] {
    } else {
      assert entries[|entries| - 1] in entries;
      SumNotPositive(entries[..|entries| - 1], s);
    }
  }

  /** Fees and rent are only ever credited. */
  lemma PostingEarns(p: Posting, asset: string, kind: AccountType)
    requires kind == HouseTradingFees || kind == HouseRent
    ensures SumOf(Committed(p), OfKinds(asset, {kind})) <= 0
  {
    if Commits(p) {
      ProposedAreSound(p);
      ProposedEarns(p, kind);
      NonZeroMembers(Proposed(p));
      hide Proposed, SumOf, NonZero;
      SumNotPositive(Legs(p), OfKinds(asset, {kind}));
    }
  }

  lemma ProposedEarns(p: Posting, kind: AccountType)
    requires kind == HouseTradingFees || kind == HouseRent
    ensures forall e :: e in Proposed(p) && e.account.kind == kind ==> e.direction == Credit
  {
    var legs := Proposed(p);
    forall i | 0 <= i < |legs|
      ensures legs[i].account.kind == kind ==> legs[i].direction == Credit
    {
    }
  }

  lemma {:induction false} HouseEarns(history: seq<Posting>, asset: string, kind: AccountType)
    requires kind == HouseTradingFees || kind == HouseRent
    ensures Held(LedgerOf(history), asset, kind) >= 0
  {
    if history == [] {
    } else {
      var most, last := history[..|history| - 1], history[|history| - 1];
      HouseEarns(most, asset, kind);
      PostingEarns(last, asset, kind);
      hide Committed, OfKinds;
      SumAppend(LedgerOf(most), Committed(last), OfKinds(asset, {kind}));
    }
  }

  // ------------------------------------------------------------------ one user's own address

  const ADDRESS := CUSTODY + {ChainAssets}

  /** Rent a posting immobilised at a user's own address. */
  function RentAt(p: Posting, user: string, asset: string): int {
    if p.Deposit? && p.user == user && p.asset == asset then Or(p.rent, 0)
    else if p.TokenAccountRent? && p.user == user && p.asset == asset then p.amount
    else 0
  }

  ghost function RentOver(history: seq<Posting>, user: string, asset: string): int {
    if history == [] then 0
    else RentOver(history[..|history| - 1], user, asset)
         + if Commits(history[|history| - 1]) then RentAt(history[|history| - 1], user, asset) else 0
  }

  lemma MoveAt(a: Account, b: Account, n: int, user: string, asset: string)
    ensures SumOf(Move(a, b, n), OfOwner(user, asset, ADDRESS)) == At(a, n, user, asset) - At(b, n, user, asset)
  {
    SumMove(a, b, n, OfOwner(user, asset, ADDRESS));
  }

  function At(a: Account, n: int, user: string, asset: string): int {
    if a.owner == Some(user) && a.asset == asset && a.kind in ADDRESS then n else 0
  }

  lemma FeeAt(legs: seq<Entry>, fee: Option<int>, native: Option<string>, user: string, asset: string)
    ensures var s := OfOwner(user, asset, ADDRESS); SumOf(legs + FeeMove(fee, native), s) == SumOf(legs, s)
  {
    var s := OfOwner(user, asset, ADDRESS);
    SumAppend(legs, FeeMove(fee, native), s);
    if native.Some? { SumMove(House(native.value, HouseFees), House(native.value, ChainAssets), Or(fee, 0), s); }
  }

  lemma TwoMovesAt(a: Account, b: Account, c: Account, d: Account, n: int, fee: Option<int>, native: Option<string>,
                   user: string, asset: string)
    ensures SumOf(Move(a, b, n) + Move(c, d, n) + FeeMove(fee, native), OfOwner(user, asset, ADDRESS))
         == At(a, n, user, asset) - At(b, n, user, asset) + At(c, n, user, asset) - At(d, n, user, asset)
  {
    FeeAt(Move(a, b, n) + Move(c, d, n), fee, native, user, asset);
    SumAppend(Move(a, b, n), Move(c, d, n), OfOwner(user, asset, ADDRESS));
    MoveAt(a, b, n, user, asset);
    MoveAt(c, d, n, user, asset);
  }

  lemma PostingAt(p: Posting, user: string, asset: string)
    ensures SumOf(Legs(p), OfOwner(user, asset, ADDRESS)) == RentAt(p, user, asset)
  {
    SumNonZero(Proposed(p), OfOwner(user, asset, ADDRESS));
    hide SumOf, OfOwner, Proposed, NonZero;
    if p.Deposit? { DepositAt(p, user, asset); }
    else if p.TradeSettlement? { TradeAt(p, user, asset); }
    else { PlainPostingAt(p, user, asset); }
  }

  lemma DepositAt(p: Posting, user: string, asset: string)
    requires p.Deposit?
    ensures SumOf(Proposed(p), OfOwner(user, asset, ADDRESS)) == RentAt(p, user, asset)
  {
    SumSplit(User(p.user, p.asset, ChainAssets), User(p.user, p.asset, UserCustodyAvailable), House(p.asset, HouseRent),
             p.amount, Or(p.rent, 0), OfOwner(user, asset, ADDRESS));
    hide SumOf, Split;
  }

  lemma TradeAt(p: Posting, user: string, asset: string)
    requires p.TradeSettlement?
    ensures SumOf(Proposed(p), OfOwner(user, asset, ADDRESS)) == 0
  {
    var s := OfOwner(user, asset, ADDRESS);
    var a, b, c := User(p.buyer, p.quote, UserOrderLocked), User(p.seller, p.quote, UserTradingAvailable),
      House(p.quote, HouseTradingFees);
    var d, e, n, m := User(p.seller, p.asset, UserOrderLocked), User(p.buyer, p.asset, UserTradingAvailable),
      p.notional + p.buyerFee, p.buyerFee + p.sellerFee;
    SumSplit(a, b, c, n, m, s);
    MoveAt(d, e, p.amount, user, asset);
    SumAppend(Split(a, b, c, n, m), Move(d, e, p.amount), s);
    hide SumOf, Split, Move;
  }

  lemma PlainPostingAt(p: Posting, user: string, asset: string)
    requires !p.Deposit? && !p.TradeSettlement?
    ensures SumOf(Proposed(p), OfOwner(user, asset, ADDRESS)) == RentAt(p, user, asset)
  {
    hide SumOf, Move, FeeMove, OfOwner;
    match p
    case WithdrawalLock(_, u, x, n) =>
      MoveAt(User(u, x, UserCustodyAvailable), User(u, x, UserCustodyLocked), n, user, asset);
    case WithdrawalRelease(_, u, x, n) =>
      MoveAt(User(u, x, UserCustodyLocked), User(u, x, UserCustodyAvailable), n, user, asset);
    case WithdrawalSettlement(_, u, x, n, fee, native) =>
      FeeAt(Move(User(u, x, UserCustodyLocked), User(u, x, ChainAssets), n), fee, Some(native), user, asset);
      MoveAt(User(u, x, UserCustodyLocked), User(u, x, ChainAssets), n, user, asset);
    case HouseFunding(_, x, n) => MoveAt(House(x, ChainAssets), House(x, HouseFees), n, user, asset);
    case NonceAccountRent(_, x, n) => MoveAt(House(x, ChainAssets), House(x, HouseRent), n, user, asset);
    case SweepFee(_, x, n) => MoveAt(House(x, HouseFees), House(x, ChainAssets), n, user, asset);
    case TokenAccountRent(_, u, x, n) => MoveAt(User(u, x, ChainAssets), House(x, HouseRent), n, user, asset);
    case OrderHold(_, u, x, n) => MoveAt(User(u, x, UserTradingAvailable), User(u, x, UserOrderLocked), n, user, asset);
    case OrderRelease(_, u, x, n) =>
      MoveAt(User(u, x, UserOrderLocked), User(u, x, UserTradingAvailable), n, user, asset);
    case Allocation(_, u, x, n, fee, native) =>
      TwoMovesAt(User(u, x, UserCustodyLocked), User(u, x, ChainAssets),
                 House(x, ClearingAssets), User(u, x, UserTradingAvailable), n, fee, native, user, asset);
    case Deallocation(_, u, x, n, fee, native) =>
      TwoMovesAt(User(u, x, UserTradingLocked), House(x, ClearingAssets),
                 User(u, x, ChainAssets), User(u, x, UserCustodyAvailable), n, fee, native, user, asset);
    case TradingLock(_, u, x, n) =>
      MoveAt(User(u, x, UserTradingAvailable), User(u, x, UserTradingLocked), n, user, asset);
    case TradingRelease(_, u, x, n) =>
      MoveAt(User(u, x, UserTradingLocked), User(u, x, UserTradingAvailable), n, user, asset);
  }

  /** Segregation, per user and not in aggregate: in every history, what a user's own address holds
      beyond what that user is owed in custody is exactly the rent immobilised there, never less. */
  lemma {:induction false} AddressCoversItsUser(history: seq<Posting>, user: string, asset: string)
    ensures SumOf(LedgerOf(history), OfOwner(user, asset, ADDRESS)) == RentOver(history, user, asset) >= 0
  {
    if history == [] {
    } else {
      var most, last := history[..|history| - 1], history[|history| - 1];
      AddressCoversItsUser(most, user, asset);
      PostingAt(last, user, asset);
      assert Commits(last) ==> RentAt(last, user, asset) >= 0;
      hide Commits, Legs, RentAt, OfOwner;
      SumAppend(LedgerOf(most), Committed(last), OfOwner(user, asset, ADDRESS));
    }
  }
}
