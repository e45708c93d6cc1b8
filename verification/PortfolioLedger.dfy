/** What a portfolio shows is what the ledger holds: the same entries, the same sign, each instant on its own. */
module PortfolioLedger {
  import opened MatchingTypes
  import opened Ledger
  import opened Portfolio
  import Decimal

  // ------------------------------------------------------------------ one projection of one number

  /** A ledger entry and when it was posted. */
  datatype Stamped = Stamped(entry: Entry, at: int)

  predicate OfUser(s: Stamped, user: string) {
    s.entry.account.owner == Some(user) && s.entry.account.kind == UserCustodyAvailable
  }

  /** A user's spendable-balance entries, reduced to what the series reads. */
  function Statement(posted: seq<Stamped>, user: string): seq<TimedEntry> {
    if posted == [] then []
    else
      var before, s := Statement(posted[..|posted| - 1], user), posted[|posted| - 1];
      if OfUser(s, user)
      then before + [TimedEntry(s.entry.account.asset, s.entry.amount, s.entry.direction == Credit, s.at)]
      else before
  }

  /** Everything posted by an instant. */
  function Until(posted: seq<Stamped>, at: int): seq<Entry> {
    if posted == [] then []
    else
      var before, s := Until(posted[..|posted| - 1], at), posted[|posted| - 1];
      if s.at <= at then before + [s.entry] else before
  }

  lemma BalancePush(entries: seq<TimedEntry>, e: TimedEntry, asset: string, at: int)
    ensures BalanceAt(entries + [e], asset, at)
         == BalanceAt(entries, asset, at) + if e.at <= at && e.asset == asset then e.Signed() else 0
  {
    assert (entries + [e])[..|entries|] == entries;
  }

  /** At every instant the amount shown of an asset is the user's spendable ledger balance of everything posted by
      then, with the ledger's own sign: two projections of one number that cannot disagree. */
  lemma {:induction false} SeriesIsLedger(posted: seq<Stamped>, user: string, asset: string, at: int)
    ensures BalanceAt(Statement(posted, user), asset, at)
         == -Balance(Until(posted, at), User(user, asset, UserCustodyAvailable))
  {
    if posted == [] {
    } else {
      hide Statement, Until, Balance, BalanceAt;
      SeriesIsLedger(posted[..|posted| - 1], user, asset, at);
      StatementStep(posted, user, asset, at);
      LedgerStep(posted, user, asset, at);
    }
  }

  /** What the newest entry adds to a user's balance by an instant. */
  function Adds(s: Stamped, user: string, asset: string, at: int): int {
    if s.at <= at && s.entry.account == User(user, asset, UserCustodyAvailable)
    then (if s.entry.direction == Credit then s.entry.amount else -s.entry.amount) else 0
  }

  lemma StatementStep(posted: seq<Stamped>, user: string, asset: string, at: int)
    requires posted != []
    ensures var most, s := posted[..|posted| - 1], posted[|posted| - 1];
      BalanceAt(Statement(posted, user), asset, at)
        == BalanceAt(Statement(most, user), asset, at) + Adds(s, user, asset, at)
  {
    hide BalanceAt;
    var most, s := posted[..|posted| - 1], posted[|posted| - 1];
    if OfUser(s, user) {
      BalancePush(Statement(most, user),
                  TimedEntry(s.entry.account.asset, s.entry.amount, s.entry.direction == Credit, s.at), asset, at);
    }
  }

  lemma LedgerStep(posted: seq<Stamped>, user: string, asset: string, at: int)
    requires posted != []
    ensures var most, s := posted[..|posted| - 1], posted[|posted| - 1];
      var account := User(user, asset, UserCustodyAvailable);
      Balance(Until(posted, at), account) == Balance(Until(most, at), account) - Adds(s, user, asset, at)
  {
    hide SumOf;
    SumPush(Until(posted[..|posted| - 1], at), posted[|posted| - 1].entry,
            OfAccount(User(user, asset, UserCustodyAvailable)));
  }

  /** A credit raises what is shown by its amount from the instant it is posted on, a debit lowers it, and neither
      shows before then or in any other asset. */
  lemma {:induction false} EntryMovesHolding(entries: seq<TimedEntry>, asset: string, amount: int, posted: int,
                                             shown: string, at: int)
    ensures BalanceAt(entries + [TimedEntry(asset, amount, true, posted)], shown, at)
         == BalanceAt(entries, shown, at) + if posted <= at && shown == asset then amount else 0
    ensures BalanceAt(entries + [TimedEntry(asset, amount, false, posted)], shown, at)
         == BalanceAt(entries, shown, at) - if posted <= at && shown == asset then amount else 0
  {
    BalancePush(entries, TimedEntry(asset, amount, true, posted), shown, at);
    BalancePush(entries, TimedEntry(asset, amount, false, posted), shown, at);
    hide BalanceAt;
  }

  // ------------------------------------------------------------------ what a point lists

  lemma {:induction false} AssetsExactly(entries: seq<TimedEntry>, at: int, asset: string)
    ensures asset in AssetsAt(entries, at) <==> exists e :: e in entries && e.at <= at && e.asset == asset
    ensures forall i, j :: 0 <= i < j < |AssetsAt(entries, at)| ==> AssetsAt(entries, at)[i] != AssetsAt(entries, at)[j]
  {
    if entries == [] {
    } else {
      var most, last := entries[..|entries| - 1], entries[|entries| - 1];
      AssetsExactly(most, at, asset);
      assert entries == most + [last];
      assert last in entries && forall e :: e in most ==> e in entries;
    }
  }

  lemma {:induction false} HoldingsList(entries: seq<TimedEntry>, prices: map<string, seq<Tick>>,
                                        decimalsOf: string -> nat, assets: seq<string>, at: int)
    ensures var hs := HoldingsAt(entries, prices, decimalsOf, assets, at);
      |hs| == |assets| && forall i :: 0 <= i < |hs| ==> hs[i] == HoldingAt(entries, prices, decimalsOf, assets[i], at)
  {
    if assets == [] {
    } else {
      hide HoldingAt;
      HoldingsList(entries, prices, decimalsOf, assets[..|assets| - 1], at);
    }
  }

  /** A point lists every asset the user had an entry in by then, once, with the ledger's balance of it. */
  lemma {:induction false} PointShowsLedger(posted: seq<Stamped>, user: string, prices: map<string, seq<Tick>>,
                                            decimalsOf: string -> nat, at: int)
    ensures var point := PointAt(Statement(posted, user), prices, decimalsOf, at);
      && (forall i, j :: 0 <= i < j < |point.holdings| ==> point.holdings[i].asset != point.holdings[j].asset)
      && (forall h :: h in point.holdings ==>
            h.amount == -Balance(Until(posted, at), User(user, h.asset, UserCustodyAvailable)))
      && (forall asset :: (forall h :: h in point.holdings ==> h.asset != asset) ==>
            Balance(Until(posted, at), User(user, asset, UserCustodyAvailable)) == 0)
  {
    hide Balance, BalanceAt, AssetsAt, Statement, Until, LatestTick, HoldingsAt, TotalOf, Complete, TicksOf, ValueOf;
    var entries := Statement(posted, user);
    var assets := AssetsAt(entries, at);
    var hs := HoldingsAt(entries, prices, decimalsOf, assets, at);
    HoldingsList(entries, prices, decimalsOf, assets, at);
    AssetsExactly(entries, at, "");
    ListedIsHeld(assets, hs);
    forall h | h in hs ensures h.amount == -Balance(Until(posted, at), User(user, h.asset, UserCustodyAvailable)) {
      SeriesIsLedger(posted, user, h.asset, at);
    }
    forall asset | forall h :: h in hs ==> h.asset != asset
      ensures Balance(Until(posted, at), User(user, asset, UserCustodyAvailable)) == 0
    {
      AssetsExactly(entries, at, asset);
      NothingOfIt(entries, asset, at);
      SeriesIsLedger(posted, user, asset, at);
    }
  }

  lemma ListedIsHeld(assets: seq<string>, hs: seq<Holding>)
    requires |hs| == |assets| && forall i :: 0 <= i < |hs| ==> hs[i].asset == assets[i]
    ensures forall asset :: asset in assets ==> exists h :: h in hs && h.asset == asset
  {
    forall asset | asset in assets ensures exists h :: h in hs && h.asset == asset {
      var i :| 0 <= i < |assets| && assets[i] == asset;
      assert hs[i] in hs;
    }
  }

  lemma {:induction false} NothingOfIt(entries: seq<TimedEntry>, asset: string, at: int)
    requires forall e :: e in entries && e.at <= at ==> e.asset != asset
    ensures BalanceAt(entries, asset, at) == 0
  {
    if entries == [] {
    } else {
      assert entries[|entries| - 1] in entries;
      assert forall e :: e in entries[..|entries| - 1] ==> e in entries;
      NothingOfIt(entries[..|entries| - 1], asset, at);
    }
  }

  // ------------------------------------------------------------------ what it is worth

  function Magnitude(x: int): nat { if x < 0 then -x else x }

  /** A value is amount times price over the asset's scale, rounded toward zero, with the sign of the product. */
  lemma {:induction false} ValueRoundsTowardZero(amount: int, micros: int, decimals: nat)
    ensures var value, exact, scale := ValueOf(amount, micros, decimals), amount * micros, Decimal.Pow10(decimals);
      && Magnitude(value) * scale <= Magnitude(exact) < (Magnitude(value) + 1) * scale
      && (value != 0 ==> (value > 0 <==> exact > 0))
  {
    hide Decimal.Pow10;
    TruncatedExactly(amount * micros, Decimal.Pow10(decimals));
  }

  lemma TruncatedExactly(exact: int, scale: nat)
    requires scale > 0
    ensures var value := Truncated(exact, scale);
      && Magnitude(value) * scale <= Magnitude(exact) < (Magnitude(value) + 1) * scale
      && (value != 0 ==> (value > 0 <==> exact > 0))
  {
    TruncatedSize(exact, scale);
    Quotient(Magnitude(exact), scale);
    hide Truncated, Magnitude;
  }

  lemma TruncatedSize(exact: int, scale: nat)
    requires scale > 0
    ensures var value := Truncated(exact, scale);
      Magnitude(value) == Magnitude(exact) / scale && (value != 0 ==> (value > 0 <==> exact > 0))
  {
    if exact >= 0 {
      assert Truncated(exact, scale) == exact / scale;
      NotNegative(exact, scale);
    } else {
      assert Truncated(exact, scale) == -((-exact) / scale);
      NotNegative(-exact, scale);
    }
  }

  lemma NotNegative(x: nat, d: nat)
    requires d > 0
    ensures x / d >= 0
  {
  }

  lemma Quotient(x: nat, d: nat)
    requires d > 0
    ensures (x / d) * d <= x < (x / d + 1) * d
  {
    assert x == d * (x / d) + x % d;
  }

  /** The total is the sum of the priced holdings' values: adding up in parts, a single priced holding counts its
      value and an unpriced one nothing. */
  lemma {:induction false} TotalAddsUp(a: seq<Holding>, b: seq<Holding>, h: Holding)
    ensures TotalOf(a + b) == TotalOf(a) + TotalOf(b)
    ensures TotalOf([h]) == if h.value.Some? then h.value.value else 0
  {
    assert [h][..0] == [];
    if b == [] {
      assert a + b == a;
    } else {
      assert (a + b)[..|a + b| - 1] == a + b[..|b| - 1];
      TotalAddsUp(a, b[..|b| - 1], h);
    }
  }
}
