/** Portfolio valuation over time: one pass over sorted input, against the direct definition. */
module Portfolio {
  import opened MatchingTypes
  import Decimal

  datatype TimedEntry = TimedEntry(asset: string, amount: int, credit: bool, at: int) {
    /** A user account is a liability: a credit increases what the user holds. */
    function Signed(): int { if credit then amount else 0 - amount }
  }

  /** A price observation, already in micro-dollars. */
  datatype Tick = Tick(micros: int, at: int)

  datatype Holding = Holding(asset: string, amount: int, value: Option<int>)

  datatype Point = Point(at: int, total: int, holdings: seq<Holding>, complete: bool)

  /** Division that truncates toward zero. */
  function Truncated(a: int, b: nat): int
    requires b > 0
  {
    if a >= 0 then a / b else -((-a) / b)
  }

  function ValueOf(amount: int, micros: int, decimals: nat): int { Truncated(amount * micros, Decimal.Pow10(decimals)) }

  // ------------------------------------------------------------------ the direct definition

  /** What the user held of an asset at an instant: every entry at or before it, and none after. */
  function BalanceAt(entries: seq<TimedEntry>, asset: string, at: int): int {
    if entries == [] then 0
    else BalanceAt(entries[..|entries| - 1], asset, at)
         + (var e := entries[|entries| - 1]; if e.at <= at && e.asset == asset then e.Signed() else 0)
  }

  /** Assets the user had an entry in by an instant, in order of first appearance. */
  function AssetsAt(entries: seq<TimedEntry>, at: int): seq<string> {
    if entries == [] then []
    else
      var before, e := AssetsAt(entries[..|entries| - 1], at), entries[|entries| - 1];
      if e.at <= at && e.asset !in before then before + [e.asset] else before
  }

  /** The latest tick at or before an instant. */
  function LatestTick(ticks: seq<Tick>, at: int): (t: Option<Tick>)
    ensures t.Some? ==> t.value in ticks && t.value.at <= at
  {
    if ticks == [] then None
    else if ticks[|ticks| - 1].at <= at then Some(ticks[|ticks| - 1])
    else LatestTick(ticks[..|ticks| - 1], at)
  }

  function TicksOf(prices: map<string, seq<Tick>>, asset: string): seq<Tick> {
    if asset in prices then prices[asset] else []
  }

  function HoldingAt(entries: seq<TimedEntry>, prices: map<string, seq<Tick>>, decimalsOf: string -> nat,
                     asset: string, at: int): Holding {
    var amount, tick := BalanceAt(entries, asset, at), LatestTick(TicksOf(prices, asset), at);
    Holding(asset, amount, if tick.Some? then Some(ValueOf(amount, tick.value.micros, decimalsOf(asset))) else None)
  }

  function HoldingsAt(entries: seq<TimedEntry>, prices: map<string, seq<Tick>>, decimalsOf: string -> nat,
                      assets: seq<string>, at: int): seq<Holding> {
    if assets == [] then []
    else HoldingsAt(entries, prices, decimalsOf, assets[..|assets| - 1], at)
         + [HoldingAt(entries, prices, decimalsOf, assets[|assets| - 1], at)]
  }

  function TotalOf(holdings: seq<Holding>): int {
    if holdings == [] then 0
    else TotalOf(holdings[..|holdings| - 1])
         + (if holdings[|holdings| - 1].value.Some? then holdings[|holdings| - 1].value.value else 0)
  }

  /** Every holding that is not zero had a price. */
  predicate Complete(holdings: seq<Holding>) { forall h :: h in holdings && h.value.None? ==> h.amount == 0 }

  function PointAt(entries: seq<TimedEntry>, prices: map<string, seq<Tick>>, decimalsOf: string -> nat,
                   at: int): Point {
    var holdings := HoldingsAt(entries, prices, decimalsOf, AssetsAt(entries, at), at);
    Point(at, TotalOf(holdings), holdings, Complete(holdings))
  }

  predicate Ascending(entries: seq<TimedEntry>) {
    forall i, j :: 0 <= i < j < |entries| ==> entries[i].at <= entries[j].at
  }

  predicate TicksAscend(ticks: seq<Tick>) { forall i, j :: 0 <= i < j < |ticks| ==> ticks[i].at <= ticks[j].at }

  predicate AllTicksAscend(prices: map<string, seq<Tick>>) {
    forall asset :: asset in prices ==> TicksAscend(prices[asset])
  }

  predicate BucketsAscend(buckets: seq<int>) { forall i, j :: 0 <= i < j < |buckets| ==> buckets[i] <= buckets[j] }

  /** No lookahead, and nothing newer was passed over. */
  lemma {:induction false} LatestIsLatest(ticks: seq<Tick>, at: int)
    requires TicksAscend(ticks)
    ensures LatestTick(ticks, at).None? <==> forall t :: t in ticks ==> t.at > at
    ensures LatestTick(ticks, at).Some? ==> forall t :: t in ticks && t.at <= at ==>
      t.at <= LatestTick(ticks, at).value.at
  {
    if ticks == [] {
    } else {
      var most, last := ticks[..|ticks| - 1], ticks[|ticks| - 1];
      LatestIsLatest(most, at);
      LastIsNewest(ticks);
    }
  }

  lemma LastIsNewest(ticks: seq<Tick>)
    requires TicksAscend(ticks) && ticks != []
    ensures var most, last := ticks[..|ticks| - 1], ticks[|ticks| - 1];
      && (forall t :: t in ticks <==> t in most || t == last)
      && (forall t :: t in most ==> t.at <= last.at)
  {
    var most, last := ticks[..|ticks| - 1], ticks[|ticks| - 1];
    assert ticks == most + [last];
  }

  // ------------------------------------------------------------------ a cursor splits sorted input

  /** Everything before the cursor is at or before the instant; everything from it on is after. */
  predicate Cut(entries: seq<TimedEntry>, cursor: nat, at: int) {
    && cursor <= |entries|
    && (forall i :: 0 <= i < cursor ==> entries[i].at <= at)
    && (forall i :: cursor <= i < |entries| ==> entries[i].at > at)
  }

  lemma {:induction false} CutBalance(entries: seq<TimedEntry>, cursor: nat, at: int, asset: string)
    requires Cut(entries, cursor, at)
    ensures BalanceAt(entries, asset, at) == BalanceAt(entries[..cursor], asset, at)
    ensures AssetsAt(entries, at) == AssetsAt(entries[..cursor], at)
  {
    if cursor == |entries| {
      assert entries[..cursor] == entries;
    } else {
      var n := |entries| - 1;
      CutBalance(entries[..n], cursor, at, asset);
      assert entries[..n][..cursor] == entries[..cursor];
    }
  }

  /** A later instant sees the same of entries that an earlier one already saw. */
  lemma {:induction false} LaterSeesSame(entries: seq<TimedEntry>, at: int, later: int, asset: string)
    requires forall i :: 0 <= i < |entries| ==> entries[i].at <= at && entries[i].at <= later
    ensures BalanceAt(entries, asset, at) == BalanceAt(entries, asset, later)
    ensures AssetsAt(entries, at) == AssetsAt(entries, later)
  {
    if entries == [] {
    } else {
      LaterSeesSame(entries[..|entries| - 1], at, later, asset);
    }
  }

  // ------------------------------------------------------------------ the balances, carried along

  /** The running balances: the assets in order of first appearance, and what each holds so far. */
  ghost predicate Carries(order: seq<string>, balances: map<string, int>, entries: seq<TimedEntry>, at: int) {
    && order == AssetsAt(entries, at)
    && (forall asset :: asset in order <==> asset in balances)
    && (forall asset :: (if asset in balances then balances[asset] else 0) == BalanceAt(entries, asset, at))
  }

  lemma CarryOne(order: seq<string>, balances: map<string, int>, entries: seq<TimedEntry>, e: TimedEntry, at: int)
    requires Carries(order, balances, entries, at) && e.at <= at
    ensures Carries(if e.asset in balances then order else order + [e.asset],
                    balances[e.asset := (if e.asset in balances then balances[e.asset] else 0) + e.Signed()],
                    entries + [e], at)
  {
    var more := entries + [e];
    assert more[..|more| - 1] == entries;
    forall asset
      ensures BalanceAt(more, asset, at) == BalanceAt(entries, asset, at) + if e.asset == asset then e.Signed() else 0
    {
    }
  }

  lemma CarryOver(order: seq<string>, balances: map<string, int>, entries: seq<TimedEntry>, at: int, later: int)
    requires Carries(order, balances, entries, at) && at <= later
    requires forall i :: 0 <= i < |entries| ==> entries[i].at <= at
    ensures Carries(order, balances, entries, later)
  {
    forall asset
      ensures BalanceAt(entries, asset, at) == BalanceAt(entries, asset, later)
        && AssetsAt(entries, at) == AssetsAt(entries, later)
    {
      LaterSeesSame(entries, at, later, asset);
    }
    assert AssetsAt(entries, at) == AssetsAt(entries, later) by { LaterSeesSame(entries, at, later, ""); }
  }

  /** Take every entry up to the instant. */
  method Advance(entries: seq<TimedEntry>, start: nat, order0: seq<string>, balances0: map<string, int>, at: int)
    returns (cursor: nat, order: seq<string>, balances: map<string, int>)
    requires Ascending(entries) && start <= |entries| && (forall i :: 0 <= i < start ==> entries[i].at <= at)
    requires Carries(order0, balances0, entries[..start], at)
    ensures Cut(entries, cursor, at) && Carries(order, balances, entries[..cursor], at)
  {
    hide Carries, TimedEntry.Signed;
    cursor, order, balances := start, order0, balances0;
    while cursor < |entries| && entries[cursor].at <= at
      invariant cursor <= |entries| && (forall i :: 0 <= i < cursor ==> entries[i].at <= at)
      invariant Carries(order, balances, entries[..cursor], at)
    {
      var e := entries[cursor];
      CarryOne(order, balances, entries[..cursor], e, at);
      assert entries[..cursor + 1] == entries[..cursor] + [e];
      if e.asset !in balances { order := order + [e.asset]; }
      balances := balances[e.asset := (if e.asset in balances then balances[e.asset] else 0) + e.Signed()];
      cursor := cursor + 1;
    }
  }

  // ------------------------------------------------------------------ the price walk

  datatype Walk = Walk(index: nat, last: Option<Tick>)

  /** A walk has read exactly the ticks it counts, all of them by the instant, and remembers the newest. */
  predicate Walked(walk: Walk, ticks: seq<Tick>, at: int) {
    && walk.index <= |ticks|
    && (forall i :: 0 <= i < walk.index ==> ticks[i].at <= at)
    && walk.last == if walk.index == 0 then None else Some(ticks[walk.index - 1])
  }

  function WalkOf(walks: map<string, Walk>, asset: string): Walk {
    if asset in walks then walks[asset] else Walk(0, None)
  }

  ghost predicate AllWalked(walks: map<string, Walk>, prices: map<string, seq<Tick>>, at: int) {
    forall asset :: Walked(WalkOf(walks, asset), TicksOf(prices, asset), at)
  }

  lemma {:induction false} WalkIsLatest(ticks: seq<Tick>, index: nat, at: int)
    requires index <= |ticks| && (forall i :: 0 <= i < index ==> ticks[i].at <= at)
    requires forall i :: index <= i < |ticks| ==> ticks[i].at > at
    ensures LatestTick(ticks, at) == if index == 0 then None else Some(ticks[index - 1])
  {
    if index >= |ticks| {
    } else {
      WalkIsLatest(ticks[..|ticks| - 1], index, at);
    }
  }

  /** The most recent price at or before the instant, reading each tick once over all instants. */
  method PriceAt(ticks: seq<Tick>, at: int, walks: map<string, Walk>, asset: string)
    returns (micros: Option<int>, walks': map<string, Walk>)
    requires TicksAscend(ticks) && Walked(WalkOf(walks, asset), ticks, at)
    ensures micros == if LatestTick(ticks, at).None? then None else Some(LatestTick(ticks, at).value.micros)
    ensures walks' == walks[asset := WalkOf(walks', asset)] && Walked(WalkOf(walks', asset), ticks, at)
  {
    var walk := WalkOf(walks, asset);
    while walk.index < |ticks| && ticks[walk.index].at <= at
      invariant Walked(walk, ticks, at)
      decreases |ticks| - walk.index
    {
      walk := Walk(walk.index + 1, Some(ticks[walk.index]));
    }
    WalkIsLatest(ticks, walk.index, at);
    walks' := walks[asset := walk];
    micros := if walk.last.None? then None else Some(walk.last.value.micros);
  }

  // ------------------------------------------------------------------ the series

  lemma HoldingsPush(entries: seq<TimedEntry>, prices: map<string, seq<Tick>>, decimalsOf: string -> nat,
                     assets: seq<string>, k: nat, at: int)
    requires k < |assets|
    ensures HoldingsAt(entries, prices, decimalsOf, assets[..k + 1], at)
         == HoldingsAt(entries, prices, decimalsOf, assets[..k], at)
           + [HoldingAt(entries, prices, decimalsOf, assets[k], at)]
  {
    assert assets[..k + 1][..k] == assets[..k];
  }

  lemma TotalPush(holdings: seq<Holding>, h: Holding)
    ensures TotalOf(holdings + [h]) == TotalOf(holdings) + if h.value.Some? then h.value.value else 0
  {
    var more := holdings + [h];
    assert more[..|more| - 1] == holdings;
  }

  /** Value every asset held at one instant. */
  method ValueAll(ghost entries: seq<TimedEntry>, prices: map<string, seq<Tick>>, decimalsOf: string -> nat,
                  order: seq<string>, balances: map<string, int>, walks0: map<string, Walk>, at: int)
    returns (point: Point, walks: map<string, Walk>)
    requires AllTicksAscend(prices) && AllWalked(walks0, prices, at)
    requires order == AssetsAt(entries, at)
    requires forall asset :: asset in order ==> asset in balances && balances[asset] == BalanceAt(entries, asset, at)
    ensures point == PointAt(entries, prices, decimalsOf, at) && AllWalked(walks, prices, at)
  {
    hide BalanceAt, AssetsAt, HoldingsAt, LatestTick, TotalOf, Complete, Walked, WalkOf, AllWalked, ValueOf, TicksOf;
    var holdings: seq<Holding>, total, complete := [], 0, true;
    walks := walks0;
    NothingHeld(entries, prices, decimalsOf, order, at);
    for k := 0 to |order|
      invariant holdings == HoldingsAt(entries, prices, decimalsOf, order[..k], at)
      invariant total == TotalOf(holdings) && complete == Complete(holdings)
      invariant AllWalked(walks, prices, at)
    {
      var asset := order[k];
      var amount := balances[asset];
      WalkReady(walks, prices, asset, at);
      ghost var before := walks;
      var micros;
      micros, walks := PriceAt(TicksOf(prices, asset), at, walks, asset);
      OneWalked(before, walks, prices, asset, at);
      HoldingsPush(entries, prices, decimalsOf, order, k, at);
      var h := Holding(asset, amount, if micros.None? then None
                       else Some(ValueOf(amount, micros.value, decimalsOf(asset))));
      assert h == HoldingAt(entries, prices, decimalsOf, asset, at);
      TotalPush(holdings, h);
      CompletePush(holdings, h);
      if micros.None? {
        if amount != 0 { complete := false; }
      } else {
        total := total + h.value.value;
      }
      holdings := holdings + [h];
    }
    assert order[..|order|] == order;
    point := Point(at, total, holdings, complete);
  }

  lemma NothingHeld(entries: seq<TimedEntry>, prices: map<string, seq<Tick>>, decimalsOf: string -> nat,
                    order: seq<string>, at: int)
    ensures HoldingsAt(entries, prices, decimalsOf, order[..0], at) == [] && TotalOf([]) == 0 && Complete([])
  {
  }

  lemma CompletePush(holdings: seq<Holding>, h: Holding)
    ensures Complete(holdings + [h]) <==> Complete(holdings) && (h.value.None? ==> h.amount == 0)
  {
    assert h in holdings + [h];
    assert forall g :: g in holdings ==> g in holdings + [h];
  }

  lemma WalkReady(walks: map<string, Walk>, prices: map<string, seq<Tick>>, asset: string, at: int)
    requires AllWalked(walks, prices, at) && AllTicksAscend(prices)
    ensures Walked(WalkOf(walks, asset), TicksOf(prices, asset), at) && TicksAscend(TicksOf(prices, asset))
  {
  }

  lemma OneWalked(before: map<string, Walk>, walks: map<string, Walk>, prices: map<string, seq<Tick>>, asset: string,
                  at: int)
    requires AllWalked(before, prices, at) && walks == before[asset := WalkOf(walks, asset)]
    requires Walked(WalkOf(walks, asset), TicksOf(prices, asset), at)
    ensures AllWalked(walks, prices, at)
  {
    forall other
      ensures Walked(WalkOf(walks, other), TicksOf(prices, other), at)
    {
      assert Walked(WalkOf(before, other), TicksOf(prices, other), at);
    }
  }

  lemma WalkedLater(walks: map<string, Walk>, prices: map<string, seq<Tick>>, at: int, later: int)
    requires AllWalked(walks, prices, at) && at <= later
    ensures AllWalked(walks, prices, later)
  {
    forall asset
      ensures Walked(WalkOf(walks, asset), TicksOf(prices, asset), later)
    {
      assert Walked(WalkOf(walks, asset), TicksOf(prices, asset), at);
    }
  }

  /** What the running balances say once the cursor has passed everything up to the instant. */
  lemma CutCarries(entries: seq<TimedEntry>, cursor: nat, order: seq<string>, balances: map<string, int>, at: int)
    requires Cut(entries, cursor, at) && Carries(order, balances, entries[..cursor], at)
    ensures order == AssetsAt(entries, at)
    ensures forall asset :: asset in order ==> asset in balances && balances[asset] == BalanceAt(entries, asset, at)
  {
    CutBalance(entries, cursor, at, "");
    forall asset | asset in order
      ensures asset in balances && balances[asset] == BalanceAt(entries, asset, at)
    {
      CutBalance(entries, cursor, at, asset);
    }
  }

  lemma NothingYet(entries: seq<TimedEntry>, prices: map<string, seq<Tick>>, at: int)
    ensures Carries([], map[], entries[..0], at) && AllWalked(map[], prices, at)
  {
  }

  /** One pass over the entries and one over each asset's ticks gives, at every bucket, exactly the point
      its direct definition gives: the balance of everything up to it and the latest price up to it. */
  method ProjectSeries(entries: seq<TimedEntry>, buckets: seq<int>, prices: map<string, seq<Tick>>,
                       decimalsOf: string -> nat)
    returns (points: seq<Point>)
    requires Ascending(entries) && BucketsAscend(buckets) && AllTicksAscend(prices)
    ensures |points| == |buckets|
    ensures forall k :: 0 <= k < |buckets| ==> points[k] == PointAt(entries, prices, decimalsOf, buckets[k])
  {
    hide Carries, AllWalked, BalanceAt, AssetsAt, PointAt, Cut;
    points := [];
    var cursor: nat, order: seq<string>, balances: map<string, int>, walks: map<string, Walk> := 0, [], map[], map[];
    ghost var last := if |buckets| > 0 then buckets[0] else 0;
    NothingYet(entries, prices, last);
    for k := 0 to |buckets|
      invariant |points| == k && forall j :: 0 <= j < k ==>
        points[j] == PointAt(entries, prices, decimalsOf, buckets[j])
      invariant cursor <= |entries| && (forall i :: 0 <= i < cursor ==> entries[i].at <= last)
      invariant k < |buckets| ==> last <= buckets[k]
      invariant Carries(order, balances, entries[..cursor], last) && AllWalked(walks, prices, last)
    {
      var at := buckets[k];
      CarryOver(order, balances, entries[..cursor], last, at);
      WalkedLater(walks, prices, last, at);
      cursor, order, balances := Advance(entries, cursor, order, balances, at);
      CutCarries(entries, cursor, order, balances, at);
      CutBefore(entries, cursor, at);
      var point;
      point, walks := ValueAll(entries, prices, decimalsOf, order, balances, walks, at);
      points := points + [point];
      last := at;
    }
  }

  lemma CutBefore(entries: seq<TimedEntry>, cursor: nat, at: int)
    requires Cut(entries, cursor, at)
    ensures cursor <= |entries| && forall i :: 0 <= i < cursor ==> entries[i].at <= at
  {
  }
}
