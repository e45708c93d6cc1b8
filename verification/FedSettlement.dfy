/** The settlement worker fed by the engine. The gateway records an order with its hold before it sends it, the
    worker applies what the engine said event by event, however far behind, and the gateway closes early what
    the engine never filled. Every check the worker makes is modelled, and what can stop it is exact. */
module FedSettlement {
  import opened MatchingTypes
  import opened ReferenceMatcher
  import opened MatchingTheorems
  import opened MatchingRuns
  import opened SettlementFeed
  import opened MatchedFills
  import opened EventHistory
  import opened Orders
  import opened Ledger
  import opened LedgerHistory
  import opened Settlement
  import S = SettlementRuns
  import Halts = SettlementHalts
  import Admission

  /** The engine's market, its journal, and the two assets it trades. */
  datatype Setup = Setup(engine: MarketConfig, cmds: seq<SequencedCommand>, base: string, quote: string)

  ghost predicate Sane(x: Setup) {
    && FreshIds(x.cmds) && Ordered(0, x.cmds)
    && x.base != x.quote && ClusterOf(x.base).Some? && ClusterOf(x.base) == ClusterOf(x.quote)
  }

  function Said(x: Setup): seq<ReferenceMatcher.Result> { Results(Initial(x.engine), x.cmds) }

  /** How many commands the engine has been sent, and how far into their events the worker is. */
  datatype Worker = Worker(s: Exchange, sent: nat, i: nat, p: nat, early: set<OrderId>, halted: bool)

  datatype Deed =
    | Gateway(a: S.Action)                   // the gateway records orders, the transfer workers move funds
    | Send                                // the gateway sends the engine its next command
    | CloseUntraded(id: OrderId)          // the gateway closes an order the engine never fills
    | Next(fillId: string, takerBps: nat, makerBps: nat)

  // ------------------------------------------------------------------ orders by id

  function OrderAt(orders: seq<Order>, id: OrderId): (r: Option<nat>)
    ensures r.Some? ==> r.value < |orders| && orders[r.value].id == id
    ensures r.None? ==> forall o :: o in orders ==> o.id != id
  {
    if orders == [] then None
    else
      var n := |orders| - 1;
      if orders[n].id == id then Some(n)
      else
        assert orders == orders[..n] + [orders[n]];
        OrderAt(orders[..n], id)
  }

  ghost predicate UniqueIds(orders: seq<Order>) {
    forall i, j :: 0 <= i < j < |orders| ==> orders[i].id != orders[j].id
  }

  lemma AtIsThere(orders: seq<Order>, j: nat)
    requires UniqueIds(orders) && j < |orders|
    ensures OrderAt(orders, orders[j].id) == Some(j)
  {
    assert orders[j] in orders;
  }

  // ------------------------------------------------------------------ sending

  function IdOf(c: Command): Option<OrderId> {
    match c
    case Place(id, _) => Some(id)
    case Amend(_, newId, _, _) => Some(newId)
    case _ => None
  }

  /** What the engine is sent under an id is what was recorded and held for: side, quantity, and for a buy a
      limit within the price its hold was sized at. An amend of an order that is gone asks for nothing. */
  ghost predicate Recorded(x: Setup, k: nat, o: Order)
    requires k < |x.cmds|
  {
    var e, c := Run(Initial(x.engine), x.cmds[..k]), x.cmds[k].command;
    && o.base == x.base && o.quote == x.quote
    && (TermsOf(e, c).Some? ==>
          var terms := TermsOf(e, c).value;
          && o.side == terms.side && o.qty == PlacedBy(e, c, o.id)
          && (terms.limit.Some? ==> terms.limit.value > 0)
          && (o.side == Buy ==>
                && terms.orderType == Limit && terms.limit.Some? && terms.limit.value <= o.reserve
                && Value(o.reserve, o.qty) <= MAX_U64))
  }

  ghost predicate RecordedAt(x: Setup, orders: seq<Order>, k: nat)
    requires k < |x.cmds|
  {
    var id := IdOf(x.cmds[k].command);
    id.Some? ==> OrderAt(orders, id.value).Some? && Recorded(x, k, orders[OrderAt(orders, id.value).value])
  }

  /** The order a command brings in is recorded and untouched. */
  ghost predicate Ready(x: Setup, w: Worker)
    requires w.sent < |x.cmds|
  {
    && RecordedAt(x, w.s.orders, w.sent)
    && var id := IdOf(x.cmds[w.sent].command);
       id.Some? ==> var o := w.s.orders[OrderAt(w.s.orders, id.value).value]; o.live && o.fills == []
  }

  // ------------------------------------------------------------------ applying

  function Stop(w: Worker): Worker { w.(halted := true) }

  function Went(w: Worker, s: Exchange): Worker { w.(s := s, p := w.p + 1) }

  function TermsFor(f: Fill, takerBps: nat, makerBps: nat): FillTerms {
    FillTerms(f.price, f.qty, f.takerSide, takerBps, makerBps)
  }

  /** Two known orders, and a fill that can be posted and leaves both holds in agreement, or a halt. */
  ghost function ApplyFill(w: Worker, f: Fill, fillId: string, takerBps: nat, makerBps: nat): Worker {
    var t, m := OrderAt(w.s.orders, f.takerOrderId), OrderAt(w.s.orders, f.makerOrderId);
    if t.None? || m.None? then Stop(w)
    else
      var b, n := if f.takerSide == Buy then t.value else m.value, if f.takerSide == Buy then m.value else t.value;
      var terms := TermsFor(f, takerBps, makerBps);
      if !S.Settleable(w.s, b, n, terms) then Stop(w)
      else if !Commits(S.TradeOf(fillId, w.s.orders[b], w.s.orders[n], terms)) then Stop(w)
      else if !S.Settles(w.s, fillId, b, n, terms) then Stop(w)
      else Went(w, S.Disposed(w.s, fillId, b, n, terms))
  }

  /** A live order ends, given that nothing of it is unaccounted for. One the gateway already closed is passed
      over; one that ended any other way is a halt. */
  ghost function EndOrder(w: Worker, id: OrderId, accounted: Order -> bool): Worker {
    match OrderAt(w.s.orders, id)
    case None => Stop(w)
    case Some(j) =>
      if !accounted(w.s.orders[j]) then Stop(w)
      else if w.s.orders[j].live then Went(w, S.Close(w.s, j))
      else if id in w.early then Went(w, w.s)
      else Stop(w)
  }

  /** An acceptance must name what is left; one with nothing left must find the order finished. */
  ghost function ApplyAccepted(w: Worker, id: OrderId, resting: nat): Worker {
    match OrderAt(w.s.orders, id)
    case None => Stop(w)
    case Some(j) =>
      var o := w.s.orders[j];
      if o.Remaining() != resting || (resting == 0 && o.live) then Stop(w) else Went(w, w.s)
  }

  ghost function ApplyEvent(w: Worker, e: Event, fillId: string, takerBps: nat, makerBps: nat): Worker {
    match e
    case Filled(f) => ApplyFill(w, f, fillId, takerBps, makerBps)
    case Cancelled(_, id, remaining) => EndOrder(w, id, (o: Order) => o.Remaining() == remaining)
    case Expired(_, id, remaining) => EndOrder(w, id, (o: Order) => o.Remaining() == remaining)
    case Rejected(_, id, reason) =>
      if reason == UnknownOrder then Went(w, w.s) else EndOrder(w, id, (o: Order) => o.Remaining() == o.qty)
    case Accepted(_, id, resting) => ApplyAccepted(w, id, resting)
    case StatusChanged(_, _, _) => Went(w, w.s)
  }

  // ------------------------------------------------------------------ one step

  /** Only the worker settles fills and finishes orders, and an order is recorded once. */
  predicate Allowed(orders: seq<Order>, a: S.Action) {
    !a.Settle? && !a.Finish? && (a.Submit? ==> OrderAt(orders, a.id).None?)
  }

  ghost function Act(x: Setup, w: Worker, d: Deed): Worker {
    match d
    case Gateway(a) => if Allowed(w.s.orders, a) then w.(s := S.Step(w.s, a)) else w
    case Send => if w.sent < |x.cmds| && Ready(x, w) then w.(sent := w.sent + 1) else w
    case CloseUntraded(id) =>
      (match OrderAt(w.s.orders, id)
       case None => w
       case Some(j) =>
         if w.s.orders[j].live && NeverTrades(Said(x), id)
         then w.(s := S.Close(w.s, j), early := w.early + {id}) else w)
    case Next(fillId, takerBps, makerBps) =>
      if w.halted || w.i >= w.sent || w.i >= |x.cmds| || takerBps > WORST_CASE_TAKER_BPS
        || makerBps > WORST_CASE_TAKER_BPS
      then w
      else if w.p >= |Said(x)[w.i].events| then w.(i := w.i + 1, p := 0)
      else ApplyEvent(w, Said(x)[w.i].events[w.p], fillId, takerBps, makerBps)
  }

  const START := Worker(S.NOTHING, 0, 0, 0, {}, false)

  ghost function RunFrom(x: Setup, w: Worker, deeds: seq<Deed>): Worker {
    if deeds == [] then w else Act(x, RunFrom(x, w, deeds[..|deeds| - 1]), deeds[|deeds| - 1])
  }

  // ------------------------------------------------------------------ the invariant

  /** What the worker has been told of an order leaves nothing more to come. */
  ghost predicate Over(h: seq<Event>, o: Order) {
    FilledQty(h, o.id) >= o.qty || ReleasedQty(h, o.id) > 0 || exists e :: e in h && Rejects(e, o.id)
  }

  /** The ledger's order is what the events say: its fills, its price, and whether it is still open. An open order
      still holds something. */
  ghost predicate Mirror(x: Setup, h: seq<Event>, early: set<OrderId>, o: Order) {
    && o.qty > 0 && TotalQty(o.fills) == FilledQty(h, o.id) && Priced(o)
    && (x.engine.lotSize > 0 ==> Halts.WholeLots(o.fills, x.engine.lotSize))
    && (o.live <==> !Over(h, o) && o.id !in early) && (o.live ==> o.Residue() > 0)
    && (o.id in early ==> NeverTrades(Said(x), o.id))
  }

  ghost predicate InPlace(x: Setup, w: Worker) {
    w.i <= w.sent <= |x.cmds| && if w.i < w.sent then w.p <= |Said(x)[w.i].events| else w.p == 0
  }

  ghost function Heard(x: Setup, w: Worker): seq<Event>
    requires InPlace(x, w)
  {
    History(Said(x), w.i, w.p)
  }

  ghost predicate AllMirror(x: Setup, h: seq<Event>, early: set<OrderId>, orders: seq<Order>) {
    forall j :: 0 <= j < |orders| ==> Mirror(x, h, early, orders[j])
  }

  ghost predicate AllRecorded(x: Setup, w: Worker)
    requires w.sent <= |x.cmds|
  {
    forall k :: 0 <= k < w.sent ==> RecordedAt(x, w.s.orders, k)
  }

  ghost predicate Good(x: Setup, w: Worker) {
    && Sane(x) && Inv(w.s) && UniqueIds(w.s.orders) && InPlace(x, w) && AllRecorded(x, w)
    && (forall id :: id in w.early ==> OrderAt(w.s.orders, id).Some?)
    && AllMirror(x, Heard(x, w), w.early, w.s.orders)
  }

  // ------------------------------------------------------------------ the gateway's deeds

  /** What the gateway and the transfer workers do leaves every order as it is; at most one is added. */
  lemma BookedOrders(s: Exchange, a: S.Action)
    requires !a.Settle? && !a.Finish?
    ensures S.Step(s, a).orders == s.orders
         || (a.Submit? && ComputeHold(a.request, a.market, a.reference).Success?
             && var o := S.NewOrder(a.id, a.user, a.request, a.market, a.reference);
                NewlyBooked(o, a.id) && S.Step(s, a).orders == s.orders + [o])
  {
    hide Commits, Owes, ComputeHold;
    if a.Submit? && ComputeHold(a.request, a.market, a.reference).Success? {
      var hold := ComputeHold(a.request, a.market, a.reference).value;
      if Commits(OrderHold(a.id, a.user, hold.asset, hold.amount)) {
        NewHoldsSomething(a.id, a.user, a.request, a.market, a.reference);
      }
    }
  }

  /** A hold that was posted is not empty, and neither is the order it is for. */
  lemma NewHoldsSomething(id: string, user: string, request: OrderRequest, market: Orders.Market,
                          reference: Option<nat>)
    requires ComputeHold(request, market, reference).Success?
    requires var hold := ComputeHold(request, market, reference).value;
      Commits(OrderHold(id, user, hold.asset, hold.amount))
    ensures NewlyBooked(S.NewOrder(id, user, request, market, reference), id)
  {
    hide Legs, OneCluster, Value, FeeAmount;
    var o := S.NewOrder(id, user, request, market, reference);
    assert o.Consumed() == 0;
  }

  /** A new order has its whole quantity to trade. */
  predicate NewlyBooked(o: Order, id: string) { o.id == id && o.qty > 0 && o.live && o.fills == [] && o.Residue() > 0 }

  lemma {:induction false} AtPush(orders: seq<Order>, o: Order, id: OrderId)
    ensures OrderAt(orders + [o], id) == if o.id == id then Some(|orders|) else OrderAt(orders, id)
  {
    assert (orders + [o])[..|orders|] == orders;
  }

  lemma {:induction false} BookKeeps(x: Setup, w: Worker, a: S.Action)
    requires Good(x, w)
    ensures Good(x, Act(x, w, Gateway(a)))
  {
    hide Inv, S.Step, Recorded, Mirror, Sane, Said, OrderAt, History;
    var w' := Act(x, w, Gateway(a));
    if w' != w {
      S.StepKeeps(w.s, a);
      BookedOrders(w.s, a);
      if w'.s.orders != w.s.orders {
        var o := w'.s.orders[|w.s.orders|];
        BookedMirrors(x, w, o);
        BookedRecorded(x, w, o);
      }
    }
  }

  /** Nothing has been said of an order that is not recorded. */
  lemma {:induction false} Unsent(x: Setup, w: Worker, id: OrderId)
    requires Sane(x) && InPlace(x, w) && AllRecorded(x, w) && OrderAt(w.s.orders, id).None?
    ensures var h := Heard(x, w); FilledQty(h, id) == 0 && ReleasedQty(h, id) == 0 && forall r :: r in h ==>
      !Rejects(r, id)
  {
    hide Recorded, OrderAt, History, FilledQty, ReleasedQty, Results;
    var n := if w.p == 0 then w.i else w.i + 1;
    forall c | c in x.cmds[..n] ensures !Names(c.command, id) {
      var k :| 0 <= k < n && x.cmds[k] == c;
      assert RecordedAt(x, w.s.orders, k);
    }
    UnnamedUnheard(x.engine, x.cmds, w.i, w.p, n, id);
  }

  /** An order just recorded is not one the engine was sent, so nothing has been said of it. */
  lemma {:induction false} BookedMirrors(x: Setup, w: Worker, o: Order)
    requires Good(x, w) && OrderAt(w.s.orders, o.id).None? && NewlyBooked(o, o.id)
    ensures AllMirror(x, Heard(x, w), w.early, w.s.orders + [o]) && UniqueIds(w.s.orders + [o])
  {
    hide Inv, Recorded, OrderAt, History;
    assert UniqueIds(w.s.orders + [o]) by { assert forall j :: 0 <= j < |w.s.orders| ==> w.s.orders[j] in w.s.orders; }
    Unsent(x, w, o.id);
    assert Mirror(x, Heard(x, w), w.early, o);
  }

  lemma {:induction false} BookedRecorded(x: Setup, w: Worker, o: Order)
    requires w.sent <= |x.cmds| && AllRecorded(x, w) && OrderAt(w.s.orders, o.id).None?
    ensures AllRecorded(x, w.(s := w.s.(orders := w.s.orders + [o])))
  {
    hide Recorded, OrderAt;
    forall k | 0 <= k < w.sent ensures RecordedAt(x, w.s.orders + [o], k) {
      assert RecordedAt(x, w.s.orders, k);
      var id := IdOf(x.cmds[k].command);
      if id.Some? { AtPush(w.s.orders, o, id.value); }
    }
  }

  lemma {:induction false} SendKeeps(x: Setup, w: Worker)
    requires Good(x, w)
    ensures Good(x, Act(x, w, Send))
  {
    hide Inv, Recorded, Mirror, OrderAt, History, Results;
    var w' := Act(x, w, Send);
    if w' != w {
      forall k | 0 <= k < w'.sent ensures RecordedAt(x, w.s.orders, k) {
        if k < w.sent { assert RecordedAt(x, w.s.orders, k); }
      }
    }
  }

  /** The same order with other fills or another status. */
  predicate Same(a: Order, b: Order) {
    b == a.(fills := b.fills, live := b.live, released := b.released)
  }

  ghost predicate AllSame(a: seq<Order>, b: seq<Order>) {
    |a| == |b| && forall j :: 0 <= j < |a| ==> Same(a[j], b[j])
  }

  lemma {:induction false} SameAt(a: seq<Order>, b: seq<Order>, id: OrderId)
    requires AllSame(a, b)
    ensures OrderAt(a, id) == OrderAt(b, id)
  {
    if a == [] {
    } else {
      var n := |a| - 1;
      assert Same(a[n], b[n]);
      SameAt(a[..n], b[..n], id);
    }
  }

  lemma {:induction false} SameRecorded(x: Setup, w: Worker, w': Worker)
    requires w.sent == w'.sent <= |x.cmds| && AllRecorded(x, w) && UniqueIds(w.s.orders)
    requires AllSame(w.s.orders, w'.s.orders)
    ensures AllRecorded(x, w') && UniqueIds(w'.s.orders)
  {
    hide OrderAt, Run, TermsOf, PlacedBy;
    var a, b := w.s.orders, w'.s.orders;
    forall i, j | 0 <= i < j < |b| ensures b[i].id != b[j].id {
      assert Same(a[i], b[i]) && Same(a[j], b[j]);
    }
    forall k | 0 <= k < w.sent ensures RecordedAt(x, b, k) {
      assert RecordedAt(x, a, k);
      var id := IdOf(x.cmds[k].command);
      if id.Some? {
        SameAt(a, b, id.value);
        var j := OrderAt(a, id.value).value;
        assert Same(a[j], b[j]);
        RecordedSame(x, k, a[j], b[j]);
      }
    }
  }

  lemma RecordedSame(x: Setup, k: nat, a: Order, b: Order)
    requires k < |x.cmds| && Recorded(x, k, a) && Same(a, b)
    ensures Recorded(x, k, b)
  {
    hide Run, TermsOf, PlacedBy;
  }

  lemma {:induction false} CloseKeepsGood(x: Setup, w: Worker, id: OrderId)
    requires Good(x, w)
    ensures Good(x, Act(x, w, CloseUntraded(id)))
  {
    hide Inv, Recorded, OrderAt, History, Results, S.Close, NeverTrades, FilledQty, ReleasedQty, Rejects;
    var w' := Act(x, w, CloseUntraded(id));
    if w' != w {
      var j := OrderAt(w.s.orders, id).value;
      S.CloseKeeps(w.s, j);
      ClosedOnly(w.s, j);
      SameRecorded(x, w, w');
      forall i | i in w'.early ensures OrderAt(w'.s.orders, i).Some? { SameAt(w.s.orders, w'.s.orders, i); }
      forall n | 0 <= n < |w.s.orders| ensures Mirror(x, Heard(x, w), w'.early, w'.s.orders[n]) {
        assert Mirror(x, Heard(x, w), w.early, w.s.orders[n]);
        if n != j {
          assert w'.s.orders[n] == w.s.orders[n];
          if n < j { assert w.s.orders[n].id != id; } else { assert w.s.orders[n].id != id; }
        }
      }
    }
  }

  /** Closing an order touches no other and none of its fills. */
  lemma ClosedOnly(s: Exchange, j: nat)
    requires j < |s.orders|
    ensures var after := S.Close(s, j);
      && |after.orders| == |s.orders| && S.Ended(after.orders[j], s.orders[j])
      && (forall n :: 0 <= n < |s.orders| && n != j ==> after.orders[n] == s.orders[n])
      && AllSame(s.orders, after.orders)
  {
    hide Order.Residue, Order.HoldAsset;
  }

  // ------------------------------------------------------------------ what an event finds

  /** The worker is at an event. */
  ghost predicate Facing(x: Setup, w: Worker) { Good(x, w) && w.i < w.sent && w.p < |Said(x)[w.i].events| }

  ghost function NextEvent(x: Setup, w: Worker): Event
    requires Facing(x, w)
  {
    Said(x)[w.i].events[w.p]
  }

  /** An event about an order finds it recorded as it was sent, agrees with what was heard of it, and finds it
      not refused. */
  lemma {:induction false} Finds(x: Setup, w: Worker, id: OrderId) returns (j: nat, k: nat)
    requires Facing(x, w) && Concerns(NextEvent(x, w), id)
    ensures k <= w.i && Names(x.cmds[k].command, id) && OrderAt(w.s.orders, id) == Some(j)
      && Recorded(x, k, w.s.orders[j])
    ensures TermsOf(Run(Initial(x.engine), x.cmds[..k]), x.cmds[k].command).Some?
    ensures var h := Heard(x, w);
      && Agrees(w.s.orders[j].qty, k == w.i, FilledQty(h, id), ReleasedQty(h, id), NextEvent(x, w), id)
      && (forall r :: r in h ==> !Rejects(r, id))
  {
    hide Inv, Recorded, OrderAt, History, FilledQty, ReleasedQty, Results, Run, TermsOf, Agrees, FilledBefore,
      ReleasedBefore;
    k := ConcernedHasTerms(x.engine, x.cmds, w.i, w.p, id);
    assert RecordedAt(x, w.s.orders, k);
    j := OrderAt(w.s.orders, id).value;
    RunAgrees(x.engine, x.cmds, k, w.i, w.p, id);
    HistorySums(Said(x), w.i, w.p, id);
    QtyIsPlaced(x, k, w.s.orders[j]);
    assert Mirror(x, Heard(x, w), w.early, w.s.orders[j]);
    NotRefusedYet(x.engine, x.cmds, k, w.i, w.p, id);
  }

  lemma QtyIsPlaced(x: Setup, k: nat, o: Order)
    requires k < |x.cmds| && Recorded(x, k, o)
    requires TermsOf(Run(Initial(x.engine), x.cmds[..k]), x.cmds[k].command).Some?
    ensures o.qty == PlacedBy(Run(Initial(x.engine), x.cmds[..k]), x.cmds[k].command, o.id)
  {
    hide Run, TermsOf, PlacedBy;
  }

  // ------------------------------------------------------------------ hearing one event more

  lemma MirrorUnconcerned(x: Setup, h: seq<Event>, early: set<OrderId>, o: Order, e: Event)
    requires Mirror(x, h, early, o) && !Concerns(e, o.id)
    ensures Mirror(x, h + [e], early, o)
  {
    hide FilledQty, ReleasedQty, NeverTrades, Priced, TotalQty;
    EventSumsPush(h, e, o.id);
    OverPush(h, e, o);
  }

  lemma OverPush(h: seq<Event>, e: Event, o: Order)
    ensures Over(h + [e], o) <==>
      || FilledQty(h, o.id) + FilledIn(e, o.id) >= o.qty || ReleasedQty(h, o.id) + ReleasedIn(e, o.id) > 0
      || (exists r :: r in h && Rejects(r, o.id)) || Rejects(e, o.id)
  {
    hide FilledQty, ReleasedQty, Rejects;
    EventSumsPush(h, e, o.id);
    assert e in h + [e];
    assert forall r :: r in h + [e] <==> r in h || r == e;
  }

  /** Everyone else's order is untouched and unconcerned. */
  lemma {:induction false} OthersMirror(x: Setup, w: Worker, orders: seq<Order>, j: nat)
    requires Facing(x, w) && |orders| == |w.s.orders| && j < |orders|
    requires forall n :: 0 <= n < |orders| && n != j ==> orders[n] == w.s.orders[n]
    requires forall id :: Concerns(NextEvent(x, w), id) ==> id == w.s.orders[j].id
    requires Mirror(x, Heard(x, w) + [NextEvent(x, w)], w.early, orders[j])
    ensures AllMirror(x, Heard(x, w) + [NextEvent(x, w)], w.early, orders)
  {
    hide Inv, Recorded, OrderAt, History, Results, Mirror, Concerns, Said;
    var h, e := Heard(x, w), NextEvent(x, w);
    forall n | 0 <= n < |orders| ensures Mirror(x, h + [e], w.early, orders[n]) {
      if n != j {
        assert Mirror(x, h, w.early, w.s.orders[n]);
        if n < j { assert w.s.orders[n].id != w.s.orders[j].id; } else { assert w.s.orders[j].id != w.s.orders[n].id; }
        MirrorUnconcerned(x, h, w.early, w.s.orders[n], e);
      }
    }
  }

  /** The worker moves one event on. */
  lemma {:induction false} WentKeeps(x: Setup, w: Worker, s: Exchange)
    requires Facing(x, w) && Inv(s) && AllSame(w.s.orders, s.orders)
    requires AllMirror(x, Heard(x, w) + [NextEvent(x, w)], w.early, s.orders)
    ensures Good(x, Went(w, s))
  {
    hide Inv, Recorded, OrderAt, History, Results, Mirror;
    SameRecorded(x, w, Went(w, s));
    forall i | i in w.early ensures OrderAt(s.orders, i).Some? { SameAt(w.s.orders, s.orders, i); }
    HistoryNext(Said(x), w.i, w.p);
  }

  /** An event that ends an order finds it open, or closed by the gateway, with everything accounted for. */
  lemma {:induction false} EndingKeeps(x: Setup, w: Worker, id: OrderId, accounted: Order -> bool)
    requires Facing(x, w) && Concerns(NextEvent(x, w), id)
    requires var e := NextEvent(x, w);
      && !e.Filled? && !e.Accepted?
      && (forall o: Order :: accounted(o) <==> o.Remaining() == if e.Rejected? then o.qty else e.remainingQty)
    ensures Good(x, EndOrder(w, id, accounted)) && EndOrder(w, id, accounted).halted == w.halted
  {
    hide Inv, Recorded, OrderAt, History, Results, FilledQty, ReleasedQty, NeverTrades, Rejects, TermsOf, Run, PlacedBy;
    hide S.Close, Priced, TotalQty, S.Ended;
    var j, k := Finds(x, w, id);
    var o, h, e := w.s.orders[j], Heard(x, w), NextEvent(x, w);
    assert Mirror(x, h, w.early, o);
    assert accounted(o);
    OverPush(h, e, o);
    Rejected(e, id);
    var s := if o.live then S.Close(w.s, j) else w.s;
    if o.live {
      S.CloseKeeps(w.s, j);
      ClosedOnly(w.s, j);
      EndedIs(s.orders[j], o);
    } else {
      AllSameItself(w.s.orders);
    }
    EndedMirrors(x, h, w.early, o, s.orders[j], e);
    OthersMirror(x, w, s.orders, j);
    WentKeeps(x, w, s);
  }

  lemma Rejected(e: Event, id: OrderId)
    requires Concerns(e, id) && !e.Filled? && !e.Accepted?
    ensures e.Rejected? <==> Rejects(e, id)
    ensures !e.Rejected? ==> ReleasedIn(e, id) == e.remainingQty
    ensures forall other :: Concerns(e, other) ==> other == id
  {
  }

  lemma EndedIs(a: Order, o: Order)
    requires S.Ended(a, o)
    ensures a == o.(live := false, released := a.released)
  {
  }

  lemma AllSameItself(orders: seq<Order>)
    ensures AllSame(orders, orders)
  {
  }

  lemma EndedMirrors(x: Setup, h: seq<Event>, early: set<OrderId>, o: Order, o': Order, e: Event)
    requires Mirror(x, h, early, o) && Over(h + [e], o) && !e.Filled?
    requires o' == o.(live := false, released := o'.released)
    ensures Mirror(x, h + [e], early, o')
  {
    hide FilledQty, ReleasedQty, NeverTrades, Rejects, TotalQty;
    EventSumsPush(h, e, o.id);
  }

  lemma {:induction false} AcceptedKeeps(x: Setup, w: Worker)
    requires Facing(x, w) && NextEvent(x, w).Accepted?
    ensures var e := NextEvent(x, w); var w' := ApplyAccepted(w, e.orderId, e.restingQty);
      Good(x, w') && w'.halted == w.halted
  {
    hide Inv, Recorded, OrderAt, History, Results, FilledQty, ReleasedQty, NeverTrades, TermsOf, Run, PlacedBy;
    hide Priced, TotalQty;
    var e, h := NextEvent(x, w), Heard(x, w);
    var j, k := Finds(x, w, e.orderId);
    var o := w.s.orders[j];
    assert Mirror(x, h, w.early, o);
    StaysMirrored(x, h, w.early, o, e);
    AllSameItself(w.s.orders);
    OthersMirror(x, w, w.s.orders, j);
    WentKeeps(x, w, w.s);
  }

  lemma StaysMirrored(x: Setup, h: seq<Event>, early: set<OrderId>, o: Order, e: Event)
    requires Mirror(x, h, early, o) && FilledIn(e, o.id) == 0 && ReleasedIn(e, o.id) == 0 && !Rejects(e, o.id)
    ensures Mirror(x, h + [e], early, o)
  {
    hide FilledQty, ReleasedQty, NeverTrades, Priced, TotalQty, Rejects;
    EventSumsPush(h, e, o.id);
    OverPush(h, e, o);
  }

  /** An event about no order. */
  lemma {:induction false} QuietKeeps(x: Setup, w: Worker)
    requires Facing(x, w) && forall id :: !Concerns(NextEvent(x, w), id)
    ensures Good(x, Went(w, w.s))
  {
    hide Inv, Recorded, OrderAt, History, Results, Mirror, Concerns, Said;
    var e, h := NextEvent(x, w), Heard(x, w);
    forall n | 0 <= n < |w.s.orders| ensures Mirror(x, h + [e], w.early, w.s.orders[n]) {
      assert Mirror(x, h, w.early, w.s.orders[n]);
      MirrorUnconcerned(x, h, w.early, w.s.orders[n], e);
    }
    AllSameItself(w.s.orders);
    WentKeeps(x, w, w.s);
  }

  // ------------------------------------------------------------------ a fill

  /** An order a fill names is open, with that much left. */
  lemma FillFindsOpen(x: Setup, w: Worker, j: nat, k: nat, id: OrderId)
    requires Facing(x, w) && NextEvent(x, w).Filled? && Concerns(NextEvent(x, w), id)
      && OrderAt(w.s.orders, id) == Some(j)
    requires var h := Heard(x, w);
      && Agrees(w.s.orders[j].qty, k == w.i, FilledQty(h, id), ReleasedQty(h, id), NextEvent(x, w), id)
      && (forall r :: r in h ==> !Rejects(r, id))
    ensures var o, f := w.s.orders[j], NextEvent(x, w).fill;
      o.live && 0 < f.qty <= o.Remaining() <= o.qty && TotalQty(o.fills) == FilledQty(Heard(x, w), id)
      && ReleasedQty(Heard(x, w), id) == 0
  {
    hide Inv, AllRecorded, UniqueIds, History, FilledQty, ReleasedQty, Results, OrderAt, Rejects, TotalQty, Priced;
    assert Mirror(x, Heard(x, w), w.early, w.s.orders[j]);
    assert Trades(NextEvent(x, w), id);
  }

  /** Two different orders of the market on opposite sides, and a price within what the buy reserved at. */
  ghost predicate Fits(x: Setup, w: Worker, tj: nat, mj: nat)
    requires Facing(x, w) && NextEvent(x, w).Filled? && tj < |w.s.orders| && mj < |w.s.orders|
  {
    var f, t, m := NextEvent(x, w).fill, w.s.orders[tj], w.s.orders[mj];
    var buy := if f.takerSide == Buy then t else m;
    && tj != mj && t.side == f.takerSide && m.side == f.takerSide.Opposite() && f.price > 0
    && t.base == m.base == x.base && t.quote == m.quote == x.quote
    && f.price <= buy.reserve && Value(buy.reserve, buy.qty) <= MAX_U64
  }

  /** The maker was brought in earlier at the fill's price, the taker just now within its limit. */
  lemma {:induction false} FillFits(x: Setup, w: Worker, tj: nat, tk: nat, mj: nat, mk: nat)
    requires Facing(x, w) && NextEvent(x, w).Filled?
    requires var f := NextEvent(x, w).fill;
      && tk <= w.i && Names(x.cmds[tk].command, f.takerOrderId) && OrderAt(w.s.orders, f.takerOrderId) == Some(tj)
      && mk <= w.i && Names(x.cmds[mk].command, f.makerOrderId) && OrderAt(w.s.orders, f.makerOrderId) == Some(mj)
      && Recorded(x, tk, w.s.orders[tj]) && Recorded(x, mk, w.s.orders[mj])
    ensures Fits(x, w, tj, mj)
  {
    hide Inv, OrderAt, AllMirror, AllRecorded, UniqueIds, History, Results, Run, TermsOf, PlacedBy, Value;
    var f := NextEvent(x, w).fill;
    var k := FillHasTerms(x.engine, x.cmds, w.i, f);
    OthersBefore(x.cmds, w.i, f.takerOrderId);
    OthersBefore(x.cmds, k, f.makerOrderId);
    SameCommand(x.cmds, tk, w.i, f.takerOrderId);
    SameCommand(x.cmds, mk, k, f.makerOrderId);
  }

  lemma SameCommand(cmds: seq<SequencedCommand>, a: nat, b: nat, id: OrderId)
    requires FreshIds(cmds) && a < |cmds| && b < |cmds| && Names(cmds[a].command, id) && Names(cmds[b].command, id)
    ensures a == b
  {
  }

  function BuyIn(tj: nat, mj: nat, f: Fill): nat { if f.takerSide == Buy then tj else mj }

  function SellIn(tj: nat, mj: nat, f: Fill): nat { if f.takerSide == Buy then mj else tj }

  /** What the engine says of a fill is what settlement requires of it, and the ledger takes the trade. */
  lemma {:induction false} FillIsTaken(x: Setup, w: Worker, fillId: string, takerBps: nat, makerBps: nat)
    returns (tj: nat, mj: nat)
    requires Facing(x, w) && NextEvent(x, w).Filled?
    requires takerBps <= WORST_CASE_TAKER_BPS && makerBps <= WORST_CASE_TAKER_BPS
    ensures var f := NextEvent(x, w).fill;
      && OrderAt(w.s.orders, f.takerOrderId) == Some(tj) && OrderAt(w.s.orders, f.makerOrderId) == Some(mj) && tj != mj
      && var b, n, terms := BuyIn(tj, mj, f), SellIn(tj, mj, f), TermsFor(f, takerBps, makerBps);
         && S.Matched(w.s, b, n, terms) && Commits(S.TradeOf(fillId, w.s.orders[b], w.s.orders[n], terms))
    ensures forall id :: id == w.s.orders[tj].id || id == w.s.orders[mj].id ==>
      && ReleasedQty(Heard(x, w), id) == 0 && forall r :: r in Heard(x, w) ==> !Rejects(r, id)
  {
    hide Inv, Recorded, OrderAt, AllMirror, AllRecorded, UniqueIds, History, Results, Run, TermsOf, FilledQty,
      ReleasedQty;
    hide AmountsOf, Value, Commits, Rejects, Agrees, Order.Remaining, ClusterOf;
    var f := NextEvent(x, w).fill;
    var tk, mk;
    tj, tk := Finds(x, w, f.takerOrderId);
    mj, mk := Finds(x, w, f.makerOrderId);
    FillFindsOpen(x, w, tj, tk, f.takerOrderId);
    FillFindsOpen(x, w, mj, mk, f.makerOrderId);
    FillFits(x, w, tj, tk, mj, mk);
    var b, n, terms := BuyIn(tj, mj, f), SellIn(tj, mj, f), TermsFor(f, takerBps, makerBps);
    AmountsFit(terms, w.s.orders[b].reserve, w.s.orders[b].qty);
    S.TradeCommits(fillId, w.s.orders[b], w.s.orders[n], terms);
  }

  /** The fill takes the last of the buy's hold and does not complete it. */
  ghost predicate EmptiesHold(x: Setup, w: Worker, takerBps: nat, makerBps: nat)
    requires Facing(x, w) && NextEvent(x, w).Filled? && AmountsOf(TermsFor(NextEvent(x, w).fill, takerBps,
        makerBps)).Success?
  {
    var f := NextEvent(x, w).fill;
    var b := OrderAt(w.s.orders, if f.takerSide == Buy then f.takerOrderId else f.makerOrderId);
    && b.Some?
    && var o := S.Filled(w.s.orders[b.value], TermsFor(f, takerBps, makerBps));
       o.Remaining() > 0 && o.Residue() == 0
  }

  lemma FilledMirrors(x: Setup, h: seq<Event>, early: set<OrderId>, o: Order, o': Order, e: Event, terms: FillTerms)
    requires Mirror(x, h, early, o) && o.live && AmountsOf(terms).Success? && terms.qty <= o.Remaining()
    requires e.Filled? && FilledIn(e, o.id) == terms.qty && ReleasedQty(h, o.id) == 0
    requires forall r :: r in h ==> !Rejects(r, o.id)
    requires Priced(S.Filled(o, terms)) && (x.engine.lotSize > 0 ==> terms.qty % x.engine.lotSize == 0)
    requires var done := S.Filled(o, terms); if done.Remaining() == 0 then S.Ended(o', done) else o' == done
    requires o'.live ==> o'.Residue() > 0
    ensures Mirror(x, h + [e], early, o')
  {
    hide FilledQty, ReleasedQty, NeverTrades, TotalQty, AmountsOf, Within, FilledIn;
    var done := S.Filled(o, terms);
    Halts.FilledQtyIs(o, terms);
    EventSumsPush(h, e, o.id);
    OverPush(h, e, o);
    LotsPush(o, terms, x.engine.lotSize);
  }

  lemma LotsPush(o: Order, terms: FillTerms, lot: nat)
    requires AmountsOf(terms).Success? && (lot > 0 ==> Halts.WholeLots(o.fills, lot) && terms.qty % lot == 0)
    ensures lot > 0 ==> Halts.WholeLots(S.Filled(o, terms).fills, lot)
  {
    hide AmountsOf;
  }

  lemma {:induction false} FillOnGrid(x: Setup, i: nat, p: nat)
    requires i < |x.cmds| && p < |Said(x)[i].events| && Said(x)[i].events[p].Filled?
    ensures x.engine.lotSize > 0 ==> Said(x)[i].events[p].fill.qty % x.engine.lotSize == 0
  {
    Admission.RunKeepsGrid(x.engine, x.cmds);
    hide Results, Run;
    assert Said(x)[i].events[p] in Said(x)[i].events;
  }

  /** Everyone but the two sides of a fill is untouched and unconcerned. */
  lemma {:induction false} BothMirror(x: Setup, w: Worker, orders: seq<Order>, tj: nat, mj: nat)
    requires Facing(x, w) && NextEvent(x, w).Filled? && |orders| == |w.s.orders| && tj < |orders| && mj < |orders|
    requires var f := NextEvent(x, w).fill; w.s.orders[tj].id == f.takerOrderId && w.s.orders[mj].id == f.makerOrderId
    requires forall n :: 0 <= n < |orders| && n != tj && n != mj ==> orders[n] == w.s.orders[n]
    requires var h := Heard(x, w) + [NextEvent(x, w)];
      Mirror(x, h, w.early, orders[tj]) && Mirror(x, h, w.early, orders[mj])
    ensures AllMirror(x, Heard(x, w) + [NextEvent(x, w)], w.early, orders)
  {
    hide Inv, Recorded, OrderAt, History, Results, Mirror, Said;
    var h, e := Heard(x, w), NextEvent(x, w);
    forall n | 0 <= n < |orders| ensures Mirror(x, h + [e], w.early, orders[n]) {
      if n != tj && n != mj {
        assert Mirror(x, h, w.early, w.s.orders[n]);
        DifferentIds(w.s.orders, n, tj);
        DifferentIds(w.s.orders, n, mj);
        MirrorUnconcerned(x, h, w.early, w.s.orders[n], e);
      }
    }
  }

  lemma DifferentIds(orders: seq<Order>, i: nat, j: nat)
    requires UniqueIds(orders) && i < |orders| && j < |orders| && i != j
    ensures orders[i].id != orders[j].id
  {
  }

  /** A fill keeps everything, and stops the worker exactly when it empties a hold it does not complete. */
  lemma {:induction false} FillKeeps(x: Setup, w: Worker, fillId: string, takerBps: nat, makerBps: nat)
    requires Facing(x, w) && NextEvent(x, w).Filled?
    requires takerBps <= WORST_CASE_TAKER_BPS && makerBps <= WORST_CASE_TAKER_BPS
    ensures AmountsOf(TermsFor(NextEvent(x, w).fill, takerBps, makerBps)).Success?
    ensures var w' := ApplyFill(w, NextEvent(x, w).fill, fillId, takerBps, makerBps);
      Good(x, w') && (w'.halted <==> w.halted || EmptiesHold(x, w, takerBps, makerBps))
  {
    hide Inv, Recorded, OrderAt, AllMirror, AllRecorded, UniqueIds, History, Results, Run, FilledQty, ReleasedQty;
    hide AmountsOf, Commits, Rejects, Order.Remaining, Order.Residue, S.Settles, S.Disposed, S.Filled, Sane;
    var f := NextEvent(x, w).fill;
    var tj, mj := FillIsTaken(x, w, fillId, takerBps, makerBps);
    var b, n, terms := BuyIn(tj, mj, f), SellIn(tj, mj, f), TermsFor(f, takerBps, makerBps);
    BuyIsPriced(x, w, b);
    S.HaltsExactly(w.s, fillId, b, n, terms);
    StopKeeps(x, w);
    LeftIsNatural(w.s.orders[b], terms);
    if S.Settles(w.s, fillId, b, n, terms) {
      Disposes(x, w, fillId, tj, mj, terms);
      WentKeeps(x, w, S.Disposed(w.s, fillId, b, n, terms));
    }
  }

  lemma StopKeeps(x: Setup, w: Worker)
    requires Good(x, w)
    ensures Good(x, Stop(w))
  {
    hide Inv, Recorded, OrderAt, History, Results, AllMirror;
  }

  lemma LeftIsNatural(o: Order, terms: FillTerms)
    requires AmountsOf(terms).Success? && terms.qty <= o.Remaining()
    ensures S.Filled(o, terms).Remaining() >= 0
  {
    hide AmountsOf, TotalQty;
    Halts.FilledQtyIs(o, terms);
  }

  lemma BuyIsPriced(x: Setup, w: Worker, b: nat)
    requires Good(x, w) && b < |w.s.orders|
    ensures Priced(w.s.orders[b]) && Mirror(x, Heard(x, w), w.early, w.s.orders[b]) && OrderOk(w.s.orders[b])
  {
    hide Recorded, OrderAt, AllRecorded, UniqueIds, History, Results, OrderOk, AllSquare;
    assert Mirror(x, Heard(x, w), w.early, w.s.orders[b]);
    assert w.s.orders[b] in w.s.orders;
  }

  lemma {:induction false} Disposes(x: Setup, w: Worker, fillId: string, tj: nat, mj: nat, terms: FillTerms)
    requires Facing(x, w) && NextEvent(x, w).Filled?
    requires var f := NextEvent(x, w).fill;
      && terms == TermsFor(f, terms.takerBps, terms.makerBps) && tj != mj
      && OrderAt(w.s.orders, f.takerOrderId) == Some(tj) && OrderAt(w.s.orders, f.makerOrderId) == Some(mj)
      && var b, n := BuyIn(tj, mj, f), SellIn(tj, mj, f);
         && S.Matched(w.s, b, n, terms) && S.Settles(w.s, fillId, b, n, terms)
         && Commits(S.TradeOf(fillId, w.s.orders[b], w.s.orders[n], terms))
    requires forall id :: id == w.s.orders[tj].id || id == w.s.orders[mj].id ==>
      && ReleasedQty(Heard(x, w), id) == 0 && forall r :: r in Heard(x, w) ==> !Rejects(r, id)
    ensures var f := NextEvent(x, w).fill;
      var s := S.Disposed(w.s, fillId, BuyIn(tj, mj, f), SellIn(tj, mj, f), terms);
      && Inv(s) && AllSame(w.s.orders, s.orders)
      && AllMirror(x, Heard(x, w) + [NextEvent(x, w)], w.early, s.orders)
  {
    hide Inv, Recorded, OrderAt, AllMirror, AllRecorded, History, Results, FilledQty, ReleasedQty, Mirror, Said;
    hide AmountsOf, Commits, Rejects, Order.Remaining, Order.Residue, S.Disposed, S.Filled, Sane, OrderOk, Priced;
    var f, h, e := NextEvent(x, w).fill, Heard(x, w), NextEvent(x, w);
    var b, n := BuyIn(tj, mj, f), SellIn(tj, mj, f);
    var s := S.Disposed(w.s, fillId, b, n, terms);
    S.SettleKeeps(w.s, fillId, b, n, terms);
    S.DisposedOrders(w.s, fillId, b, n, terms);
    DifferentIds(w.s.orders, tj, mj);
    BuyIsPriced(x, w, tj);
    BuyIsPriced(x, w, mj);
    S.PricedIsCovered(w.s.orders[tj], terms);
    S.PricedIsCovered(w.s.orders[mj], terms);
    FillOnGrid(x, w.i, w.p);
    FilledMirrors(x, h, w.early, w.s.orders[tj], s.orders[tj], e, terms);
    FilledMirrors(x, h, w.early, w.s.orders[mj], s.orders[mj], e, terms);
    BothMirror(x, w, s.orders, tj, mj);
    FilledSame(w.s.orders[b], s.orders[b], terms);
    FilledSame(w.s.orders[n], s.orders[n], terms);
    forall j | 0 <= j < |s.orders| ensures Same(w.s.orders[j], s.orders[j]) {
    }
  }

  lemma FilledSame(o: Order, o': Order, terms: FillTerms)
    requires AmountsOf(terms).Success? && (o' == S.Filled(o, terms) || S.Ended(o', S.Filled(o, terms)))
    ensures Same(o, o')
  {
    hide AmountsOf;
  }

  // ------------------------------------------------------------------ every step, and what stops it

  /** The deed applies an event, at rates the fee schedule knows. */
  ghost predicate Applying(x: Setup, w: Worker, d: Deed) {
    d.Next? && Facing(x, w) && d.takerBps <= WORST_CASE_TAKER_BPS && d.makerBps <= WORST_CASE_TAKER_BPS
  }

  ghost predicate AtEmptyingFill(x: Setup, w: Worker, d: Deed)
    requires d.Next?
  {
    && Facing(x, w) && NextEvent(x, w).Filled?
    && AmountsOf(TermsFor(NextEvent(x, w).fill, d.takerBps, d.makerBps)).Success?
    && EmptiesHold(x, w, d.takerBps, d.makerBps)
  }

  lemma {:induction false} EventKeeps(x: Setup, w: Worker, d: Deed)
    requires Applying(x, w, d) && !w.halted
    ensures var w' := ApplyEvent(w, NextEvent(x, w), d.fillId, d.takerBps, d.makerBps);
      Good(x, w') && (w'.halted <==> AtEmptyingFill(x, w, d))
  {
    hide Good, ApplyFill, EndOrder, ApplyAccepted, EmptiesHold, AmountsOf, Results;
    var e := NextEvent(x, w);
    match e
    case Filled(f) => FillKeeps(x, w, d.fillId, d.takerBps, d.makerBps);
    case Cancelled(_, id, remaining) => EndingKeeps(x, w, id, (o: Order) => o.Remaining() == remaining);
    case Expired(_, id, remaining) => EndingKeeps(x, w, id, (o: Order) => o.Remaining() == remaining);
    case Rejected(_, id, reason) =>
      if reason == UnknownOrder { QuietKeeps(x, w); }
      else { EndingKeeps(x, w, id, (o: Order) => o.Remaining() == o.qty); }
    case Accepted(_, id, resting) => AcceptedKeeps(x, w);
    case StatusChanged(_, _, _) => QuietKeeps(x, w);
  }

  lemma {:induction false} TurnKeeps(x: Setup, w: Worker)
    requires Good(x, w) && w.i < w.sent && w.p == |Said(x)[w.i].events|
    ensures Good(x, w.(i := w.i + 1, p := 0))
  {
    hide Inv, Recorded, OrderAt, Results, History, AllMirror;
    HistoryTurn(Said(x), w.i);
  }

  /** Every deed keeps the ledger's orders in step with what the engine said, and only one thing ever stops the
      worker: a fill that takes the last of a buy's hold without completing the buy. */
  lemma {:induction false} StepHaltsExactly(x: Setup, w: Worker, d: Deed)
    requires Good(x, w)
    ensures Good(x, Act(x, w, d))
    ensures !w.halted ==> (Act(x, w, d).halted <==> Applying(x, w, d) && AtEmptyingFill(x, w, d))
  {
    hide Inv, Recorded, OrderAt, Results, History, AllMirror, ApplyEvent, AtEmptyingFill, Sane, UniqueIds, AllRecorded;
    match d
    case Gateway(a) => BookKeeps(x, w, a);
    case Send => SendKeeps(x, w);
    case CloseUntraded(id) => CloseKeepsGood(x, w, id);
    case Next(fillId, takerBps, makerBps) =>
      if Applying(x, w, d) && !w.halted {
        EventKeeps(x, w, d);
      } else if Act(x, w, d) != w {
        TurnKeeps(x, w);
      }
  }

  lemma {:induction false} StartIsGood(x: Setup)
    requires Sane(x)
    ensures Good(x, START)
  {
    S.NothingIsSquare();
  }

  lemma {:induction false} RunIsGood(x: Setup, deeds: seq<Deed>)
    requires Sane(x)
    ensures Good(x, RunFrom(x, START, deeds))
  {
    hide Good, Act;
    if deeds == [] {
      StartIsGood(x);
    } else {
      RunIsGood(x, deeds[..|deeds| - 1]);
      StepHaltsExactly(x, RunFrom(x, START, deeds[..|deeds| - 1]), deeds[|deeds| - 1]);
    }
  }
}
