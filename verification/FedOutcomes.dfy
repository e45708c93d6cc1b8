/** What the fed settlement worker comes to: it never stops in a market whose last lots add to the reserve, and
    once it has caught up the ledger's open orders are the engine's resting ones. */
module FedOutcomes {
  import opened MatchingTypes
  import opened ReferenceMatcher
  import opened MatchingTheorems
  import opened MatchingRuns
  import opened SettlementFeed
  import opened MatchedFills
  import opened EventHistory
  import opened Orders
  import opened Settlement
  import opened FedSettlement
  import S = SettlementRuns
  import Halts = SettlementHalts

  // ------------------------------------------------------------------ a worker that never stops

  /** Whole lots, the last of which adds to what a buy reserves. */
  predicate LastLotAdds(reserve: nat, qty: nat, lot: nat) {
    0 < lot <= qty && qty % lot == 0 && BuyReserve(reserve, qty - lot) < BuyReserve(reserve, qty)
  }

  predicate SafeOrder(o: Order, lot: nat) { o.side == Buy ==> LastLotAdds(o.reserve, o.qty, lot) }

  ghost predicate AllSafe(orders: seq<Order>, lot: nat) { forall j :: 0 <= j < |orders| ==> SafeOrder(orders[j], lot) }

  /** The gateway takes no buy whose last lot adds nothing. */
  predicate SafeDeed(d: Deed, lot: nat) {
    d.Gateway? && d.a.Submit? && ComputeHold(d.a.request, d.a.market, d.a.reference).Success? ==>
      SafeOrder(S.NewOrder(d.a.id, d.a.user, d.a.request, d.a.market, d.a.reference), lot)
  }

  lemma {:induction false} StaysSafe(x: Setup, w: Worker, d: Deed)
    requires Good(x, w) && AllSafe(w.s.orders, x.engine.lotSize) && SafeDeed(d, x.engine.lotSize)
    ensures AllSafe(Act(x, w, d).s.orders, x.engine.lotSize)
  {
    hide SafeOrder, Good, S.Step, ComputeHold, S.NewOrder, Results, Order.Residue;
    var lot, w' := x.engine.lotSize, Act(x, w, d);
    match d
    case Gateway(a) =>
      if Allowed(w.s.orders, a) { BookedOrders(w.s, a); }
    case Send =>
    case CloseUntraded(id) =>
      var j := OrderAt(w.s.orders, id);
      if j.Some? {
        ClosedOnly(w.s, j.value);
        SameSafe(w.s.orders, S.Close(w.s, j.value).orders, lot);
      }
    case Next(_, _, _) =>
      NextSame(x, w, d);
      SameSafe(w.s.orders, w'.s.orders, lot);
  }

  lemma SameSafe(a: seq<Order>, b: seq<Order>, lot: nat)
    requires AllSame(a, b) && AllSafe(a, lot)
    ensures AllSafe(b, lot)
  {
    forall j | 0 <= j < |b| ensures SafeOrder(b[j], lot) {
      assert Same(a[j], b[j]) && SafeOrder(a[j], lot);
    }
  }

  /** Applying events changes fills and statuses of orders and nothing else about them. */
  lemma {:induction false} NextSame(x: Setup, w: Worker, d: Deed)
    requires Good(x, w) && d.Next?
    ensures AllSame(w.s.orders, Act(x, w, d).s.orders)
  {
    AllSameItself(w.s.orders);
    if Act(x, w, d).s != w.s { EventSame(w, Said(x)[w.i].events[w.p], d.fillId, d.takerBps, d.makerBps); }
  }

  lemma EventSame(w: Worker, e: Event, fillId: string, takerBps: nat, makerBps: nat)
    ensures AllSame(w.s.orders, ApplyEvent(w, e, fillId, takerBps, makerBps).s.orders)
  {
    hide S.Settleable, S.Settles, S.Disposed, S.Close, AllSame, OrderAt, S.TradeOf;
    AllSameItself(w.s.orders);
    match e
    case Filled(f) =>
      var t, m := OrderAt(w.s.orders, f.takerOrderId), OrderAt(w.s.orders, f.makerOrderId);
      if t.Some? && m.Some? {
        var b, n, terms := BuyIn(t.value, m.value, f), SellIn(t.value, m.value, f), TermsFor(f, takerBps, makerBps);
        if S.Settleable(w.s, b, n, terms) { DisposedSame(w.s, fillId, b, n, terms); }
      }
    case Cancelled(_, id, _) => if OrderAt(w.s.orders, id).Some? { ClosedOnly(w.s, OrderAt(w.s.orders, id).value); }
    case Expired(_, id, _) => if OrderAt(w.s.orders, id).Some? { ClosedOnly(w.s, OrderAt(w.s.orders, id).value); }
    case Rejected(_, id, _) => if OrderAt(w.s.orders, id).Some? { ClosedOnly(w.s, OrderAt(w.s.orders, id).value); }
    case _ =>
  }

  lemma DisposedSame(s: Exchange, fillId: string, b: nat, n: nat, terms: FillTerms)
    requires S.Settleable(s, b, n, terms)
    ensures AllSame(s.orders, S.Disposed(s, fillId, b, n, terms).orders)
  {
    hide S.Disposed, AmountsOf, S.Filled, S.Ended, Same, Order.Remaining;
    S.DisposedOrders(s, fillId, b, n, terms);
    var after := S.Disposed(s, fillId, b, n, terms);
    FilledSame(s.orders[b], after.orders[b], terms);
    FilledSame(s.orders[n], after.orders[n], terms);
    forall j | 0 <= j < |s.orders| ensures Same(s.orders[j], after.orders[j]) {
      if j != b && j != n { SameItself(s.orders[j]); }
    }
  }

  lemma SameItself(o: Order)
    ensures Same(o, o)
  {
  }

  /** No fill of whole lots empties the hold of a buy whose last lot adds to its reserve. */
  lemma {:induction false} SafeNeverEmpties(x: Setup, w: Worker, d: Deed, j: nat)
    requires Applying(x, w, d) && NextEvent(x, w).Filled? && j < |w.s.orders|
      && SafeOrder(w.s.orders[j], x.engine.lotSize)
    requires var f := NextEvent(x, w).fill;
      w.s.orders[j].id == if f.takerSide == Buy then f.takerOrderId else f.makerOrderId
    ensures !AtEmptyingFill(x, w, d)
  {
    hide OrderAt, Results, History, AllRecorded, AllMirror, Inv, AmountsOf, S.Filled, Order.Residue, Order.Remaining;
    hide SafeOrder, Mirror, OrderOk;
    var f := NextEvent(x, w).fill;
    var tj, mj := FillIsTaken(x, w, d.fillId, d.takerBps, d.makerBps);
    AtIsThere(w.s.orders, j);
    BuyIsPriced(x, w, j);
    FillOnGrid(x, w.i, w.p);
    SafeKeepsSome(x, Heard(x, w), w.early, w.s.orders[j], TermsFor(f, d.takerBps, d.makerBps));
  }

  lemma SafeKeepsSome(x: Setup, h: seq<Event>, early: set<OrderId>, o: Order, terms: FillTerms)
    requires Mirror(x, h, early, o) && OrderOk(o) && SafeOrder(o, x.engine.lotSize) && o.live && o.side == Buy
    requires AmountsOf(terms).Success? && terms.qty <= o.Remaining() && terms.price <= o.reserve
    requires terms.takerBps <= WORST_CASE_TAKER_BPS && terms.makerBps <= WORST_CASE_TAKER_BPS
    requires x.engine.lotSize > 0 ==> terms.qty % x.engine.lotSize == 0
    ensures var o' := S.Filled(o, terms); o'.Remaining() == 0 || o'.Residue() > 0
  {
    hide OrderOk, AmountsOf, BuyReserve, S.Filled, Order.Residue, Order.Remaining, Over, Priced, Halts.WholeLots;
    Halts.LotResidue(o, terms, x.engine.lotSize);
  }

  /** Over every run of the gateway, the engine and the worker in which every buy's last lot adds to its reserve,
      the worker never stops: every event the engine emits is settled, for any fee rates of the schedule. */
  lemma {:induction false} NeverHalts(x: Setup, deeds: seq<Deed>)
    requires Sane(x) && forall d :: d in deeds ==> SafeDeed(d, x.engine.lotSize)
    ensures var w := RunFrom(x, START, deeds); !w.halted && Good(x, w) && AllSafe(w.s.orders, x.engine.lotSize)
  {
    hide Good, Act, SafeDeed, AllSafe, AtEmptyingFill;
    if deeds == [] {
      StartIsGood(x);
      assert AllSafe(START.s.orders, x.engine.lotSize) by { NothingIsSafe(x.engine.lotSize); }
    } else {
      var last := |deeds| - 1;
      NeverHalts(x, deeds[..last]);
      assert deeds[last] in deeds;
      SafeStep(x, RunFrom(x, START, deeds[..last]), deeds[last]);
    }
  }

  lemma {:induction false} SafeStep(x: Setup, w: Worker, d: Deed)
    requires Good(x, w) && !w.halted && AllSafe(w.s.orders, x.engine.lotSize) && SafeDeed(d, x.engine.lotSize)
    ensures var w' := Act(x, w, d); !w'.halted && Good(x, w') && AllSafe(w'.s.orders, x.engine.lotSize)
  {
    hide Good, Act, SafeDeed, AllSafe, AtEmptyingFill;
    StepHaltsExactly(x, w, d);
    if Applying(x, w, d) && NextEvent(x, w).Filled? {
      var j := BuyIsSafe(x, w, d);
      SafeNeverEmpties(x, w, d, j);
    } else if Applying(x, w, d) {
      OnlyFillsEmpty(x, w, d);
    }
    StaysSafe(x, w, d);
  }

  lemma OnlyFillsEmpty(x: Setup, w: Worker, d: Deed)
    requires Applying(x, w, d) && !NextEvent(x, w).Filled?
    ensures !AtEmptyingFill(x, w, d)
  {
    hide Good, Results;
  }

  lemma {:induction false} BuyIsSafe(x: Setup, w: Worker, d: Deed) returns (j: nat)
    requires Applying(x, w, d) && NextEvent(x, w).Filled? && AllSafe(w.s.orders, x.engine.lotSize)
    ensures j < |w.s.orders| && SafeOrder(w.s.orders[j], x.engine.lotSize)
    ensures var f := NextEvent(x, w).fill;
      w.s.orders[j].id == if f.takerSide == Buy then f.takerOrderId else f.makerOrderId
  {
    hide OrderAt, Results, Good, SafeOrder;
    var tj, mj := FillIsTaken(x, w, d.fillId, d.takerBps, d.makerBps);
    j := BuyIn(tj, mj, NextEvent(x, w).fill);
  }

  lemma NothingIsSafe(lot: nat)
    ensures AllSafe(START.s.orders, lot)
  {
  }

  // ------------------------------------------------------------------ a worker that has caught up

  /** Everything the engine was sent has been answered, and every answer applied. */
  ghost predicate CaughtUp(x: Setup, w: Worker) { w.sent == w.i == |x.cmds| }

  /** Once the worker has caught up, an order the engine was given is open in the ledger if and only if it rests
      in the engine's book, for exactly the quantity the ledger has left, and its fills are the engine's. The one
      exception is an order the gateway closed because the engine never fills it. */
  lemma {:induction false} OpenIsResting(x: Setup, w: Worker, k: nat, j: nat)
    requires Good(x, w) && CaughtUp(x, w) && k < |x.cmds| && j < |w.s.orders|
    requires Names(x.cmds[k].command, w.s.orders[j].id)
    requires TermsOf(Run(Initial(x.engine), x.cmds[..k]), x.cmds[k].command).Some?
    ensures var o, book := w.s.orders[j], Run(Initial(x.engine), x.cmds).book;
      && TotalQty(o.fills) == FilledOver(Said(x), o.id)
      && (o.live <==> RestingQty(book, o.id) > 0 && o.id !in w.early)
      && (o.live ==> o.Remaining() == RestingQty(book, o.id) && o.Residue() > 0)
  {
    hide Inv, Recorded, OrderAt, AllRecorded, History, Results, Run, TermsOf, FilledQty, ReleasedQty, RestingQty;
    hide Rejects, AllEvents, FilledOver, ReleasedOver, RejectedOver, PlacedBy, Priced, TotalQty, NeverTrades;
    var o, h := w.s.orders[j], Heard(x, w);
    BuyIsPriced(x, w, j);
    IsRecorded(x, w, j, k);
    HeardAll(x, w);
    SumsOver(Said(x), o.id);
    OrderAccountsForItsQuantity(x.engine, x.cmds, k, o.id);
    RefusedIsSaid(x.engine, x.cmds, k, o.id);
    if RestingQty(Run(Initial(x.engine), x.cmds).book, o.id) > 0 { LaterEventRests(x.engine, x.cmds, k, o.id); }
  }

  lemma {:induction false} HeardAll(x: Setup, w: Worker)
    requires InPlace(x, w) && CaughtUp(x, w)
    ensures Heard(x, w) == AllEvents(Said(x))
  {
    hide Results, AllEvents;
    assert Said(x)[..|x.cmds|] == Said(x);
  }

  lemma {:induction false} IsRecorded(x: Setup, w: Worker, j: nat, k: nat)
    requires Good(x, w) && k < w.sent && j < |w.s.orders| && Names(x.cmds[k].command, w.s.orders[j].id)
    requires TermsOf(Run(Initial(x.engine), x.cmds[..k]), x.cmds[k].command).Some?
    ensures w.s.orders[j].qty == PlacedBy(Run(Initial(x.engine), x.cmds[..k]), x.cmds[k].command, w.s.orders[j].id)
  {
    hide Inv, Recorded, OrderAt, History, Results, Run, TermsOf, PlacedBy, AllMirror;
    assert RecordedAt(x, w.s.orders, k);
    AtIsThere(w.s.orders, j);
    QtyIsPlaced(x, k, w.s.orders[j]);
  }

  // ------------------------------------------------------------------ what the worker refuses

  /** What the ledger has of an order is what the event says is left, and it is open, or was closed early. */
  ghost predicate Endable(w: Worker, id: OrderId, left: int) {
    match OrderAt(w.s.orders, id)
    case None => false
    case Some(j) => w.s.orders[j].Remaining() == left && (w.s.orders[j].live || id in w.early)
  }

  /** An event that agrees with the ledger, whoever sent it. */
  ghost predicate AgreesWithLedger(w: Worker, e: Event) {
    match e
    case Filled(f) =>
      var t, m := OrderAt(w.s.orders, f.takerOrderId), OrderAt(w.s.orders, f.makerOrderId);
      && t.Some? && m.Some?
      && var taker, maker := w.s.orders[t.value], w.s.orders[m.value];
         && taker.side == f.takerSide && maker.side == f.takerSide.Opposite() && taker.live && maker.live
         && taker.base == maker.base && taker.quote == maker.quote
         && 0 < f.qty <= taker.Remaining() && f.qty <= maker.Remaining() && f.price > 0
    case Cancelled(_, id, left) => Endable(w, id, left)
    case Expired(_, id, left) => Endable(w, id, left)
    case Rejected(_, id, reason) =>
      reason == UnknownOrder
      || (OrderAt(w.s.orders, id).Some? && Endable(w, id, w.s.orders[OrderAt(w.s.orders, id).value].qty))
    case Accepted(_, id, left) =>
      OrderAt(w.s.orders, id).Some?
      && var o := w.s.orders[OrderAt(w.s.orders, id).value]; o.Remaining() == left && (left == 0 ==> !o.live)
    case StatusChanged(_, _, _) => true
  }

  /** Whatever event is put before it, the worker goes past it only if it agrees with the ledger; and any but a fill
      that agrees, it goes past. */
  lemma {:induction false} AppliesOnlyWhatAgrees(w: Worker, e: Event, fillId: string, takerBps: nat, makerBps: nat)
    requires !w.halted
    ensures var w' := ApplyEvent(w, e, fillId, takerBps, makerBps);
      && (!w'.halted ==> AgreesWithLedger(w, e) && w'.p == w.p + 1)
      && (AgreesWithLedger(w, e) && !e.Filled? ==> !w'.halted)
      && (w'.halted ==> w'.s == w.s && w'.p == w.p)
  {
    hide S.Settles, S.Disposed, S.Close, S.TradeOf, Order.Remaining, OrderAt;
    if e.Filled? && !ApplyFill(w, e.fill, fillId, takerBps, makerBps).halted {
      FillAgrees(w, e.fill, fillId, takerBps, makerBps);
    }
  }

  lemma FillAgrees(w: Worker, f: Fill, fillId: string, takerBps: nat, makerBps: nat)
    requires !w.halted && !ApplyFill(w, f, fillId, takerBps, makerBps).halted
    ensures AgreesWithLedger(w, Filled(f))
  {
    hide S.Settles, S.Disposed, S.TradeOf, Order.Remaining, OrderAt;
  }
}
