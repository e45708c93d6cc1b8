/** The engine's fills are fills settlement can settle: sides, prices and quantities all fit. */
module MatchedFills {
  import opened MatchingTypes
  import opened PriceTimeList
  import opened ReferenceBook
  import opened ReferenceMatcher
  import opened MatchingInvariants
  import opened MatchingRuns
  import Orders

  /** What an order was brought in with. */
  datatype Terms = Terms(side: Side, orderType: OrderType, timeInForce: TimeInForce, limit: Option<u64>,
                         accountId: AccountId, stpMode: StpMode)

  function AskedTerms(request: OrderRequest): Terms {
    Terms(request.side, request.orderType, request.timeInForce, request.price, request.accountId, request.stpMode)
  }

  function TermsOf(e: EngineState, c: Command): Option<Terms> {
    match c
    case Place(_, request) => Some(AskedTerms(request))
    case Amend(oldId, _, price, _) =>
      (match Lookup(e.book, oldId)
       case None => None
       case Some(o) => Some(Terms(o.side, Limit, GTC, Some(price), o.accountId, o.stpMode)))
    case _ => None
  }

  /** The terms a resting order shows. */
  function TermsShown(side: Side, o: RestingOrder): Terms {
    Terms(side, Limit, GTC, Some(o.price), o.accountId, o.stpMode)
  }

  // ------------------------------------------------------------------ a resting order keeps its terms

  predicate SameTerms(a: RestingOrder, b: RestingOrder) {
    a == b.(remaining := a.remaining)
  }

  ghost predicate KeepsTerms(l: seq<RestingOrder>, l': seq<RestingOrder>) {
    forall o :: o in l' ==> exists x :: x in l && SameTerms(x, o)
  }

  lemma KeepsItself(l: seq<RestingOrder>)
    ensures KeepsTerms(l, l)
  {
    forall o | o in l ensures exists x :: x in l && SameTerms(x, o) {
      assert SameTerms(o, o);
    }
  }

  lemma TakingKeepsTerms(l: seq<RestingOrder>, l': seq<RestingOrder>, k: nat)
    requires TakenInPriority(l, l', k)
    ensures KeepsTerms(l, l')
  {
    forall o | o in l' ensures exists x :: x in l && SameTerms(x, o) {
      var j :| 0 <= j < |l'| && l'[j] == o;
      if l' == l[k..] {
        assert l[k + j] == o && SameTerms(l[k + j], o);
      } else if j == 0 {
        assert SameTerms(l[k], o);
      } else {
        assert l'[1..][j - 1] == o && l[k..][1..][j - 1] == l[k + j];
        assert SameTerms(l[k + j], o);
      }
    }
  }

  lemma MatchKeepsTerms(t: Taker, m: Matching)
    ensures KeepsTerms(Makers(t, m), Makers(t, Match(t, m)))
    ensures Match(t, m).book.Of(t.side) == m.book.Of(t.side)
  {
    var k := MatchTakesInPriority(t, m);
    TakingKeepsTerms(Makers(t, m), Makers(t, Match(t, m)), k);
  }

  datatype Arrival = Arrival(id: OrderId, terms: Terms, seqNo: nat)

  /** An order on a side after a command was there before it, or is the one the command brought in. */
  ghost predicate IsFrom(side: Side, l: seq<RestingOrder>, brought: Option<Arrival>, o: RestingOrder) {
    || (exists x :: x in l && SameTerms(x, o))
    || brought == Some(Arrival(o.orderId, TermsShown(side, o), o.restedAtSeq))
  }

  ghost predicate SideFrom(side: Side, l: seq<RestingOrder>, brought: Option<Arrival>, l': seq<RestingOrder>) {
    forall o :: o in l' ==> IsFrom(side, l, brought, o)
  }

  ghost predicate From(before: Book, brought: Option<Arrival>, after: Book) {
    SideFrom(Buy, before.bids, brought, after.bids) && SideFrom(Sell, before.asks, brought, after.asks)
  }

  lemma MatchFrom(t: Taker, m: Matching, brought: Option<Arrival>)
    ensures From(m.book, brought, Match(t, m).book)
  {
    MatchKeepsTerms(t, m);
    KeepsItself(m.book.Of(t.side));
    hide Match, SameTerms;
  }

  lemma RestFrom(before: Book, brought: Option<Arrival>, after: Book, o: RestingOrder)
    requires From(before, brought, after)
    requires brought == Some(Arrival(o.orderId, TermsShown(o.side, o), o.restedAtSeq))
    ensures From(before, brought, after.Rest(o))
  {
    hide IsFrom, Insert;
    BroughtIsFrom(before.Of(o.side), brought, o);
    InsertMembers(o.side, after.Of(o.side), o);
  }

  lemma BroughtIsFrom(l: seq<RestingOrder>, brought: Option<Arrival>, o: RestingOrder)
    requires brought == Some(Arrival(o.orderId, TermsShown(o.side, o), o.restedAtSeq))
    ensures IsFrom(o.side, l, brought, o)
  {
  }

  lemma PlaceFrom(e: EngineState, seqNo: nat, ts: int, id: OrderId, request: OrderRequest)
    ensures From(e.book, Some(Arrival(id, AskedTerms(request), seqNo)),
                 PlaceOrder(e, seqNo, ts, id, request).state.book)
  {
    var brought := Some(Arrival(id, AskedTerms(request), seqNo));
    var out := PlaceOrder(e, seqNo, ts, id, request);
    var t := TakerOf(e, seqNo, ts, id, request);
    var m := Match(t, Matching(e.book, request.qty, [], false));
    MatchFrom(t, Matching(e.book, request.qty, [], false), brought);
    UnchangedFrom(e.book, brought);
    PlaceShape(e, seqNo, ts, id, request);
    hide PlaceOrder, Match, From, FillCount;
    if out == Dispose(e, id, request, t, m) {
      if out.state.book != m.book {
        var o := RestingOrder(id, request.accountId, request.side, request.price.value, m.remaining,
                              request.stpMode, t.seqNo);
        RestFrom(e.book, brought, m.book, o);
      }
    }
  }

  lemma UnchangedFrom(b: Book, brought: Option<Arrival>)
    ensures From(b, brought, b)
  {
    KeepsItself(b.bids);
    KeepsItself(b.asks);
    hide SameTerms;
  }

  lemma RemoveFrom(b: Book, o: RestingOrder, brought: Option<Arrival>, after: Book)
    requires From(b.Remove(o), brought, after)
    ensures From(b, brought, after)
  {
    RemoveIdMembers(b.Of(o.side), o.orderId);
    hide RemoveId, SameTerms;
    FewerFrom(Buy, b.Remove(o).bids, b.bids, brought, after.bids);
    FewerFrom(Sell, b.Remove(o).asks, b.asks, brought, after.asks);
  }

  lemma FewerFrom(side: Side, fewer: seq<RestingOrder>, l: seq<RestingOrder>, brought: Option<Arrival>,
                  l': seq<RestingOrder>)
    requires SideFrom(side, fewer, brought, l') && forall x :: x in fewer ==> x in l
    ensures SideFrom(side, l, brought, l')
  {
    hide SameTerms;
    forall o | o in l' ensures IsFrom(side, l, brought, o) {
      assert IsFrom(side, fewer, brought, o);
    }
  }

  /** What a command brings in. */
  function Brought(e: EngineState, c: SequencedCommand): Option<Arrival> {
    match TermsOf(e, c.command)
    case None => None
    case Some(terms) =>
      Some(Arrival(if c.command.Place? then c.command.orderId else c.command.newOrderId, terms, c.seqNo))
  }

  lemma CommandFrom(e: EngineState, c: SequencedCommand)
    ensures From(e.book, Brought(e, c), Apply(e, c).state.book)
  {
    hide From, PlaceOrder, Find;
    var e0 := e.(lastSeq := c.seqNo);
    UnchangedFrom(e.book, Brought(e, c));
    match c.command
    case Place(id, request) => PlaceFrom(e0, c.seqNo, c.timestampMs, id, request);
    case Cancel(id) =>
      if Lookup(e.book, id).Some? {
        var o := Lookup(e.book, id).value;
        UnchangedFrom(e.book.Remove(o), None);
        RemoveFrom(e.book, o, None, e.book.Remove(o));
      }
    case Amend(id, newId, price, qty) =>
      if Lookup(e.book, id).Some? {
        var o := Lookup(e.book, id).value;
        var e1 := e0.(book := e.book.Remove(o));
        PlaceFrom(e1, c.seqNo, c.timestampMs, newId, Replacement(o, newId, price, qty));
        RemoveFrom(e.book, o, Brought(e, c), Apply(e, c).state.book);
      }
    case SetStatus(_) =>
  }

  /** Over every run: a resting order still has the side, price, account and self-trade mode it was brought in
      with, stands in line by the sequence of that command, and was brought in as a good-till-cancelled limit
      order: nothing else ever rests. */
  lemma {:induction false} RestingKeepsTerms(market: MarketConfig, cmds: seq<SequencedCommand>, side: Side,
                                             o: RestingOrder)
    returns (k: nat)
    requires o in Run(Initial(market), cmds).book.Of(side)
    ensures k < |cmds| && Names(cmds[k].command, o.orderId)
    ensures TermsOf(Run(Initial(market), cmds[..k]), cmds[k].command) == Some(TermsShown(side, o))
    ensures cmds[k].seqNo == o.restedAtSeq
  {
    var last := |cmds| - 1;
    var before := Run(Initial(market), cmds[..last]);
    var brought := Brought(before, cmds[last]);
    CommandFrom(before, cmds[last]);
    hide Apply;
    assert IsFrom(side, before.book.Of(side), brought, o);
    if brought == Some(Arrival(o.orderId, TermsShown(side, o), o.restedAtSeq)) {
      k := last;
    } else {
      var x :| x in before.book.Of(side) && SameTerms(x, o);
      k := RestingKeepsTerms(market, cmds[..last], side, x);
      assert cmds[..last][..k] == cmds[..k];
    }
  }

  // ------------------------------------------------------------------ every fill

  /** The maker of a fill was brought in earlier, on the other side, at the fill's own price and to rest. The taker
      was brought in by the fill's command, on the fill's side, and the price is within its limit. The two belong
      to different accounts. */
  lemma {:induction false} FillHasTerms(market: MarketConfig, cmds: seq<SequencedCommand>, i: nat, f: Fill)
    returns (k: nat)
    requires Ordered(0, cmds) && i < |cmds| && Filled(f) in Results(Initial(market), cmds)[i].events
    ensures k < i && Names(cmds[k].command, f.makerOrderId) && Names(cmds[i].command, f.takerOrderId)
    ensures TermsOf(Run(Initial(market), cmds[..k]), cmds[k].command).Some?
    ensures var made := TermsOf(Run(Initial(market), cmds[..k]), cmds[k].command).value;
      var terms := TermsOf(Run(Initial(market), cmds[..i]), cmds[i].command);
      && made == Terms(f.takerSide.Opposite(), Limit, GTC, Some(f.price), made.accountId, made.stpMode)
      && terms.Some? && terms.value.side == f.takerSide && terms.value.accountId != made.accountId
      && (terms.value.orderType == Limit ==> Crosses(f.takerSide, terms.value.limit, f.price))
  {
    var e := Run(Initial(market), cmds[..i]);
    EmptyBookIsOk();
    RunFillsLegally(Initial(market), cmds, i, f);
    hide Run, Results, BookInv, Find;
    var (at, order) := TakerFor(e, cmds[i]);
    var t := TakerOf(at, cmds[i].seqNo, cmds[i].timestampMs, order.value.0, order.value.1);
    var o :| o in at.book.Of(t.side.Opposite()) && o.orderId == f.makerOrderId && o.accountId != t.accountId
             && o.price == f.price;
    RemovedWasThere(e, cmds[i], t.side.Opposite(), o);
    k := RestingKeepsTerms(market, cmds[..i], t.side.Opposite(), o);
    assert cmds[..i][..k] == cmds[..k];
  }

  lemma RemovedWasThere(e: EngineState, c: SequencedCommand, side: Side, o: RestingOrder)
    requires o in TakerFor(e, c).0.book.Of(side)
    ensures o in e.book.Of(side)
  {
    if c.command.Amend? && Lookup(e.book, c.command.orderId).Some? {
      var x := Lookup(e.book, c.command.orderId).value;
      RemoveIdMembers(e.book.Of(x.side), x.orderId);
    }
  }

  /** A fill within a reserve that fits is worth an amount that fits. */
  lemma AmountsFit(terms: Orders.FillTerms, reserve: nat, qty: nat)
    requires 0 < terms.price <= reserve && 0 < terms.qty <= qty && Orders.Value(reserve, qty) <= MAX_U64
    ensures Orders.AmountsOf(terms).Success?
  {
    hide Orders.Value, Orders.FeeAmount;
    Orders.ValueBounds(terms.price, reserve, terms.qty, qty - terms.qty);
  }
}
