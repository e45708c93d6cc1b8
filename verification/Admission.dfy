/** What admission guarantees: the gateway and the engine agree, and the book never leaves its grid. */
module Admission {
  import opened MatchingTypes
  import opened PriceTimeList
  import opened ReferenceBook
  import opened ReferenceMatcher
  import opened Orders

  // ------------------------------------------------------------------ two validators, one rule book

  /** The gateway's market and the engine's are configured alike. */
  predicate Alike(gateway: Market, engine: MarketConfig) {
    && gateway.tickSize == engine.tickSize > 0 && gateway.lotSize == engine.lotSize > 0
    && gateway.minNotional == engine.minNotional && gateway.collarBps == engine.collarBps
    && gateway.status == engine.status
  }

  function Widened(reference: Option<u64>): Option<nat> { if reference.Some? then Some(reference.value) else None }

  /** The engine stops at its first reason and the gateway lists them all; judged against the same
      reference, the engine's reason is always one the gateway gives. */
  lemma {:induction false} EngineReasonIsListed(request: OrderRequest, gateway: Market, engine: MarketConfig,
                                                reference: Option<u64>)
    requires Alike(gateway, engine)
    ensures Validate(engine, reference, request).Some? ==>
      Applies(Validate(engine, reference, request).value, request, gateway, Widened(reference))
  {
  }

  /** And an order the engine admits is refused by the gateway for one thing only: a buy whose reserve,
      value and worst-case fee together, does not fit. A limit buy reserves at its limit, a market buy at
      the top of the collar. The gateway is stricter there and nowhere else. */
  lemma {:induction false} GatewayRefusesOnlyReserves(request: OrderRequest, gateway: Market, engine: MarketConfig,
                                                      reference: Option<u64>, reason: RejectReason)
    requires Alike(gateway, engine) && Validate(engine, reference, request).None?
    ensures ReserveAt(request, gateway, Widened(reference)).Some?
    ensures Applies(reason, request, gateway, Widened(reference))
       <==> && reason == NotionalOverflow && request.side == Buy
            && BuyReserve(ReserveAt(request, gateway, Widened(reference)).value, request.qty) > MAX_U64
  {
  }

  // ------------------------------------------------------------------ the grid

  predicate OnGrid(market: MarketConfig, o: RestingOrder) {
    IsMultipleOf(o.price, market.tickSize) && IsMultipleOf(o.remaining, market.lotSize)
  }

  ghost predicate ListOnGrid(market: MarketConfig, l: seq<RestingOrder>) { forall o :: o in l ==> OnGrid(market, o) }

  ghost predicate BookOnGrid(market: MarketConfig, b: Book) { ListOnGrid(market, b.bids) && ListOnGrid(market, b.asks) }

  ghost predicate FillsOnGrid(market: MarketConfig, events: seq<Event>) {
    forall e :: e in events && e.Filled? ==>
      IsMultipleOf(e.fill.price, market.tickSize) && IsMultipleOf(e.fill.qty, market.lotSize)
  }

  lemma LessAMultiple(a: u64, b: u64, step: u64)
    requires IsMultipleOf(a, step) && IsMultipleOf(b, step) && b <= a
    ensures IsMultipleOf(a - b, step)
  {
    var p, q := a / step, b / step;
    assert a == step * p && b == step * q;
    DivMono(b, a, step);
    assert a - b == (p - q) * step;
    MultipleOfTick(p - q, step);
  }

  lemma StepKeepsGrid(market: MarketConfig, t: Taker, m: Matching)
    requires !Done(t, m) && BookOnGrid(market, m.book) && FillsOnGrid(market, m.events)
      && IsMultipleOf(m.remaining, market.lotSize)
    ensures var m' := Step(t, m);
      BookOnGrid(market, m'.book) && FillsOnGrid(market, m'.events) && IsMultipleOf(m'.remaining, market.lotSize)
  {
    var l := Makers(t, m);
    var maker := l[0];
    assert maker in l && OnGrid(market, maker);
    var traded := Min(m.remaining, maker.remaining);
    LessAMultiple(m.remaining, traded, market.lotSize);
    LessAMultiple(maker.remaining, traded, market.lotSize);
    hide IsMultipleOf, FillCount;
    assert forall o :: o in l[1..] ==> o in l;
    assert ListOnGrid(market, TakeFromHead(l, traded));
  }

  lemma {:induction false} MatchKeepsGrid(market: MarketConfig, t: Taker, m: Matching)
    requires BookOnGrid(market, m.book) && FillsOnGrid(market, m.events) && IsMultipleOf(m.remaining, market.lotSize)
    ensures var m' := Match(t, m);
      BookOnGrid(market, m'.book) && FillsOnGrid(market, m'.events) && IsMultipleOf(m'.remaining, market.lotSize)
    decreases !m.stopped, |Makers(t, m)|, m.remaining
  {
    if Done(t, m) {
    } else {
      StepKeepsGrid(market, t, m);
      hide BookOnGrid, FillsOnGrid, IsMultipleOf;
      MatchKeepsGrid(market, t, Step(t, m));
    }
  }

  lemma PlaceKeepsGrid(e: EngineState, seqNo: nat, ts: int, id: OrderId, request: OrderRequest)
    requires BookOnGrid(e.market, e.book)
    ensures var out := PlaceOrder(e, seqNo, ts, id, request);
      BookOnGrid(e.market, out.state.book) && FillsOnGrid(e.market, out.events)
  {
    var t := TakerOf(e, seqNo, ts, id, request);
    var m0 := Matching(e.book, request.qty, [], false);
    if Validate(e.market, ReferenceOf(e.book), request).None? {
      AdmittedOnGrid(e.market, ReferenceOf(e.book), request);
      MatchKeepsGrid(e.market, t, m0);
      DisposeKeepsGrid(e, id, request, t, Match(t, m0));
    }
    hide Dispose, Match, Validate, Fillable, BookOnGrid, TakerOf;
  }

  lemma AdmittedOnGrid(market: MarketConfig, reference: Option<u64>, request: OrderRequest)
    requires Validate(market, reference, request).None?
    ensures IsMultipleOf(request.qty, market.lotSize)
    ensures request.price.Some? ==> IsMultipleOf(request.price.value, market.tickSize)
  {
  }

  lemma DisposeKeepsGrid(e: EngineState, id: OrderId, request: OrderRequest, t: Taker, m: Matching)
    requires BookOnGrid(e.market, m.book) && FillsOnGrid(e.market, m.events)
      && IsMultipleOf(m.remaining, e.market.lotSize)
    requires request.price.Some? ==> IsMultipleOf(request.price.value, e.market.tickSize)
    ensures var out := Dispose(e, id, request, t, m);
      BookOnGrid(e.market, out.state.book) && FillsOnGrid(e.market, out.events)
  {
    hide IsMultipleOf, FillCount, Insert;
    if !m.stopped && m.remaining > 0 && request.orderType == Limit && request.timeInForce == GTC
      && request.price.Some? {
      var o := RestingOrder(id, request.accountId, request.side, request.price.value, m.remaining, request.stpMode,
                            t.seqNo);
      InsertMembers(o.side, m.book.Of(o.side), o);
    }
  }

  lemma RemoveKeepsGrid(market: MarketConfig, b: Book, o: RestingOrder)
    requires BookOnGrid(market, b)
    ensures BookOnGrid(market, b.Remove(o))
  {
    RemoveIdOnGrid(market, b.Of(o.side), o.orderId);
  }

  lemma {:induction false} RemoveIdOnGrid(market: MarketConfig, l: seq<RestingOrder>, id: OrderId)
    requires ListOnGrid(market, l)
    ensures ListOnGrid(market, RemoveId(l, id))
  {
    if l == [] {
    } else {
      assert l[0] in l && forall o :: o in l[1..] ==> o in l;
      hide OnGrid;
      RemoveIdOnGrid(market, l[1..], id);
    }
  }

  lemma {:induction false} CommandKeepsGrid(e: EngineState, c: SequencedCommand)
    requires BookOnGrid(e.market, e.book)
    ensures var out := Apply(e, c);
      && out.state.market == e.market.(status := out.state.market.status)
      && BookOnGrid(out.state.market, out.state.book) && FillsOnGrid(e.market, out.events)
  {
    var e0 := e.(lastSeq := c.seqNo);
    match c.command
    case Place(id, request) =>
      PlaceKeepsGrid(e0, c.seqNo, c.timestampMs, id, request);
      PlaceKeepsMarket(e0, c.seqNo, c.timestampMs, id, request);
    case Cancel(id) =>
      if Lookup(e.book, id).Some? { RemoveKeepsGrid(e.market, e.book, Lookup(e.book, id).value); }
    case Amend(id, newId, price, qty) =>
      if Lookup(e.book, id).Some? {
        var o := Lookup(e.book, id).value;
        RemoveKeepsGrid(e.market, e.book, o);
        var e1 := e0.(book := e.book.Remove(o));
        PlaceKeepsGrid(e1, c.seqNo, c.timestampMs, newId, Replacement(o, newId, price, qty));
        PlaceKeepsMarket(e1, c.seqNo, c.timestampMs, newId, Replacement(o, newId, price, qty));
        hide PlaceOrder, BookOnGrid;
      }
    case SetStatus(status) =>
      assert BookOnGrid(e.market.(status := status), e.book);
  }

  lemma PlaceKeepsMarket(e: EngineState, seqNo: nat, ts: int, id: OrderId, request: OrderRequest)
    ensures PlaceOrder(e, seqNo, ts, id, request).state.market == e.market
  {
    hide Match, Validate, Fillable, FillCount, TakerOf;
  }

  /** Over every run: every resting order sits on a tick with whole lots left, and every fill trades whole
      lots on a tick. No partial fill, amendment or status change ever leaves dust. */
  lemma {:induction false} RunKeepsGrid(market: MarketConfig, cmds: seq<SequencedCommand>)
    ensures var e := Run(Initial(market), cmds);
      e.market == market.(status := e.market.status) && BookOnGrid(market, e.book)
    ensures forall i :: 0 <= i < |cmds| ==> FillsOnGrid(market, Results(Initial(market), cmds)[i].events)
  {
    if cmds == [] {
    } else {
      var n := |cmds| - 1;
      RunKeepsGrid(market, cmds[..n]);
      var before := Run(Initial(market), cmds[..n]);
      assert BookOnGrid(before.market, before.book);
      CommandKeepsGrid(before, cmds[n]);
      hide Apply;
      var after := Apply(before, cmds[n]);
      assert FillsOnGrid(market, after.events) && BookOnGrid(market, after.state.book);
    }
  }
}
