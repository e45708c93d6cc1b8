/** What the market itself remembers over a run: the last trade, the price orders are judged against, the best
    quotes and the trading status, each told from what the engine was sent and what it said. */
module MarketState {
  import opened MatchingTypes
  import opened PriceTimeList
  import opened ReferenceBook
  import opened ReferenceMatcher
  import opened MatchingTheorems
  import opened MatchingInvariants
  import opened MatchingRuns

  // ------------------------------------------------------------------ the last trade

  /** The price of the newest fill. */
  function LastPrice(events: seq<Event>): Option<u64> {
    if events == [] then None
    else
      var e := events[|events| - 1];
      if e.Filled? then Some(e.fill.price) else LastPrice(events[..|events| - 1])
  }

  function OrElse(newer: Option<u64>, older: Option<u64>): Option<u64> { if newer.Some? then newer else older }

  lemma LastPricePush(events: seq<Event>, e: Event)
    ensures LastPrice(events + [e]) == if e.Filled? then Some(e.fill.price) else LastPrice(events)
  {
    assert (events + [e])[..|events|] == events;
  }

  lemma {:induction false} LastPriceCons(e: Event, events: seq<Event>)
    requires !e.Filled?
    ensures LastPrice([e] + events) == LastPrice(events)
  {
    if events == [] {
      assert ([e] + events)[..0] == [];
    } else {
      LastPriceCons(e, events[..|events| - 1]);
      assert ([e] + events)[..|events|] == [e] + events[..|events| - 1];
    }
  }

  lemma {:induction false} MatchRemembersTrade(t: Taker, m: Matching, before: Option<u64>)
    requires m.book.lastTrade == OrElse(LastPrice(m.events), before)
    ensures Match(t, m).book.lastTrade == OrElse(LastPrice(Match(t, m).events), before)
    decreases !m.stopped, |Makers(t, m)|, m.remaining
  {
    if Done(t, m) {
    } else {
      var m' := Step(t, m);
      if m'.events != m.events { LastPricePush(m.events, m'.events[|m.events|]); }
      MatchRemembersTrade(t, m', before);
    }
  }

  lemma PlaceRemembersTrade(e: EngineState, seqNo: nat, ts: int, id: OrderId, request: OrderRequest)
    ensures var out := PlaceOrder(e, seqNo, ts, id, request);
      out.state.book.lastTrade == OrElse(LastPrice(out.events), e.book.lastTrade)
  {
    hide PlaceOrder, Match, FillCount, LastPrice, Insert;
    var out, t, m0 := PlaceOrder(e, seqNo, ts, id, request), TakerOf(e, seqNo, ts, id, request),
      Matching(e.book, request.qty, [], false);
    PlaceShape(e, seqNo, ts, id, request);
    NoPriceYet();
    MatchRemembersTrade(t, m0, e.book.lastTrade);
    LastPricePush(Match(t, m0).events, Last(out.events));
    LastPricePush([], Last(out.events));
    assert [] + [Last(out.events)] == [Last(out.events)];
  }

  lemma QuietEvent(e: Event)
    requires !e.Filled?
    ensures LastPrice([e]) == None
  {
    assert [e][..0] == [];
  }

  lemma NoPriceYet()
    ensures LastPrice([]) == None
  {
  }

  lemma CommandRemembersTrade(e: EngineState, c: SequencedCommand)
    ensures var out := Apply(e, c); out.state.book.lastTrade == OrElse(LastPrice(out.events), e.book.lastTrade)
  {
    hide PlaceOrder, Find, LastPrice;
    var e0, out := e.(lastSeq := c.seqNo), Apply(e, c);
    NoPriceYet();
    match c.command
    case Place(id, request) => PlaceRemembersTrade(e0, c.seqNo, c.timestampMs, id, request);
    case Cancel(id) => QuietEvent(out.events[0]);
    case Amend(id, newId, price, qty) =>
      if Lookup(e.book, id).Some? {
        var o := Lookup(e.book, id).value;
        var e1 := e0.(book := e.book.Remove(o));
        var placed := PlaceOrder(e1, c.seqNo, c.timestampMs, newId, Replacement(o, newId, price, qty));
        PlaceRemembersTrade(e1, c.seqNo, c.timestampMs, newId, Replacement(o, newId, price, qty));
        LastPriceCons(Cancelled(c.seqNo, id, o.remaining), placed.events);
      } else {
        QuietEvent(out.events[0]);
      }
    case SetStatus(_) => QuietEvent(out.events[0]);
  }

  /** The price of the newest fill of a run. */
  function LastPriceOver(results: seq<Result>): Option<u64> {
    if results == [] then None
    else OrElse(LastPrice(results[|results| - 1].events), LastPriceOver(results[..|results| - 1]))
  }

  /** After every run the last trade is the price of the newest fill, and there is none if nothing traded. */
  lemma {:induction false} LastTradeIsNewestFill(market: MarketConfig, cmds: seq<SequencedCommand>)
    ensures Run(Initial(market), cmds).book.lastTrade == LastPriceOver(Results(Initial(market), cmds))
  {
    if cmds == [] {
    } else {
      hide Apply, LastPrice, LevelsOf;
      var e, n := Initial(market), |cmds| - 1;
      LastTradeIsNewestFill(market, cmds[..n]);
      CommandRemembersTrade(Run(e, cmds[..n]), cmds[n]);
      assert Results(e, cmds)[..n] == Results(e, cmds[..n]);
    }
  }

  // ------------------------------------------------------------------ the reference price and the best quotes

  ghost predicate HighestBid(b: Book, o: RestingOrder) { o in b.bids && forall x :: x in b.bids ==> x.price <= o.price }
  ghost predicate LowestAsk(b: Book, o: RestingOrder) { o in b.asks && forall x :: x in b.asks ==> x.price >= o.price }

  /** Over every run the quotes are the extremes of their sides, the highest bid below the lowest ask. */
  lemma {:induction false} QuotesAreBest(market: MarketConfig, cmds: seq<SequencedCommand>)
    requires Ordered(0, cmds)
    ensures var b := Run(Initial(market), cmds).book;
      && (b.bids != [] ==> HighestBid(b, b.bids[0]) && b.Best(Buy) == Some(b.bids[0].price))
      && (b.asks != [] ==> LowestAsk(b, b.asks[0]) && b.Best(Sell) == Some(b.asks[0].price))
      && (b.bids != [] && b.asks != [] ==> b.bids[0].price < b.asks[0].price)
  {
    hide Run;
    RunKeepsBook(Initial(market), cmds) by { EmptyBookIsOk(); }
    SortedExtremes(Run(Initial(market), cmds).book, Run(Initial(market), cmds).lastSeq);
  }

  lemma SortedExtremes(b: Book, now: nat)
    requires BookInv(b, now)
    ensures b.bids != [] ==> HighestBid(b, b.bids[0])
    ensures b.asks != [] ==> LowestAsk(b, b.asks[0])
    ensures b.bids != [] && b.asks != [] ==> b.bids[0].price < b.asks[0].price
  {
  }

  /** The price orders are judged against, over every run: the newest fill's; before the first fill, halfway
      between the highest bid and the lowest ask, rounded down; and nothing while a side is empty. */
  lemma {:induction false} ReferenceIs(market: MarketConfig, cmds: seq<SequencedCommand>)
    requires Ordered(0, cmds)
    ensures var b, traded := Run(Initial(market), cmds).book, LastPriceOver(Results(Initial(market), cmds));
      var reference := ReferenceOf(b);
      && (traded.Some? ==> reference == traded)
      && (traded.None? && (b.bids == [] || b.asks == []) ==> reference.None?)
      && (traded.None? && b.bids != [] && b.asks != [] ==>
            exists bid, ask :: HighestBid(b, bid) && LowestAsk(b, ask) && Midway(bid.price, ask.price, reference))
  {
    hide Run, Results, LastPriceOver;
    QuotesAreBest(market, cmds);
    LastTradeIsNewestFill(market, cmds);
    var b := Run(Initial(market), cmds).book;
    if b.bids != [] && b.asks != [] && b.lastTrade.None? {
      assert HighestBid(b, b.bids[0]) && LowestAsk(b, b.asks[0]);
    }
  }

  predicate Midway(bid: u64, ask: u64, reference: Option<u64>) {
    reference.Some? && bid <= reference.value < ask && 2 * reference.value <= bid + ask < 2 * reference.value + 2
  }

  // ------------------------------------------------------------------ the status

  function StatusAfter(status: MarketStatus, cmds: seq<SequencedCommand>): MarketStatus {
    if cmds == [] then status
    else if cmds[|cmds| - 1].command.SetStatus? then cmds[|cmds| - 1].command.status
    else StatusAfter(status, cmds[..|cmds| - 1])
  }

  lemma {:induction false} StatusIsLastSet(market: MarketConfig, cmds: seq<SequencedCommand>)
    ensures Run(Initial(market), cmds).market == market.(status := StatusAfter(market.status, cmds))
  {
    if cmds == [] {
    } else {
      hide PlaceOrder, Find;
      var n := |cmds| - 1;
      StatusIsLastSet(market, cmds[..n]);
      var e, c := Run(Initial(market), cmds[..n]), cmds[n];
      var e0 := e.(lastSeq := c.seqNo);
      match c.command
      case Place(id, request) => PlaceKeepsFrame(e0, c.seqNo, c.timestampMs, id, request);
      case Amend(id, newId, price, qty) =>
        if Lookup(e.book, id).Some? {
          var o := Lookup(e.book, id).value;
          PlaceKeepsFrame(e0.(book := e.book.Remove(o)), c.seqNo, c.timestampMs, newId,
                          Replacement(o, newId, price, qty));
        }
      case _ =>
    }
  }

  /** A status change says what the status was and what it is now, and leaves the book alone. */
  lemma {:induction false} StatusChangeIsSaid(market: MarketConfig, cmds: seq<SequencedCommand>, i: nat)
    requires i < |cmds| && cmds[i].command.SetStatus?
    ensures Results(Initial(market), cmds)[i].events
         == [StatusChanged(cmds[i].seqNo, StatusAfter(market.status, cmds[..i]), cmds[i].command.status)]
    ensures Run(Initial(market), cmds[..i + 1]).book == Run(Initial(market), cmds[..i]).book.(touched := {})
  {
    StatusIsLastSet(market, cmds[..i]);
    ResultAt(Initial(market), cmds, i);
    assert cmds[..i + 1][..i] == cmds[..i];
    hide Results;
  }
}
