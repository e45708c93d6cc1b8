/** The matching rules, stated over price-time lists.

    This is the engine with everything about queues, tombstones and indexes removed: what a trader
    could check with a list on paper. The engine is proved to compute exactly this, and the theorems
    about fills, conservation and depth are proved of it for every book and every command. */
module ReferenceMatcher {
  import opened MatchingTypes
  import opened PriceTimeList
  import opened ReferenceBook

  datatype EngineState = EngineState(market: MarketConfig, book: Book, lastSeq: nat)

  datatype Output = Output(state: EngineState, events: seq<Event>)

  /** Last trade, then the mid of a two-sided quote, then nothing. */
  function ReferencePrice(lastTrade: Option<u64>, bid: Option<u64>, ask: Option<u64>): Option<u64> {
    if lastTrade.Some? then lastTrade
    else if bid.Some? && ask.Some? then Some((bid.value + ask.value) / 2)
    else None
  }

  function ReferenceOf(b: Book): Option<u64> {
    ReferencePrice(b.lastTrade, b.Best(Buy), b.Best(Sell))
  }

  /** The first reason to refuse a request, in the engine's order, or `None`. */
  function Validate(market: MarketConfig, reference: Option<u64>, request: OrderRequest): Option<RejectReason> {
    if market.status != Open && market.status != PostOnly then Some(MarketNotOpen)
    else if market.status == PostOnly && !request.postOnly then Some(MarketNotOpen)
    else if request.qty == 0 then Some(QuantityNotPositive)
    else if request.orderType == Limit && request.price.None? then Some(PriceRequired)
    else if request.orderType != Limit && request.price.Some? then Some(PriceNotAllowed)
    else if request.postOnly && request.orderType != Limit then Some(PostOnlyRequiresLimit)
    else if request.price.Some? && !IsMultipleOf(request.price.value, market.tickSize) then Some(TickViolation)
    else if !IsMultipleOf(request.qty, market.lotSize) then Some(LotViolation)
    else if request.price.None? && reference.None? then Some(NoReferencePrice)
    else
      var judgedAt := if request.price.Some? then request.price.value else reference.value;
      if request.price.Some? && reference.Some? && OutsideBand(request.price.value, CollarBand(market, reference.value))
      then Some(OutsideCollar)
      else match Notional(judgedAt, request.qty)
        case None => Some(NotionalOverflow)
        case Some(value) => if value < market.minNotional then Some(BelowMinNotional) else None
  }

  predicate OutsideBand(price: u64, band: (u64, u64)) { price < band.0 || price > band.1 }

  /** The price a taker may not go past: its limit, or its side's edge of the collar. */
  function TakerLimit(market: MarketConfig, reference: u64, request: OrderRequest): Option<u64> {
    if request.orderType == Limit then request.price
    else
      var band := CollarBand(market, reference);
      Some(if request.side == Buy then band.1 else band.0)
  }

  // ------------------------------------------------------------------ the match loop

  datatype Taker = Taker(
    orderId: OrderId, accountId: AccountId, side: Side, limit: Option<u64>, stpMode: StpMode,
    seqNo: nat, timestampMs: int)

  datatype Matching = Matching(book: Book, remaining: u64, events: seq<Event>, stopped: bool)

  function FillCount(events: seq<Event>): nat {
    if events == [] then 0
    else FillCount(events[..|events| - 1]) + (if events[|events| - 1].Filled? then 1 else 0)
  }

  function Makers(t: Taker, m: Matching): seq<RestingOrder> { m.book.Of(t.side.Opposite()) }

  /** Nothing more will happen: stopped, filled, no maker, or no maker in reach. */
  predicate Done(t: Taker, m: Matching) {
    m.stopped || m.remaining == 0 || Makers(t, m) == []
    || !Crosses(t.side, t.limit, Makers(t, m)[0].price)
  }

  /** `l` with `qty` taken from its head. */
  function TakeFromHead(l: seq<RestingOrder>, qty: u64): seq<RestingOrder>
    requires l != []
  {
    if l[0].remaining <= qty then l[1..]
    else [l[0].(remaining := l[0].remaining - qty)] + l[1..]
  }

  /** Meet the best maker: cancel it, stop at it, or trade with it. */
  function Step(t: Taker, m: Matching): Matching
    requires !Done(t, m)
  {
    var l := Makers(t, m);
    var maker, side := l[0], t.side.Opposite();
    if maker.accountId == t.accountId then
      if t.stpMode == CancelTaker then m.(stopped := true)
      else m.(book := m.book.With(side, l[1..]).Touch(side, maker.price),
              events := m.events + [Cancelled(t.seqNo, maker.orderId, maker.remaining)],
              stopped := t.stpMode == CancelBoth)
    else
      var traded: u64 := Min(m.remaining, maker.remaining);
      m.(book := m.book.With(side, TakeFromHead(l, traded)).Touch(side, maker.price)
                  .(lastTrade := Some(maker.price)),
         remaining := m.remaining - traded,
         events := m.events + [FillOf(t, FillCount(m.events), maker, traded)])
  }

  function FillOf(t: Taker, fillsBefore: nat, maker: RestingOrder, traded: u64): Event {
    Filled(Fill(FillId(t.seqNo, fillsBefore), t.seqNo, t.orderId, maker.orderId, t.side,
                maker.price, traded, t.timestampMs))
  }

  function Match(t: Taker, m: Matching): Matching
    decreases !m.stopped, |Makers(t, m)|, m.remaining
  {
    if Done(t, m) then m else Match(t, Step(t, m))
  }

  /** How much a taker could fill, changing nothing. Stopping modes stop at the first own order;
      `CancelMaker` passes it by. */
  function Fillable(t: Taker, l: seq<RestingOrder>): nat {
    if l == [] || !Crosses(t.side, t.limit, l[0].price) then 0
    else if l[0].accountId == t.accountId then
      if t.stpMode == CancelMaker then Fillable(t, l[1..]) else 0
    else l[0].remaining + Fillable(t, l[1..])
  }

  // ------------------------------------------------------------------ commands

  function PlaceOrder(e: EngineState, seqNo: nat, ts: int, id: OrderId, request: OrderRequest): Output {
    var reference := ReferenceOf(e.book);
    var refusal := Validate(e.market, reference, request);
    if e.book.Contains(id) then Reject(e, seqNo, id, DuplicateClientOrderId)
    else if refusal.Some? then Reject(e, seqNo, id, refusal.value)
    else if request.postOnly && WouldCross(e.book, request.side, request.price) then
      Reject(e, seqNo, id, PostOnlyWouldCross)
    else if request.orderType != Limit && reference.None? then Reject(e, seqNo, id, NoReferencePrice)
    else
      var t := TakerOf(e, seqNo, ts, id, request);
      if request.timeInForce == FOK && Fillable(t, e.book.Of(t.side.Opposite())) < request.qty then
        Output(e, [Expired(seqNo, id, request.qty)])
      else
        Dispose(e, id, request, t, Match(t, Matching(e.book, request.qty, [], false)))
  }

  function Reject(e: EngineState, seqNo: nat, id: OrderId, reason: RejectReason): Output {
    Output(e, [Rejected(seqNo, id, reason)])
  }

  predicate WouldCross(b: Book, side: Side, price: Option<u64>) {
    b.Best(side.Opposite()).Some? && Crosses(side, price, b.Best(side.Opposite()).value)
  }

  function TakerOf(e: EngineState, seqNo: nat, ts: int, id: OrderId, request: OrderRequest): Taker {
    var reference := ReferenceOf(e.book);
    Taker(id, request.accountId, request.side,
          TakerLimit(e.market, if reference.Some? then reference.value else 0, request),
          request.stpMode, seqNo, ts)
  }

  /** Exactly one disposition after the fills. */
  function Dispose(e: EngineState, id: OrderId, request: OrderRequest, t: Taker, m: Matching): Output {
    var e' := e.(book := m.book);
    if m.stopped then
      if FillCount(m.events) > 0 then Output(e', m.events + [Expired(t.seqNo, id, m.remaining)])
      else Output(e', m.events + [Rejected(t.seqNo, id, SelfTradePrevented)])
    else if m.remaining == 0 then Output(e', m.events + [Accepted(t.seqNo, id, 0)])
    else if request.orderType == Limit && request.timeInForce == GTC && request.price.Some? then
      var o := RestingOrder(id, request.accountId, request.side, request.price.value, m.remaining,
                            request.stpMode, t.seqNo);
      Output(e.(book := m.book.Rest(o)), m.events + [Accepted(t.seqNo, id, m.remaining)])
    else Output(e', m.events + [Expired(t.seqNo, id, m.remaining)])
  }

  /** The resting order with an id, if any. */
  function Find(l: seq<RestingOrder>, id: OrderId): (r: Option<RestingOrder>)
    ensures r.Some? ==> r.value in l && r.value.orderId == id
    ensures r.None? ==> !HasId(l, id)
  {
    if l == [] then None
    else if l[0].orderId == id then Some(l[0])
    else Find(l[1..], id)
  }

  function Lookup(b: Book, id: OrderId): (r: Option<RestingOrder>)
    ensures r.Some? <==> b.Contains(id)
  {
    if Find(b.bids, id).Some? then Find(b.bids, id) else Find(b.asks, id)
  }

  function CancelOrder(e: EngineState, seqNo: nat, id: OrderId): Output {
    match Lookup(e.book, id)
    case None => Reject(e, seqNo, id, UnknownOrder)
    case Some(o) => Output(e.(book := e.book.Remove(o)), [Cancelled(seqNo, id, o.remaining)])
  }

  /** What an amend places: a plain GTC limit order for the same account and side. */
  function Replacement(o: RestingOrder, newId: OrderId, price: u64, qty: u64): OrderRequest {
    OrderRequest(newId, o.side, Limit, GTC, Some(price), qty, false, o.stpMode, o.accountId)
  }

  /** Cancel and replace, losing time priority. */
  function AmendOrder(e: EngineState, seqNo: nat, ts: int, id: OrderId, newId: OrderId, price: u64, qty: u64): Output {
    match Lookup(e.book, id)
    case None => Reject(e, seqNo, id, UnknownOrder)
    case Some(o) =>
      var placed := PlaceOrder(e.(book := e.book.Remove(o)), seqNo, ts, newId, Replacement(o, newId, price, qty));
      placed.(events := [Cancelled(seqNo, id, o.remaining)] + placed.events)
  }

  function Apply(e: EngineState, c: SequencedCommand): Output {
    var e := e.(lastSeq := c.seqNo);
    match c.command
    case Place(id, request) => PlaceOrder(e, c.seqNo, c.timestampMs, id, request)
    case Cancel(id) => CancelOrder(e, c.seqNo, id)
    case Amend(id, newId, price, qty) => AmendOrder(e, c.seqNo, c.timestampMs, id, newId, price, qty)
    case SetStatus(status) =>
      Output(e.(market := e.market.(status := status)), [StatusChanged(c.seqNo, e.market.status, status)])
  }

  /** The events of one command and the levels it left changed, with their quantities after it. */
  datatype Result = Result(events: seq<Event>, levels: map<LevelKey, nat>)

  function LevelsOf(b: Book): map<LevelKey, nat> {
    map k | k in b.touched :: b.Depth(k)
  }

  function ClearTouched(e: EngineState): EngineState { e.(book := e.book.(touched := {})) }

  function Initial(market: MarketConfig): EngineState { EngineState(market, EMPTY_BOOK, 0) }

  /** The engine after a run of commands, its level record taken after each. */
  function Run(e: EngineState, cmds: seq<SequencedCommand>): EngineState {
    if cmds == [] then e
    else ClearTouched(Apply(Run(e, cmds[..|cmds| - 1]), cmds[|cmds| - 1]).state)
  }

  /** What each command of a run produced. */
  function Results(e: EngineState, cmds: seq<SequencedCommand>): (r: seq<Result>)
    ensures |r| == |cmds|
  {
    if cmds == [] then []
    else
      var last := |cmds| - 1;
      var out := Apply(Run(e, cmds[..last]), cmds[last]);
      Results(e, cmds[..last]) + [Result(out.events, LevelsOf(out.state.book))]
  }
}
