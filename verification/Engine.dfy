/** The engine: commands applied to the tombstone book.

    Every method is proved to return exactly the events, and leave exactly the book, that the
    reference matcher computes from price-time lists. */
module Engine {
  import opened MatchingTypes
  import opened PriceTimeList
  import opened ReferenceBook
  import opened ReferenceMatcher
  import opened OrderBook
  import opened MatchingInvariants

  /** The id a command would introduce. */
  function NamedBy(c: Command): set<OrderId> {
    match c
    case Place(id, _) => {id}
    case Amend(_, newId, _, _) => {newId}
    case _ => {}
  }

  /** Best price out of reach: the dry run has nothing to add. */
  lemma NothingInReach(t: Taker, l: seq<RestingOrder>)
    requires l == [] || !Crosses(t.side, t.limit, l[0].price)
    ensures Fillable(t, l) == 0
  {
  }

  /** Removing or consuming the best order is taking the head of its list. */
  lemma HeadOfList(b: Book, side: Side, remaining: u64)
    requires var l := b.Of(side); l != [] && DistinctIds(l) && l[0].side == side
    ensures var l := b.Of(side); var traded := Min(remaining, l[0].remaining);
      && b.Remove(l[0]) == b.With(side, l[1..]).Touch(side, l[0].price)
      && b.Consume(l[0], traded) == b.With(side, TakeFromHead(l, traded)).Touch(side, l[0].price)
  {
    ConsumeHead(b.Of(side), Min(remaining, b.Of(side)[0].remaining));
  }

  /** The index answers what a scan of both lists would. */
  lemma {:induction false} IndexAnswers(s: Shape, b: Book, id: OrderId)
    requires Is(s, b)
    ensures b.Contains(id) <==> id in s.orders
    ensures Lookup(b, id) == if id in s.orders then Some(s.orders[id]) else None
  {
    ListFacts(s, b, Buy);
    ListFacts(s, b, Sell);
    if id in s.orders { IndexedIsListed(s, b, s.orders[id]); }
  }

  class Engine {
    var market: MarketConfig
    const book: OrderBook
    var lastSeq: nat

    ghost predicate Valid()
      reads this, book
    {
      book.Valid()
    }

    /** The engine as the reference matcher sees it. */
    ghost function Abstract(): EngineState
      reads this, book
    {
      EngineState(market, book.view, lastSeq)
    }

    /** An id the engine may be given: live, and so refused, or in no queue at all. */
    ghost predicate Fresh(id: OrderId)
      reads this, book
    {
      id in book.orders || id !in book.State().QueuedIds()
    }

    /** The ids a command introduces are fresh. */
    ghost predicate FreshFor(c: Command)
      reads this, book
    {
      match c
      case Place(id, _) => Fresh(id)
      case Amend(id, newId, _, _) =>
        id in book.orders ==> (newId in book.orders && newId != id) || newId !in book.State().QueuedIds()
      case _ => true
    }

    constructor (market: MarketConfig)
      ensures Valid() && fresh(book) && Abstract() == Initial(market)
    {
      this.market := market;
      this.lastSeq := 0;
      this.book := new OrderBook();
    }

    /** Resume from a snapshotted book. */
    constructor WithBook(market: MarketConfig, s: Shape, lastTrade: Option<u64>, lastSeq: nat, ghost b: Book)
      requires Is(s, b) && b.lastTrade == lastTrade
      ensures Valid() && fresh(book) && Abstract() == EngineState(market, b.(touched := {}), lastSeq)
      ensures book.State() == s
    {
      this.market := market;
      this.lastSeq := lastSeq;
      this.book := new OrderBook.FromSnapshot(s, lastTrade, b);
    }

    function BestPrice(side: Side): (r: Option<u64>)
      requires Valid()
      reads this, book
      ensures r == book.view.Best(side)
    {
      BestIs(book.State(), book.view, side);
      book.LadderFor(side).BestPrice()
    }

    function Reference(): (r: Option<u64>)
      requires Valid()
      reads this, book
      ensures r == ReferenceOf(book.view)
    {
      ReferencePrice(book.lastTradePrice, BestPrice(Buy), BestPrice(Sell))
    }

    /** The dry run: walk the levels from the best, skipping tombstones, changing nothing. */
    method FillableQty(t: Taker) returns (total: nat)
      requires Valid()
      ensures total == Fillable(t, book.view.Of(t.side.Opposite()))
    {
      total := 0;
      var ladder := book.LadderFor(t.side.Opposite());
      ghost var l := book.view.Of(t.side.Opposite());
      ghost var want := Fillable(t, l);
      hide Fillable, LadderIs;
      while true
        invariant Spells(ladder, book.orders, l)
        invariant total + Fillable(t, l) == want
        decreases |l|
      {
        EmptyLadder(ladder, book.orders, l);
        BestPriceIsHead(ladder, book.orders, l);
        var best := ladder.BestPrice();
        if best.None? || !Crosses(t.side, t.limit, best.value) {
          NothingInReach(t, l);
          return;
        }
        PeelBest(ladder, book.orders, l);
        AtPriceMembers(l, best.value);
        var k := |AtPrice(l, best.value)|;
        var taken, stop := LevelFillable(t, best.value, ladder.levels[best.value].queue, l[k..]);
        assert l == l[..k] + l[k..];
        total := total + taken;
        if stop { return; }
        ladder := ladder.(levels := ladder.levels - {best.value});
        l := l[k..];
      }
    }

    /** The same, within one level: sums live makers until an own order stops the taker. */
    method LevelFillable(t: Taker, price: u64, queue: seq<OrderId>, ghost rest: seq<RestingOrder>)
      returns (taken: nat, stop: bool)
      requires Crosses(t.side, t.limit, price)
      requires forall o :: o in LiveOf(queue, book.orders) ==> o.price == price
      ensures taken + (if stop then 0 else Fillable(t, rest)) == Fillable(t, LiveOf(queue, book.orders) + rest)
    {
      taken, stop := 0, false;
      var i := 0;
      ghost var all := LiveOf(queue, book.orders);
      assert queue[0..] == queue;
      while i < |queue|
        invariant 0 <= i <= |queue|
        invariant forall o :: o in LiveOf(queue[i..], book.orders) ==> o in all
        invariant taken + Fillable(t, LiveOf(queue[i..], book.orders) + rest) == Fillable(t, all + rest)
      {
        var id := queue[i];
        assert queue[i..][1..] == queue[i + 1..];
        if id in book.orders {
          var order := book.orders[id];
          ghost var tail := LiveOf(queue[i + 1..], book.orders);
          assert LiveOf(queue[i..], book.orders) == [order] + tail;
          assert order in LiveOf(queue[i..], book.orders);
          assert ([order] + tail + rest)[1..] == tail + rest;
          if order.accountId == t.accountId {
            if t.stpMode != CancelMaker { stop := true; return; }
          } else {
            taken := taken + order.remaining;
          }
        }
        i := i + 1;
      }
      assert LiveOf(queue[i..], book.orders) + rest == rest;
    }

    /** The match loop. */
    method MatchLoop(t: Taker, qty: u64) returns (remaining: u64, events: seq<Event>, stopped: bool)
      requires Valid()
      modifies book
      ensures Valid()
      ensures Matching(book.view, remaining, events, stopped) == Match(t, Matching(old(book.view), qty, [], false))
      ensures book.orders.Keys <= old(book.orders).Keys
      ensures book.State().QueuedIds() <= old(book.State().QueuedIds())
    {
      hide LadderIs, Queued, FillCount;
      remaining, events, stopped := qty, [], false;
      var side := t.side.Opposite();
      while remaining != 0
        invariant Valid() && !stopped
        invariant Match(t, Matching(book.view, remaining, events, false))
               == Match(t, Matching(old(book.view), qty, [], false))
        invariant book.orders.Keys <= old(book.orders).Keys
        invariant book.State().QueuedIds() <= old(book.State().QueuedIds())
        decreases |book.view.Of(side)|, remaining
      {
        var best := BestPrice(side);
        if best.None? || !Crosses(t.side, t.limit, best.value) { break; }
        BestLevelIsHead(book.view.Of(side));
        ListFacts(book.State(), book.view, side);
        HeadOfList(book.view, side, remaining);
        var maker := book.FrontLive(side, best.value);
        if maker.None? { break; }

        if maker.value.accountId == t.accountId {
          if t.stpMode == CancelTaker { stopped := true; break; }
          var removed := book.Remove(maker.value.orderId);
          if removed.Some? {
            events := events + [Cancelled(t.seqNo, removed.value.orderId, removed.value.remaining)];
          }
          if t.stpMode == CancelBoth { stopped := true; break; }
          continue;
        }

        var traded: u64 := Min(remaining, maker.value.remaining);
        var _ := book.ConsumeFront(side, best.value, traded);
        book.SetLastTradePrice(best.value);
        remaining := remaining - traded;
        events := events + [FillOf(t, FillCount(events), maker.value, traded)];
      }
    }

    method Place(seqNo: nat, timestampMs: int, id: OrderId, request: OrderRequest) returns (events: seq<Event>)
      requires Valid() && Fresh(id)
      modifies book
      ensures Valid()
      ensures Output(Abstract(), events) == PlaceOrder(old(Abstract()), seqNo, timestampMs, id, request)
      ensures book.State().QueuedIds() <= old(book.State().QueuedIds()) + {id}
    {
      hide Is, Queued, Match, Fillable, Validate, FillCount;
      IndexAnswers(book.State(), book.view, id);
      if id in book.orders { return [Rejected(seqNo, id, DuplicateClientOrderId)]; }
      var reference := Reference();
      var refusal := Validate(market, reference, request);
      if refusal.Some? { return [Rejected(seqNo, id, refusal.value)]; }
      if request.postOnly {
        var best := BestPrice(request.side.Opposite());
        if best.Some? && Crosses(request.side, request.price, best.value) {
          return [Rejected(seqNo, id, PostOnlyWouldCross)];
        }
      }
      if request.orderType != Limit && reference.None? { return [Rejected(seqNo, id, NoReferencePrice)]; }
      var t := Taker(id, request.accountId, request.side,
                     TakerLimit(market, if reference.Some? then reference.value else 0, request),
                     request.stpMode, seqNo, timestampMs);

      // Availability is determined BEFORE anything is mutated.
      if request.timeInForce == FOK {
        var available := FillableQty(t);
        if available < request.qty { return [Expired(seqNo, id, request.qty)]; }
      }

      ghost var before := Abstract();
      var remaining, stopped;
      remaining, events, stopped := MatchLoop(t, request.qty);
      events := DisposeOf(before, id, request, t, remaining, events, stopped);
    }

    /** What follows the match loop: one disposition, and a rest for a GTC limit order's remainder. */
    method DisposeOf(ghost before: EngineState, id: OrderId, request: OrderRequest, t: Taker, remaining: u64,
                     fills: seq<Event>, stopped: bool) returns (events: seq<Event>)
      requires Valid() && t.orderId == id && before == Abstract().(book := before.book)
      requires id !in book.orders && id !in book.State().QueuedIds()
      modifies book
      ensures Valid()
      ensures Output(Abstract(), events)
           == Dispose(before, id, request, t, Matching(old(book.view), remaining, fills, stopped))
      ensures book.State().QueuedIds() <= old(book.State().QueuedIds()) + {id}
    {
      hide Is, Queued, FillCount;
      if stopped {
        if FillCount(fills) > 0 { return fills + [Expired(t.seqNo, id, remaining)]; }
        return fills + [Rejected(t.seqNo, id, SelfTradePrevented)];
      }
      if remaining == 0 { return fills + [Accepted(t.seqNo, id, 0)]; }
      if request.orderType == Limit && request.timeInForce == GTC && request.price.Some? {
        book.Rest(RestingOrder(id, request.accountId, request.side, request.price.value, remaining,
                               request.stpMode, t.seqNo));
        return fills + [Accepted(t.seqNo, id, remaining)];
      }
      return fills + [Expired(t.seqNo, id, remaining)];
    }

    method Cancel(seqNo: nat, id: OrderId) returns (events: seq<Event>)
      requires Valid()
      modifies book
      ensures Valid()
      ensures Output(Abstract(), events) == CancelOrder(old(Abstract()), seqNo, id)
      ensures book.State().QueuedIds() <= old(book.State().QueuedIds())
    {
      hide Is, Queued, Find;
      IndexAnswers(book.State(), book.view, id);
      var removed := book.Remove(id);
      if removed.None? { return [Rejected(seqNo, id, UnknownOrder)]; }
      return [Cancelled(seqNo, id, removed.value.remaining)];
    }

    method Amend(seqNo: nat, timestampMs: int, id: OrderId, newId: OrderId, price: u64, qty: u64)
      returns (events: seq<Event>)
      requires Valid() && FreshFor(MatchingTypes.Amend(id, newId, price, qty))
      modifies book
      ensures Valid()
      ensures Output(Abstract(), events) == AmendOrder(old(Abstract()), seqNo, timestampMs, id, newId, price, qty)
      ensures book.State().QueuedIds() <= old(book.State().QueuedIds()) + {newId}
    {
      hide Is, Queued, Find, PlaceOrder;
      IndexAnswers(book.State(), book.view, id);
      var existing := book.Remove(id);
      if existing.None? { return [Rejected(seqNo, id, UnknownOrder)]; }
      var placed := Place(seqNo, timestampMs, newId, Replacement(existing.value, newId, price, qty));
      events := [Cancelled(seqNo, id, existing.value.remaining)] + placed;
    }

    /** Apply one command: the same events and the same book as the reference, always, and a book that
        passed the engine's own invariant still passes it. */
    method Apply(c: SequencedCommand) returns (events: seq<Event>)
      requires Valid() && FreshFor(c.command)
      modifies this, book
      ensures Valid()
      ensures Output(Abstract(), events) == ReferenceMatcher.Apply(old(Abstract()), c)
      ensures book.State().QueuedIds() <= old(book.State().QueuedIds()) + NamedBy(c.command)
      ensures old(BookInv(book.view, lastSeq) && lastSeq <= c.seqNo) ==>
        BookInv(book.view, lastSeq) && Sound(book.State())
    {
      hide Is, Queued, Find, PlaceOrder, Sound, BookInv;
      ghost var before := Abstract();
      lastSeq := c.seqNo;
      match c.command {
        case Place(id, request) => events := Place(c.seqNo, c.timestampMs, id, request);
        case Cancel(id) => events := Cancel(c.seqNo, id);
        case Amend(id, newId, price, qty) => events := Amend(c.seqNo, c.timestampMs, id, newId, price, qty);
        case SetStatus(status) =>
          events := [StatusChanged(c.seqNo, market.status, status)];
          market := market.(status := status);
      }
      if BookInv(before.book, before.lastSeq) && before.lastSeq <= c.seqNo {
        CommandKeepsBook(before, c);
        IsSound(book.State(), book.view, c.seqNo);
      }
    }

    /** The levels changed since last asked, with their quantities now. */
    method TakeLevelChanges() returns (changes: map<LevelKey, nat>)
      requires Valid()
      modifies book
      ensures Valid() && Abstract() == ClearTouched(old(Abstract()))
      ensures changes == LevelsOf(old(book.view))
      ensures book.State() == old(book.State())
    {
      changes := book.TakeLevelChanges();
    }
  }
}
