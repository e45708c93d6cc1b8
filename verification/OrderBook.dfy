/** The order book: ladders of price levels with tombstones, incremental totals and an order index.

    Every operation is proved to act on the price-time list exactly as the reference book does,
    however many tombstones the queues hold. */
module OrderBook {
  import opened MatchingTypes
  import opened PriceTimeList
  import opened ReferenceBook

  type Index = map<OrderId, RestingOrder>

  /** `queue` is arrival order and may hold tombstones: ids no longer in the index.
      `totalQty` counts live orders only. */
  datatype Level = Level(queue: seq<OrderId>, totalQty: nat)

  /** The live orders of a queue, in queue order: what remains once tombstones are skipped. */
  function LiveOf(queue: seq<OrderId>, orders: Index): seq<RestingOrder> {
    if queue == [] then []
    else if queue[0] in orders then [orders[queue[0]]] + LiveOf(queue[1..], orders)
    else LiveOf(queue[1..], orders)
  }

  predicate IsBest(side: Side, p: u64, s: set<u64>) {
    p in s && forall q :: q in s ==> AtLeastAsGood(side, p, q)
  }

  lemma {:induction false} BestExists(side: Side, s: set<u64>)
    requires s != {}
    ensures exists p :: IsBest(side, p, s)
    decreases |s|
  {
    var x :| x in s;
    var rest := s - {x};
    if rest == {} {
      assert s == {x};
      assert IsBest(side, x, s);
    } else {
      BestExists(side, rest);
      var p :| IsBest(side, p, rest);
      assert forall q :: q in s ==> q == x || q in rest;
      assert IsBest(side, if AtLeastAsGood(side, p, x) then p else x, s);
    }
  }

  datatype Ladder = Ladder(side: Side, levels: map<u64, Level>) {

    /** The last key of a bid ladder, the first of an ask ladder. */
    function BestPrice(): (r: Option<u64>)
      ensures r.None? <==> levels.Keys == {}
      ensures r.Some? ==> r.value in levels && forall q :: q in levels ==> AtLeastAsGood(side, r.value, q)
    {
      if levels.Keys == {} then None
      else
        BestExists(side, levels.Keys);
        var p :| IsBest(side, p, levels.Keys);
        Some(p)
    }

    function PushBack(price: u64, id: OrderId, qty: u64): Ladder {
      var level := if price in levels then levels[price] else Level([], 0);
      this.(levels := levels[price := Level(level.queue + [id], level.totalQty + qty)])
    }

    /** Reduce a level's live total, dropping the level once it reaches zero.
        Both a fill (`reduce`) and a cancel (`forget`) do exactly this. */
    function Reduce(price: u64, qty: u64): Ladder {
      if price !in levels then this
      else
        var total := SaturatingSub(levels[price].totalQty, qty);
        if total == 0 then this.(levels := levels - {price})
        else this.(levels := levels[price := levels[price].(totalQty := total)])
    }

    function PopFront(price: u64): Ladder {
      if price !in levels then this
      else
        var queue := if levels[price].queue == [] then [] else levels[price].queue[1..];
        if queue == [] then this.(levels := levels - {price})
        else this.(levels := levels[price := levels[price].(queue := queue)])
    }
  }

  /** The ladder, read through the index, IS the list `l`. */
  ghost predicate LadderIs(ladder: Ladder, orders: Index, l: seq<RestingOrder>) {
    && ListIs(ladder.side, orders, l)
    && forall p: u64 :: PriceIs(ladder, orders, l, p)
  }

  /** `l` is the price-sorted list of exactly the indexed orders of one side. */
  ghost predicate ListIs(side: Side, orders: Index, l: seq<RestingOrder>) {
    && Sorted(side, l)
    && DistinctIds(l)
    && (forall o :: o in l ==> o.remaining > 0)
    && (forall o :: o in l <==> Indexed(orders, o) && o.side == side)
  }

  ghost predicate Indexed(orders: Index, o: RestingOrder) {
    o.orderId in orders && orders[o.orderId] == o
  }

  /** A level exists exactly where something is live, and holds exactly that. */
  ghost predicate PriceIs(ladder: Ladder, orders: Index, l: seq<RestingOrder>, p: u64) {
    if p in ladder.levels
    then AtPrice(l, p) != [] && LevelIs(ladder.levels[p], orders, AtPrice(l, p))
    else AtPrice(l, p) == []
  }

  ghost predicate LevelIs(level: Level, orders: Index, l: seq<RestingOrder>) {
    LiveOf(level.queue, orders) == l && level.totalQty == Total(l)
  }

  ghost predicate IndexOk(orders: Index) {
    forall id :: id in orders ==> orders[id].orderId == id
  }

  /** Every id in some queue, live or as a tombstone. */
  ghost function Queued(ladder: Ladder): set<OrderId> {
    set p, id | p in ladder.levels && id in ladder.levels[p].queue :: id
  }

  lemma ReduceQueuesNone(ladder: Ladder, price: u64, qty: u64)
    ensures Queued(ladder.Reduce(price, qty)) <= Queued(ladder)
  {
  }

  lemma PushBackQueues(ladder: Ladder, price: u64, id: OrderId, qty: u64)
    ensures Queued(ladder.PushBack(price, id, qty)) == Queued(ladder) + {id}
  {
    var after := ladder.PushBack(price, id, qty);
    assert id in after.levels[price].queue;
    forall p, x | p in ladder.levels && x in ladder.levels[p].queue ensures x in Queued(after) {
      assert p in after.levels && x in after.levels[p].queue;
    }
    forall p, x | p in after.levels && x in after.levels[p].queue ensures x in Queued(ladder) + {id} {
      assert p == price || x in ladder.levels[p].queue;
    }
  }

  lemma PopFrontQueuesNone(ladder: Ladder, price: u64)
    ensures Queued(ladder.PopFront(price)) <= Queued(ladder)
  {
    var after := ladder.PopFront(price);
    forall p, id | p in after.levels && id in after.levels[p].queue ensures id in Queued(ladder) {
      assert id in ladder.levels[p].queue;
    }
  }

  // ------------------------------------------------------------------ queues against the index

  lemma {:induction false} LiveOfRemove(queue: seq<OrderId>, orders: Index, id: OrderId)
    requires IndexOk(orders)
    ensures LiveOf(queue, orders - {id}) == RemoveId(LiveOf(queue, orders), id)
  {
    if queue == [] {
    } else {
      LiveOfRemove(queue[1..], orders, id);
      if queue[0] in orders {
        assert ([orders[queue[0]]] + LiveOf(queue[1..], orders))[1..] == LiveOf(queue[1..], orders);
      }
    }
  }

  lemma {:induction false} LiveOfAddAbsent(queue: seq<OrderId>, orders: Index, id: OrderId, o: RestingOrder)
    requires id !in queue
    ensures LiveOf(queue, orders[id := o]) == LiveOf(queue, orders)
  {
    if queue == [] {
    } else {
      LiveOfAddAbsent(queue[1..], orders, id, o);
    }
  }

  lemma {:induction false} LiveOfAppend(a: seq<OrderId>, b: seq<OrderId>, orders: Index)
    ensures LiveOf(a + b, orders) == LiveOf(a, orders) + LiveOf(b, orders)
  {
    if a == [] {
      assert a + b == b;
    } else {
      assert (a + b)[1..] == a[1..] + b;
      LiveOfAppend(a[1..], b, orders);
    }
  }

  /** An id is not in a list of the other side's orders. */
  lemma OtherSideLacks(ladder: Ladder, orders: Index, l: seq<RestingOrder>, o: RestingOrder)
    requires LadderIs(ladder, orders, l) && IndexOk(orders)
    requires o.orderId in orders && orders[o.orderId] == o && o.side != ladder.side
    ensures !HasId(l, o.orderId)
  {
  }

  // ------------------------------------------------------------------ the three index changes, seen by a ladder

  /** A cancel: forget the order, leave its id in the queue. */
  lemma CancelOwnSide(ladder: Ladder, orders: Index, l: seq<RestingOrder>, o: RestingOrder)
    requires LadderIs(ladder, orders, l) && IndexOk(orders)
    requires o in l
    ensures LadderIs(ladder.Reduce(o.price, o.remaining), orders - {o.orderId}, RemoveId(l, o.orderId))
  {
    CancelList(ladder.side, orders, l, o);
    forall p: u64
      ensures PriceIs(ladder.Reduce(o.price, o.remaining), orders - {o.orderId}, RemoveId(l, o.orderId), p)
    {
      CancelPrice(ladder, orders, l, o, p);
    }
  }

  lemma CancelList(side: Side, orders: Index, l: seq<RestingOrder>, o: RestingOrder)
    requires ListIs(side, orders, l) && IndexOk(orders) && o in l
    ensures ListIs(side, orders - {o.orderId}, RemoveId(l, o.orderId))
  {
    RemoveIdMembers(l, o.orderId);
    RemoveIdOrder(side, l, o.orderId);
  }

  lemma CancelPrice(ladder: Ladder, orders: Index, l: seq<RestingOrder>, o: RestingOrder, p: u64)
    requires LadderIs(ladder, orders, l) && IndexOk(orders) && o in l
    ensures PriceIs(ladder.Reduce(o.price, o.remaining), orders - {o.orderId}, RemoveId(l, o.orderId), p)
  {
    var id := o.orderId;
    var here := AtPrice(l, p);
    assert PriceIs(ladder, orders, l, p);
    AtPriceRemove(l, id, p);
    AtPriceMembers(l, p);
    if p in ladder.levels { LiveOfRemove(ladder.levels[p].queue, orders, id); }
    if p != o.price {
      assert orders[id] == o;
      RemoveAbsent(here, id);
    } else {
      AtPriceDistinct(l, p);
      TotalRemove(here, o);
      RemoveIdMembers(here, id);
      TotalZero(RemoveId(here, id));
    }
  }

  lemma CancelOtherSide(ladder: Ladder, orders: Index, l: seq<RestingOrder>, o: RestingOrder)
    requires LadderIs(ladder, orders, l) && IndexOk(orders)
    requires o.orderId in orders && orders[o.orderId] == o && o.side != ladder.side
    ensures LadderIs(ladder, orders - {o.orderId}, l)
  {
    OtherSideLacks(ladder, orders, l, o);
    forall p: u64 ensures PriceIs(ladder, orders - {o.orderId}, l, p) {
      assert PriceIs(ladder, orders, l, p);
      if p in ladder.levels {
        LiveOfRemove(ladder.levels[p].queue, orders, o.orderId);
        AtPriceMembers(l, p);
        RemoveAbsent(AtPrice(l, p), o.orderId);
      }
    }
  }

  /** A rest: the id joins the back of its level. Needs the id to be in no queue at all. */
  lemma RestOwnSide(ladder: Ladder, orders: Index, l: seq<RestingOrder>, o: RestingOrder)
    requires LadderIs(ladder, orders, l) && IndexOk(orders)
    requires o.side == ladder.side && o.remaining > 0
    requires o.orderId !in orders && o.orderId !in Queued(ladder)
    ensures LadderIs(ladder.PushBack(o.price, o.orderId, o.remaining), orders[o.orderId := o],
                     Insert(ladder.side, l, o))
  {
    InsertMembers(ladder.side, l, o);
    InsertSorted(ladder.side, l, o);
    InsertDistinct(ladder.side, l, o);
    var ladder' := ladder.PushBack(o.price, o.orderId, o.remaining);
    var orders' := orders[o.orderId := o];
    forall p: u64 ensures PriceIs(ladder', orders', Insert(ladder.side, l, o), p) {
      RestPrice(ladder, orders, l, o, p);
    }
  }

  lemma RestPrice(ladder: Ladder, orders: Index, l: seq<RestingOrder>, o: RestingOrder, p: u64)
    requires LadderIs(ladder, orders, l) && o.orderId !in orders && o.orderId !in Queued(ladder)
    ensures PriceIs(ladder.PushBack(o.price, o.orderId, o.remaining), orders[o.orderId := o],
                    Insert(ladder.side, l, o), p)
  {
    assert PriceIs(ladder, orders, l, p);
    AtPriceInsert(ladder.side, l, o, p);
    var orders' := orders[o.orderId := o];
    if p in ladder.levels { LiveOfAddAbsent(ladder.levels[p].queue, orders, o.orderId, o); }
    if p == o.price {
      var q := if p in ladder.levels then ladder.levels[p].queue else [];
      LiveOfAppend(q, [o.orderId], orders');
      assert LiveOf([o.orderId], orders') == [o];
      TotalAppend(AtPrice(l, p), [o]);
      assert Total([o]) == o.remaining;
    }
  }

  lemma RestOtherSide(ladder: Ladder, orders: Index, l: seq<RestingOrder>, o: RestingOrder)
    requires LadderIs(ladder, orders, l) && IndexOk(orders)
    requires o.side != ladder.side && o.orderId !in orders && o.orderId !in Queued(ladder)
    ensures LadderIs(ladder, orders[o.orderId := o], l)
  {
    var orders' := orders[o.orderId := o];
    forall p: u64 ensures PriceIs(ladder, orders', l, p) {
      assert PriceIs(ladder, orders, l, p);
      if p in ladder.levels { LiveOfAddAbsent(ladder.levels[p].queue, orders, o.orderId, o); }
    }
  }

  lemma {:induction false} LiveOfSetRemaining(queue: seq<OrderId>, orders: Index, id: OrderId, remaining: u64)
    requires IndexOk(orders) && id in orders
    ensures LiveOf(queue, orders[id := orders[id].(remaining := remaining)])
         == SetRemaining(LiveOf(queue, orders), id, remaining)
  {
    if queue == [] {
    } else {
      LiveOfSetRemaining(queue[1..], orders, id, remaining);
      if queue[0] in orders {
        assert ([orders[queue[0]]] + LiveOf(queue[1..], orders))[1..] == LiveOf(queue[1..], orders);
      }
    }
  }

  /** A partial fill: the order shrinks in place and so does its level's total. */
  lemma ShrinkOwnSide(ladder: Ladder, orders: Index, l: seq<RestingOrder>, o: RestingOrder, qty: u64)
    requires LadderIs(ladder, orders, l) && IndexOk(orders)
    requires o in l && qty < o.remaining
    ensures LadderIs(ladder.Reduce(o.price, qty), orders[o.orderId := o.(remaining := o.remaining - qty)],
                     SetRemaining(l, o.orderId, o.remaining - qty))
  {
    var orders' := orders[o.orderId := o.(remaining := o.remaining - qty)];
    ShrinkList(ladder.side, orders, l, o, qty);
    var ladder' := ladder.Reduce(o.price, qty);
    var l' := SetRemaining(l, o.orderId, o.remaining - qty);
    forall p: u64 ensures PriceIs(ladder', orders', l', p) {
      ShrinkPrice(ladder, orders, l, o, qty, p);
    }
  }

  lemma ShrinkList(side: Side, orders: Index, l: seq<RestingOrder>, o: RestingOrder, qty: u64)
    requires ListIs(side, orders, l) && IndexOk(orders) && o in l && qty < o.remaining
    ensures ListIs(side, orders[o.orderId := o.(remaining := o.remaining - qty)],
                   SetRemaining(l, o.orderId, o.remaining - qty))
  {
    var left := o.remaining - qty;
    SetRemainingOrder(side, l, o.orderId, left);
    ShrinkMembers(side, orders, l, o, left);
  }

  lemma ShrinkMembers(side: Side, orders: Index, l: seq<RestingOrder>, o: RestingOrder, left: u64)
    requires ListIs(side, orders, l) && IndexOk(orders) && o in l && left > 0
    ensures forall x ::
      x in SetRemaining(l, o.orderId, left) <==> x == o.(remaining := left) || (x in l && x.orderId != o.orderId)
  {
    var l' := SetRemaining(l, o.orderId, left);
    SetRemainingAt(l, o.orderId, left);
    forall x | x in l' ensures x == o.(remaining := left) || (x in l && x.orderId != o.orderId) {
      var i :| 0 <= i < |l'| && l'[i] == x;
      assert l[i] in l && Indexed(orders, l[i]) && Indexed(orders, o);
    }
    forall x | x in l && x.orderId != o.orderId ensures x in l' {
      var i :| 0 <= i < |l| && l[i] == x;
      assert l'[i] == x;
    }
    var k :| 0 <= k < |l| && l[k] == o;
    assert l'[k] == o.(remaining := left);
  }

  lemma ShrinkPrice(ladder: Ladder, orders: Index, l: seq<RestingOrder>, o: RestingOrder, qty: u64, p: u64)
    requires LadderIs(ladder, orders, l) && IndexOk(orders) && o in l && qty < o.remaining
    ensures PriceIs(ladder.Reduce(o.price, qty), orders[o.orderId := o.(remaining := o.remaining - qty)],
                    SetRemaining(l, o.orderId, o.remaining - qty), p)
  {
    var id, left := o.orderId, o.remaining - qty;
    var here := AtPrice(l, p);
    assert PriceIs(ladder, orders, l, p);
    AtPriceSetRemaining(l, id, left, p);
    AtPriceMembers(l, p);
    if p in ladder.levels { LiveOfSetRemaining(ladder.levels[p].queue, orders, id, left); }
    if p != o.price {
      assert orders[id] == o;
      SetRemainingAbsent(here, id, left);
    } else {
      AtPriceDistinct(l, p);
      TotalSetRemaining(here, o, left);
      StillPositive(here, o, left);
    }
  }

  lemma StillPositive(l: seq<RestingOrder>, o: RestingOrder, left: u64)
    requires (forall x :: x in l ==> x.remaining > 0) && left > 0 && l != []
    ensures Total(SetRemaining(l, o.orderId, left)) > 0
  {
    var r := SetRemaining(l, o.orderId, left);
    SetRemainingAt(l, o.orderId, left);
    assert r[0].remaining > 0 by { assert l[0] in l; }
  }

  lemma ShrinkOtherSide(ladder: Ladder, orders: Index, l: seq<RestingOrder>, o: RestingOrder, qty: u64)
    requires LadderIs(ladder, orders, l) && IndexOk(orders)
    requires o.orderId in orders && orders[o.orderId] == o && o.side != ladder.side && qty < o.remaining
    ensures LadderIs(ladder, orders[o.orderId := o.(remaining := o.remaining - qty)], l)
  {
    var orders' := orders[o.orderId := o.(remaining := o.remaining - qty)];
    OtherSideLacks(ladder, orders, l, o);
    forall p: u64 ensures PriceIs(ladder, orders', l, p) {
      assert PriceIs(ladder, orders, l, p);
      if p in ladder.levels {
        LiveOfSetRemaining(ladder.levels[p].queue, orders, o.orderId, o.remaining - qty);
        AtPriceMembers(l, p);
        SetRemainingAbsent(AtPrice(l, p), o.orderId, o.remaining - qty);
      }
    }
  }

  /** Popping a tombstone changes nothing anyone can see. */
  lemma PruneFront(ladder: Ladder, orders: Index, l: seq<RestingOrder>, p: u64)
    requires LadderIs(ladder, orders, l)
    requires p in ladder.levels && ladder.levels[p].queue != [] && ladder.levels[p].queue[0] !in orders
    ensures LadderIs(ladder.PopFront(p), orders, l)
  {
    assert PriceIs(ladder, orders, l, p);
    var queue := ladder.levels[p].queue;
    assert LiveOf(queue, orders) == LiveOf(queue[1..], orders);
    assert queue[1..] != [];
    forall q: u64 ensures PriceIs(ladder.PopFront(p), orders, l, q) {
      assert PriceIs(ladder, orders, l, q);
    }
  }

  /** A fill that exhausts the front order: `Reduce`, then `PopFront` unless the level went with it. */
  lemma ExhaustOwnSide(ladder: Ladder, orders: Index, l: seq<RestingOrder>, o: RestingOrder)
    requires LadderIs(ladder, orders, l) && IndexOk(orders) && o in l
    requires o.price in ladder.levels && ladder.levels[o.price].queue != []
    requires ladder.levels[o.price].queue[0] == o.orderId
    ensures LadderIs(ladder.Reduce(o.price, o.remaining).PopFront(o.price), orders - {o.orderId},
                     RemoveId(l, o.orderId))
    ensures Queued(ladder.Reduce(o.price, o.remaining).PopFront(o.price)) <= Queued(ladder)
  {
    var reduced := ladder.Reduce(o.price, o.remaining);
    CancelOwnSide(ladder, orders, l, o);
    ReduceQueuesNone(ladder, o.price, o.remaining);
    PopFrontQueuesNone(reduced, o.price);
    if o.price in reduced.levels {
      PruneFront(reduced, orders - {o.orderId}, RemoveId(l, o.orderId), o.price);
    }
  }

  /** The best price of the ladder is the price of the first order in the list. */
  lemma BestPriceIsHead(ladder: Ladder, orders: Index, l: seq<RestingOrder>)
    requires Sorted(ladder.side, l) && forall p: u64 :: PriceIs(ladder, orders, l, p)
    ensures ladder.BestPrice() == if l == [] then None else Some(l[0].price)
  {
    if l == [] {
      forall p: u64 ensures p !in ladder.levels { assert PriceIs(ladder, orders, l, p); }
      assert ladder.levels.Keys == {};
    } else {
      BestLevelIsHead(l);
      assert PriceIs(ladder, orders, l, l[0].price);
      var p := ladder.BestPrice().value;
      assert PriceIs(ladder, orders, l, p);
      AtPriceMembers(l, p);
      var x := AtPrice(l, p)[0];
      assert x in AtPrice(l, p);
      var i :| 0 <= i < |l| && l[i] == x;
      assert i == 0 || AtLeastAsGood(ladder.side, l[0].price, l[i].price);
    }
  }

  // ------------------------------------------------------------------ both sides at once

  /** The two ladders and the index, as one value. */
  datatype Shape = Shape(bids: Ladder, asks: Ladder, orders: Index) {
    function Of(side: Side): Ladder { if side == Buy then bids else asks }

    function With(ladder: Ladder): Shape {
      if ladder.side == Buy then this.(bids := ladder) else this.(asks := ladder)
    }

    /** Ids in any queue. One that is not in `orders` is a tombstone. */
    ghost function QueuedIds(): set<OrderId> { Queued(bids) + Queued(asks) }
  }

  const EMPTY_SHAPE := Shape(Ladder(Buy, map[]), Ladder(Sell, map[]), map[])

  /** `rest`: the id goes to the back of its level's queue and the order into the index. */
  function Rested(s: Shape, o: RestingOrder): Shape {
    s.With(s.Of(o.side).PushBack(o.price, o.orderId, o.remaining)).(orders := s.orders[o.orderId := o])
  }

  /** `remove`: the order leaves the index and its level's total; its id stays queued, a
      tombstone, unless the level goes with it. */
  function Removed(s: Shape, o: RestingOrder): Shape {
    s.With(s.Of(o.side).Reduce(o.price, o.remaining)).(orders := s.orders - {o.orderId})
  }

  /** The ladders and the index stand for the two lists of `b`. */
  ghost predicate Is(s: Shape, b: Book) {
    && s.bids.side == Buy && s.asks.side == Sell
    && IndexOk(s.orders)
    && LadderIs(s.bids, s.orders, b.bids)
    && LadderIs(s.asks, s.orders, b.asks)
  }

  /** Every indexed order is in its side's list. */
  lemma IndexedIsListed(s: Shape, b: Book, o: RestingOrder)
    requires Is(s, b) && Indexed(s.orders, o)
    ensures o in b.Of(o.side)
  {
  }

  lemma {:induction false} RestIs(s: Shape, b: Book, o: RestingOrder)
    requires Is(s, b)
    requires o.remaining > 0 && o.orderId !in s.orders && o.orderId !in s.QueuedIds()
    ensures Is(Rested(s, o), b.Rest(o))
  {
    hide LadderIs;
    RestOwnSide(s.Of(o.side), s.orders, b.Of(o.side), o);
    RestOtherSide(s.Of(o.side.Opposite()), s.orders, b.Of(o.side.Opposite()), o);
  }

  lemma {:induction false} CancelIs(s: Shape, b: Book, o: RestingOrder)
    requires Is(s, b) && Indexed(s.orders, o)
    ensures var s' := Removed(s, o);
            Is(s', b.Remove(o)) && s'.QueuedIds() <= s.QueuedIds()
  {
    IndexedIsListed(s, b, o);
    hide LadderIs, Queued;
    CancelOwnSide(s.Of(o.side), s.orders, b.Of(o.side), o);
    CancelOtherSide(s.Of(o.side.Opposite()), s.orders, b.Of(o.side.Opposite()), o);
    ReduceQueuesNone(s.Of(o.side), o.price, o.remaining);
  }

  ghost predicate AtFront(s: Shape, o: RestingOrder) {
    && Indexed(s.orders, o)
    && o.price in s.Of(o.side).levels
    && s.Of(o.side).levels[o.price].queue != []
    && s.Of(o.side).levels[o.price].queue[0] == o.orderId
  }

  lemma {:induction false} ExhaustIs(s: Shape, b: Book, o: RestingOrder)
    requires Is(s, b) && AtFront(s, o)
    ensures var s' := s.With(s.Of(o.side).Reduce(o.price, o.remaining).PopFront(o.price))
                       .(orders := s.orders - {o.orderId});
            Is(s', b.Consume(o, o.remaining)) && s'.QueuedIds() <= s.QueuedIds()
  {
    IndexedIsListed(s, b, o);
    hide LadderIs, Queued;
    ExhaustOwnSide(s.Of(o.side), s.orders, b.Of(o.side), o);
    CancelOtherSide(s.Of(o.side.Opposite()), s.orders, b.Of(o.side.Opposite()), o);
  }

  lemma {:induction false} ShrinkIs(s: Shape, b: Book, o: RestingOrder, qty: u64)
    requires Is(s, b) && Indexed(s.orders, o) && qty < o.remaining
    ensures var s' := s.With(s.Of(o.side).Reduce(o.price, qty))
                       .(orders := s.orders[o.orderId := o.(remaining := o.remaining - qty)]);
            Is(s', b.Consume(o, qty)) && s'.QueuedIds() <= s.QueuedIds()
  {
    IndexedIsListed(s, b, o);
    hide LadderIs, Queued;
    ShrinkOwnSide(s.Of(o.side), s.orders, b.Of(o.side), o, qty);
    ShrinkOtherSide(s.Of(o.side.Opposite()), s.orders, b.Of(o.side.Opposite()), o, qty);
    ReduceQueuesNone(s.Of(o.side), o.price, qty);
  }

  lemma {:induction false} PruneIs(s: Shape, b: Book, side: Side, p: u64)
    requires Is(s, b)
    requires p in s.Of(side).levels && s.Of(side).levels[p].queue != []
    requires s.Of(side).levels[p].queue[0] !in s.orders
    ensures Is(s.With(s.Of(side).PopFront(p)), b)
    ensures s.With(s.Of(side).PopFront(p)).QueuedIds() <= s.QueuedIds()
  {
    hide LadderIs, Queued;
    PruneFront(s.Of(side), s.orders, b.Of(side), p);
    PopFrontQueuesNone(s.Of(side), p);
  }

  /** A live id at the head of a queue is the first order at that price. */
  lemma {:induction false} FrontIs(s: Shape, b: Book, side: Side, p: u64)
    requires Is(s, b)
    ensures p !in s.Of(side).levels ==> AtPrice(b.Of(side), p) == []
    ensures p in s.Of(side).levels ==> s.Of(side).levels[p].queue != [] && AtPrice(b.Of(side), p) != []
    ensures p in s.Of(side).levels && s.Of(side).levels[p].queue[0] in s.orders ==>
              var o := s.orders[s.Of(side).levels[p].queue[0]];
              AtPrice(b.Of(side), p)[0] == o && o.side == side && o.price == p && AtFront(s, o)
  {
    assert PriceIs(s.Of(side), s.orders, b.Of(side), p);
    AtPriceMembers(b.Of(side), p);
    if p in s.Of(side).levels && s.Of(side).levels[p].queue[0] in s.orders {
      assert s.orders[s.Of(side).levels[p].queue[0]] in AtPrice(b.Of(side), p);
    }
  }

  lemma ListFacts(s: Shape, b: Book, side: Side)
    requires Is(s, b)
    ensures DistinctIds(b.Of(side))
    ensures forall o :: o in b.Of(side) ==> o.side == side && o.remaining > 0 && Indexed(s.orders, o)
  {
  }

  lemma {:induction false} BestIs(s: Shape, b: Book, side: Side)
    requires Is(s, b)
    ensures s.Of(side).BestPrice() == b.Best(side)
  {
    BestPriceIsHead(s.Of(side), s.orders, b.Of(side));
  }

  // ------------------------------------------------------------------ walking a ladder from the best price

  /** The levels of `ladder`, taken best first, spell out `l`. Unlike `LadderIs` this survives
      taking levels away. */
  ghost predicate Spells(ladder: Ladder, orders: Index, l: seq<RestingOrder>) {
    Sorted(ladder.side, l) && forall p: u64 :: PriceIs(ladder, orders, l, p)
  }

  lemma {:induction false} SplitBest(side: Side, l: seq<RestingOrder>, p: u64)
    requires Sorted(side, l) && forall o :: o in l ==> AtLeastAsGood(side, p, o.price)
    ensures var k := |AtPrice(l, p)|; k <= |l| && l[..k] == AtPrice(l, p)
    ensures AtPrice(l[|AtPrice(l, p)|..], p) == []
    ensures forall q: u64 :: q != p ==> AtPrice(l[|AtPrice(l, p)|..], q) == AtPrice(l, q)
  {
    if l == [] {
    } else {
      if l[0].price == p {
        SplitBest(side, l[1..], p);
        var k := |AtPrice(l[1..], p)|;
        assert l[1..][k..] == l[k + 1..];
        assert l[..k + 1] == [l[0]] + l[1..][..k];
      } else {
        assert l[0] in l;
        NothingAtWorsePrice(side, l, p);
        assert l[0..] == l;
      }
    }
  }

  /** The best level is the head of the list, and the rest of the ladder spells the rest. */
  lemma PeelBest(ladder: Ladder, orders: Index, l: seq<RestingOrder>)
    requires Spells(ladder, orders, l) && l != []
    ensures var p := l[0].price; var k := |AtPrice(l, p)|;
      && ladder.BestPrice() == Some(p)
      && 0 < k <= |l| && l[..k] == AtPrice(l, p) && LevelIs(ladder.levels[p], orders, l[..k])
      && Spells(ladder.(levels := ladder.levels - {p}), orders, l[k..])
  {
    var p := l[0].price;
    BestPriceIsHead(ladder, orders, l);
    assert PriceIs(ladder, orders, l, p);
    assert forall o :: o in l ==> AtLeastAsGood(ladder.side, p, o.price) by {
      forall o | o in l ensures AtLeastAsGood(ladder.side, p, o.price) {
        var i :| 0 <= i < |l| && l[i] == o;
      }
    }
    SplitBest(ladder.side, l, p);
    var k := |AtPrice(l, p)|;
    var rest := ladder.(levels := ladder.levels - {p});
    forall q: u64 ensures PriceIs(rest, orders, l[k..], q) {
      assert PriceIs(ladder, orders, l, q);
    }
  }

  lemma EmptyLadder(ladder: Ladder, orders: Index, l: seq<RestingOrder>)
    requires Spells(ladder, orders, l)
    ensures ladder.levels.Keys == {} <==> l == []
  {
    BestPriceIsHead(ladder, orders, l);
  }

  // ------------------------------------------------------------------ the incremental bookkeeping, recomputed

  predicate ArrivalOrder(l: seq<RestingOrder>) {
    forall i :: 0 < i < |l| ==> l[i - 1].restedAtSeq <= l[i].restedAtSeq
  }

  /** One level checks out: its live ids belong there, its total is what they add up to, it is not
      dead, and it is in arrival order. */
  predicate SoundLevel(side: Side, p: u64, level: Level, orders: Index) {
    var live := LiveOf(level.queue, orders);
    && (forall id :: id in level.queue && id in orders ==> orders[id].price == p && orders[id].side == side)
    && Total(live) == level.totalQty && level.totalQty != 0
    && ArrivalOrder(live)
  }

  /** Live entries over all levels, however many tombstones lie between them. */
  function LiveCount(ladder: Ladder, orders: Index): nat
    decreases |ladder.levels|
  {
    if ladder.BestPrice().None? then 0
    else
      var p := ladder.BestPrice().value;
      |LiveOf(ladder.levels[p].queue, orders)| + LiveCount(ladder.(levels := ladder.levels - {p}), orders)
  }

  /** What `invariants_hold` recomputes: every level is sound, the book is not crossed, and every
      indexed order is live in exactly one place. */
  predicate Sound(s: Shape) {
    && (forall p :: p in s.bids.levels ==> SoundLevel(Buy, p, s.bids.levels[p], s.orders))
    && (forall p :: p in s.asks.levels ==> SoundLevel(Sell, p, s.asks.levels[p], s.orders))
    && (s.bids.BestPrice().Some? && s.asks.BestPrice().Some?
        ==> s.bids.BestPrice().value < s.asks.BestPrice().value)
    && |s.orders| == LiveCount(s.bids, s.orders) + LiveCount(s.asks, s.orders)
  }

  lemma {:induction false} LiveCountIs(ladder: Ladder, orders: Index, l: seq<RestingOrder>)
    requires Spells(ladder, orders, l)
    ensures LiveCount(ladder, orders) == |l|
    decreases |l|
  {
    EmptyLadder(ladder, orders, l);
    if l == [] {
    } else {
      PeelBest(ladder, orders, l);
      var p := l[0].price;
      var k := |AtPrice(l, p)|;
      LiveCountIs(ladder.(levels := ladder.levels - {p}), orders, l[k..]);
    }
  }

  lemma {:induction false} DistinctCount(l: seq<RestingOrder>)
    requires DistinctIds(l)
    ensures |set o | o in l :: o.orderId| == |l|
  {
    if l == [] {
    } else {
      DistinctCount(l[1..]);
      var tail := set o | o in l[1..] :: o.orderId;
      assert l[0].orderId !in tail;
      assert (set o | o in l :: o.orderId) == {l[0].orderId} + tail by {
        assert forall o :: o in l <==> o == l[0] || o in l[1..];
      }
    }
  }

  lemma IndexCount(s: Shape, b: Book)
    requires Is(s, b)
    ensures |s.orders| == |b.bids| + |b.asks|
  {
    var bidIds := set o | o in b.bids :: o.orderId;
    var askIds := set o | o in b.asks :: o.orderId;
    DistinctCount(b.bids);
    DistinctCount(b.asks);
    forall id | id in s.orders ensures id in bidIds + askIds {
      assert Indexed(s.orders, s.orders[id]);
      assert s.orders[id] in b.bids || s.orders[id] in b.asks;
    }
    assert s.orders.Keys == bidIds + askIds;
    assert bidIds !! askIds by {
      forall x, y | x in b.bids && y in b.asks ensures x.orderId != y.orderId {
        assert Indexed(s.orders, x) && Indexed(s.orders, y);
      }
    }
  }

  lemma {:induction false} LiveOfMembers(queue: seq<OrderId>, orders: Index)
    ensures forall id :: id in queue && id in orders ==> orders[id] in LiveOf(queue, orders)
  {
    if queue == [] {
    } else {
      LiveOfMembers(queue[1..], orders);
    }
  }

  lemma {:induction false} ArrivalAtPrice(l: seq<RestingOrder>, p: u64)
    requires Arrivals(l)
    ensures ArrivalOrder(AtPrice(l, p))
  {
    if l == [] {
    } else {
      ArrivalAtPrice(l[1..], p);
      var r := AtPrice(l[1..], p);
      AtPriceMembers(l[1..], p);
      if l[0].price == p && r != [] {
        assert r[0] in l[1..];
        var j :| 0 <= j < |l[1..]| && l[1..][j] == r[0];
        assert l[j + 1] == r[0];
      }
    }
  }

  lemma SideIsSound(side: Side, ladder: Ladder, orders: Index, l: seq<RestingOrder>, now: nat)
    requires ladder.side == side && LadderIs(ladder, orders, l) && IndexOk(orders) && SideInv(side, l, now)
    ensures forall p :: p in ladder.levels ==> SoundLevel(side, p, ladder.levels[p], orders)
  {
    forall p | p in ladder.levels ensures SoundLevel(side, p, ladder.levels[p], orders) {
      assert PriceIs(ladder, orders, l, p);
      AtPriceMembers(l, p);
      LiveOfMembers(ladder.levels[p].queue, orders);
      ArrivalAtPrice(l, p);
      TotalZero(AtPrice(l, p));
    }
  }

  /** A book that stands for ordered, uncrossed lists passes every check the engine makes of itself. */
  lemma {:induction false} IsSound(s: Shape, b: Book, now: nat)
    requires Is(s, b) && BookInv(b, now)
    ensures Sound(s)
  {
    SideIsSound(Buy, s.bids, s.orders, b.bids, now);
    SideIsSound(Sell, s.asks, s.orders, b.asks, now);
    BestIs(s, b, Buy);
    BestIs(s, b, Sell);
    LiveCountIs(s.bids, s.orders, b.bids);
    LiveCountIs(s.asks, s.orders, b.asks);
    IndexCount(s, b);
  }

  /** Reviving a tombstone counts the order once more than it was pushed. */
  lemma {:induction false} RevivedCounts(queue: seq<OrderId>, orders: Index, o: RestingOrder)
    requires o.orderId !in orders
    ensures Total(LiveOf(queue, orders[o.orderId := o]))
         >= Total(LiveOf(queue, orders)) + (if o.orderId in queue then o.remaining else 0)
  {
    if queue == [] {
    } else {
      RevivedCounts(queue[1..], orders, o);
      var orders' := orders[o.orderId := o];
      if queue[0] in orders' {
        assert ([orders'[queue[0]]] + LiveOf(queue[1..], orders'))[1..] == LiveOf(queue[1..], orders');
      }
      if queue[0] in orders {
        assert ([orders[queue[0]]] + LiveOf(queue[1..], orders))[1..] == LiveOf(queue[1..], orders);
      }
    }
  }

  /** Pushed again onto a queue that still holds its tombstone, an order is counted twice. */
  lemma RevivedLevelIsUnsound(p: u64, level: Level, orders: Index, o: RestingOrder)
    requires SoundLevel(o.side, p, level, orders)
    requires o.remaining > 0 && o.orderId !in orders && o.orderId in level.queue
    ensures !SoundLevel(o.side, p, Level(level.queue + [o.orderId], level.totalQty + o.remaining),
                        orders[o.orderId := o])
  {
    var orders' := orders[o.orderId := o];
    RevivedCounts(level.queue, orders, o);
    LiveOfAppend(level.queue, [o.orderId], orders');
    assert LiveOf([o.orderId], orders') == [o] && Total([o]) == o.remaining;
    TotalAppend(LiveOf(level.queue, orders'), [o]);
  }

  /** Resting under an id that is still queued as a tombstone always breaks the book. */
  lemma {:induction false} ReusedIdIsUnsound(s: Shape, o: RestingOrder)
    requires s.bids.side == Buy && s.asks.side == Sell && Sound(s)
    requires o.remaining > 0 && o.orderId !in s.orders && o.orderId in s.QueuedIds()
    ensures !Sound(Rested(s, o))
  {
    hide LiveOf, Total, LiveCount;
    var s' := Rested(s, o);
    var side := if o.orderId in Queued(s.bids) then Buy else Sell;
    var p :| p in s.Of(side).levels && o.orderId in s.Of(side).levels[p].queue;
    var level := s.Of(side).levels[p];
    assert SoundLevel(side, p, level, s.orders);
    if side == o.side && p == o.price {
      RevivedLevelIsUnsound(p, level, s.orders, o);
      assert s'.Of(side).levels[p] == Level(level.queue + [o.orderId], level.totalQty + o.remaining);
    } else {
      assert o.orderId in s'.Of(side).levels[p].queue && s'.orders[o.orderId] == o;
    }
    UnsoundLevel(s', side, p);
  }

  lemma UnsoundLevel(s: Shape, side: Side, p: u64)
    requires p in s.Of(side).levels && !SoundLevel(side, p, s.Of(side).levels[p], s.orders)
    ensures !Sound(s)
  {
  }

  /** The fresh-id hypothesis is exact: resting a non-crossing order that is newest at its price
      keeps the book's invariants if and only if its id is in no queue, live or dead. */
  lemma {:induction false} RestKeepsInvariantsExactly(s: Shape, b: Book, o: RestingOrder, now: nat)
    requires Is(s, b) && BookInv(b, now) && o.orderId !in s.orders && o.remaining > 0
    requires BookInv(b.Rest(o), o.restedAtSeq)
    ensures Sound(Rested(s, o)) <==> o.orderId !in s.QueuedIds()
  {
    IsSound(s, b, now);
    if o.orderId in s.QueuedIds() {
      ReusedIdIsUnsound(s, o);
    } else {
      RestIs(s, b, o);
      IsSound(Rested(s, o), b.Rest(o), o.restedAtSeq);
    }
  }

  // ------------------------------------------------------------------ the book itself

  class OrderBook {
    var bids: Ladder
    var asks: Ladder
    var orders: Index
    var lastTradePrice: Option<u64>
    var touched: set<LevelKey>

    /** The price-time lists this book stands for. */
    ghost var view: Book

    function State(): Shape
      reads this
    {
      Shape(bids, asks, orders)
    }

    ghost predicate Valid()
      reads this
    {
      Is(State(), view) && lastTradePrice == view.lastTrade && touched == view.touched
    }

    constructor ()
      ensures Valid() && view == EMPTY_BOOK
      ensures State() == EMPTY_SHAPE && State().QueuedIds() == {}
    {
      bids, asks := Ladder(Buy, map[]), Ladder(Sell, map[]);
      orders, lastTradePrice, touched := map[], None, {};
      view := EMPTY_BOOK;
    }

    /** A copy of a snapshotted book. The touched record is never serialised. */
    constructor FromSnapshot(s: Shape, lastTrade: Option<u64>, ghost b: Book)
      requires Is(s, b) && b.lastTrade == lastTrade
      ensures Valid() && State() == s && view == b.(touched := {})
    {
      bids, asks, orders := s.bids, s.asks, s.orders;
      lastTradePrice, touched := lastTrade, {};
      view := b.(touched := {});
      new;
      hide LadderIs;
    }

    function LadderFor(side: Side): Ladder
      reads this
    {
      if side == Buy then bids else asks
    }

    method SetLadder(ladder: Ladder)
      modifies this`bids, this`asks
      ensures State() == old(State()).With(ladder)
    {
      if ladder.side == Buy { bids := ladder; } else { asks := ladder; }
    }

    method SetLastTradePrice(price: u64)
      requires Valid()
      modifies this`lastTradePrice, this`view
      ensures Valid() && view == old(view).(lastTrade := Some(price))
    {
      hide LadderIs;
      lastTradePrice := Some(price);
      view := view.(lastTrade := Some(price));
    }

    /** Rest an order at the back of its level. */
    method Rest(o: RestingOrder)
      requires Valid()
      requires o.remaining > 0 && o.orderId !in orders && o.orderId !in State().QueuedIds()
      modifies this
      ensures Valid() && view == old(view).Rest(o) && State() == Rested(old(State()), o)
      ensures State().QueuedIds() == old(State().QueuedIds()) + {o.orderId}
    {
      PushBackQueues(LadderFor(o.side), o.price, o.orderId, o.remaining);
      RestIs(State(), view, o);
      hide LadderIs, Queued;
      SetLadder(LadderFor(o.side).PushBack(o.price, o.orderId, o.remaining));
      orders := orders[o.orderId := o];
      touched := touched + {LevelKey(o.side, o.price)};
      view := view.Rest(o);
    }

    /** The front LIVE order at a price, pruning the tombstones ahead of it. */
    method FrontLive(side: Side, price: u64) returns (r: Option<RestingOrder>)
      requires Valid()
      modifies this`bids, this`asks
      ensures Valid()
      ensures r == var here := AtPrice(view.Of(side), price); if here == [] then None else Some(here[0])
      ensures r.Some? ==> AtFront(State(), r.value) && r.value.side == side && r.value.price == price
      ensures State().QueuedIds() <= old(State().QueuedIds())
    {
      hide LadderIs, Queued, AtPrice;
      while price in LadderFor(side).levels && LadderFor(side).levels[price].queue != []
        invariant Valid()
        invariant State().QueuedIds() <= old(State().QueuedIds())
        decreases if price in LadderFor(side).levels then |LadderFor(side).levels[price].queue| else 0
      {
        FrontIs(State(), view, side, price);
        var front := LadderFor(side).levels[price].queue[0];
        if front in orders { return Some(orders[front]); }
        PruneIs(State(), view, side, price);
        SetLadder(LadderFor(side).PopFront(price));
      }
      FrontIs(State(), view, side, price);
      r := None;
    }

    /** Consume `qty` from the front order at `price`; returns that order as it stood before. */
    method ConsumeFront(side: Side, price: u64, qty: u64) returns (before: Option<RestingOrder>)
      requires Valid()
      requires var here := AtPrice(view.Of(side), price); here != [] ==> qty <= here[0].remaining
      modifies this
      ensures Valid()
      ensures before == var here := AtPrice(old(view).Of(side), price); if here == [] then None else Some(here[0])
      ensures view == if before.None? then old(view) else old(view).Consume(before.value, qty)
      ensures orders.Keys <= old(orders).Keys
      ensures State().QueuedIds() <= old(State().QueuedIds())
    {
      hide LadderIs, Queued, AtPrice, Consume;
      before := FrontLive(side, price);
      if before.None? { return; }
      var o := before.value;
      var remaining := SaturatingSub(o.remaining, qty);
      if remaining == 0 {
        ExhaustIs(State(), view, o);
        SetLadder(LadderFor(side).Reduce(price, qty).PopFront(price));
        orders := orders - {o.orderId};
      } else {
        ShrinkIs(State(), view, o, qty);
        SetLadder(LadderFor(side).Reduce(price, qty));
        orders := orders[o.orderId := o.(remaining := remaining)];
      }
      touched := touched + {LevelKey(side, price)};
      view := view.Consume(o, qty);
    }

    /** Remove a resting order wherever it sits, leaving its id behind as a tombstone. */
    method Remove(id: OrderId) returns (r: Option<RestingOrder>)
      requires Valid()
      modifies this
      ensures Valid()
      ensures r == if id in old(orders) then Some(old(orders)[id]) else None
      ensures orders == old(orders) - {id}
      ensures view == if r.None? then old(view) else old(view).Remove(r.value)
      ensures State() == if r.None? then old(State()) else Removed(old(State()), r.value)
      ensures State().QueuedIds() <= old(State().QueuedIds())
    {
      hide LadderIs, Queued;
      if id !in orders { return None; }
      var o := orders[id];
      CancelIs(State(), view, o);
      SetLadder(LadderFor(o.side).Reduce(o.price, o.remaining));
      orders := orders - {id};
      touched := touched + {LevelKey(o.side, o.price)};
      view := view.Remove(o);
      r := Some(o);
    }

    /** Every touched level with its quantity NOW, read from the ladders. Clears the record. */
    method TakeLevelChanges() returns (changes: map<LevelKey, nat>)
      requires Valid()
      modifies this`touched, this`view
      ensures Valid() && view == old(view).(touched := {})
      ensures changes == map k | k in old(view).touched :: old(view).Depth(k)
    {
      forall k: LevelKey
        ensures old(view).Depth(k) == var levels := LadderFor(k.side).levels;
                                      if k.price in levels then levels[k.price].totalQty else 0
      {
        assert PriceIs(State().Of(k.side), orders, view.Of(k.side), k.price);
      }
      changes := map k | k in touched :: var levels := LadderFor(k.side).levels;
                                         if k.price in levels then levels[k.price].totalQty else 0;
      touched := {};
      view := view.(touched := {});
    }
  }
}
