/** A run of the book that reaches the shape in which re-using an id breaks it. Ids come from the
    gateway; nothing in the book or the engine refuses one that was cancelled earlier. */
module ReusedIds {
  import opened MatchingTypes
  import opened PriceTimeList
  import opened ReferenceBook
  import opened MatchingInvariants
  import opened OrderBook

  /** The shape after resting `a`, resting `b` behind it, and cancelling `a`. */
  function Orphaned(a: RestingOrder, b: RestingOrder): Shape {
    Removed(Rested(Rested(EMPTY_SHAPE, a), b), a)
  }

  /** Both orders pushed onto an empty ladder, then the first one's quantity taken off its level. */
  lemma LadderRemains(side: Side, p: u64, a: OrderId, qa: u64, b: OrderId, qb: u64)
    requires qb > 0
    ensures Ladder(side, map[]).PushBack(p, a, qa).side == side
    ensures Ladder(side, map[]).PushBack(p, a, qa).PushBack(p, b, qb).side == side
    ensures Ladder(side, map[]).PushBack(p, a, qa).PushBack(p, b, qb).Reduce(p, qa)
         == Ladder(side, map[p := Level([a, b], qb)])
  {
    var l1 := Ladder(side, map[]).PushBack(p, a, qa);
    assert [] + [a] == [a];
    assert l1 == Ladder(side, map[p := Level([a], qa)]);
    assert [a] + [b] == [a, b];
    assert l1.PushBack(p, b, qb) == Ladder(side, map[p := Level([a, b], qa + qb)]);
    assert SaturatingSub(qa + qb, qa) == qb;
  }

  lemma InQueue(ladder: Ladder, p: u64, id: OrderId)
    requires p in ladder.levels && id in ladder.levels[p].queue
    ensures id in Queued(ladder)
  {
  }

  /** `b` keeps the level alive, so the cancelled id stays queued in front of it. */
  lemma {:induction false} TombstoneRemains(a: RestingOrder, b: RestingOrder)
    requires a.orderId != b.orderId && a.side == b.side && a.price == b.price && b.remaining > 0
    ensures Orphaned(a, b).Of(a.side) == Ladder(a.side, map[a.price := Level([a.orderId, b.orderId], b.remaining)])
    ensures Orphaned(a, b).orders == map[b.orderId := b]
    ensures a.orderId in Orphaned(a, b).QueuedIds()
  {
    hide Queued, Ladder.PushBack, Ladder.Reduce;
    LadderRemains(a.side, a.price, a.orderId, a.remaining, b.orderId, b.remaining);
    InQueue(Orphaned(a, b).Of(a.side), a.price, a.orderId);
  }

  lemma RemovedLeavesSecond(a: RestingOrder, b: RestingOrder)
    requires a.orderId != b.orderId && a.side == b.side && a.price == b.price
    ensures EMPTY_BOOK.Rest(a).Rest(b).Remove(a).Of(a.side) == [b]
  {
    var l := EMPTY_BOOK.Rest(a);
    assert l.Of(a.side) == [a];
    assert [a] + [b] == [a, b] && [a, b][1..] == [b] && [a][1..] == [];
    assert Insert(b.side, [], b) == [b];
    assert Insert(b.side, [a], b) == [a, b];
    assert RemoveId([b], a.orderId) == [b];
  }

  /** Two orders on one side of an empty book leave it in order, and so does cancelling the first. */
  lemma ListsStayInOrder(a: RestingOrder, b: RestingOrder)
    requires a.orderId != b.orderId && a.side == b.side && a.price == b.price
    requires a.remaining > 0 && b.remaining > 0 && a.restedAtSeq <= b.restedAtSeq
    ensures BookInv(EMPTY_BOOK.Rest(a).Rest(b).Remove(a), b.restedAtSeq)
  {
    RestKeepsBook(EMPTY_BOOK, a, 0);
    var l := EMPTY_BOOK.Rest(a);
    RestKeepsBook(l, b, a.restedAtSeq);
    InsertMembers(b.side, l.Of(b.side), b);
    RemoveKeepsBook(l.Rest(b), a, b.restedAtSeq);
  }

  lemma ReuseBreaks(s: Shape, view: Book, a: RestingOrder, b: RestingOrder)
    requires a.orderId != b.orderId && a.side == b.side && a.price == b.price
    requires a.remaining > 0 && b.remaining > 0 && a.restedAtSeq <= b.restedAtSeq
    requires s == Orphaned(a, b) && Is(s, view)
    requires view == EMPTY_BOOK.Rest(a).Rest(b).Remove(a)
    ensures Sound(s)
    ensures forall o: RestingOrder :: o.orderId == a.orderId && o.remaining > 0 ==> !Sound(Rested(s, o))
  {
    hide LadderIs, Sound, Queued, SideInv, Insert, Ladder.PushBack, Ladder.Reduce;
    TombstoneRemains(a, b);
    ListsStayInOrder(a, b);
    IsSound(s, view, b.restedAtSeq);
    forall o: RestingOrder | o.orderId == a.orderId && o.remaining > 0
      ensures !Sound(Rested(s, o))
    {
      ReusedIdIsUnsound(s, o);
    }
  }

  /** Place `a`, place `b` at its price, cancel `a`: the book is sound, `a` is gone from the index
      and from the price-time lists, and placing any order under `a`'s id breaks the book. */
  method ReuseAfterCancel(a: RestingOrder, b: RestingOrder) returns (book: OrderBook)
    requires a.orderId != b.orderId && a.side == b.side && a.price == b.price
    requires a.remaining > 0 && b.remaining > 0 && a.restedAtSeq <= b.restedAtSeq
    ensures book.Valid() && Sound(book.State())
    ensures a.orderId !in book.orders && book.view.Of(a.side) == [b]
    ensures forall o: RestingOrder :: o.orderId == a.orderId && o.remaining > 0 ==> !Sound(Rested(book.State(), o))
  {
    hide Is, Sound, Queued, BookInv, Insert, Ladder.PushBack, Ladder.Reduce;
    book := new OrderBook();
    book.Rest(a);
    book.Rest(b);
    assert book.orders[a.orderId] == a;
    var _ := book.Remove(a.orderId);
    RemovedLeavesSecond(a, b);
    ReuseBreaks(book.State(), book.view, a, b);
  }
}
