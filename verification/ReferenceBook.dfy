/** The reference book: two price-time lists, the last trade and the levels touched since asked. */
module ReferenceBook {
  import opened MatchingTypes
  import opened PriceTimeList

  datatype Book = Book(
    bids: seq<RestingOrder>, asks: seq<RestingOrder>, lastTrade: Option<u64>, touched: set<LevelKey>)
  {
    function Of(side: Side): seq<RestingOrder> { if side == Buy then bids else asks }

    function With(side: Side, l: seq<RestingOrder>): Book {
      if side == Buy then this.(bids := l) else this.(asks := l)
    }

    function Touch(side: Side, price: u64): Book {
      this.(touched := touched + {LevelKey(side, price)})
    }

    function Best(side: Side): Option<u64> {
      if Of(side) == [] then None else Some(Of(side)[0].price)
    }

    predicate Contains(id: OrderId) { HasId(bids, id) || HasId(asks, id) }

    function Rest(o: RestingOrder): Book {
      With(o.side, Insert(o.side, Of(o.side), o)).Touch(o.side, o.price)
    }

    function Remove(o: RestingOrder): Book {
      With(o.side, RemoveId(Of(o.side), o.orderId)).Touch(o.side, o.price)
    }

    /** Take `qty` from one resting order. */
    function Consume(o: RestingOrder, qty: u64): Book {
      With(o.side, PriceTimeList.Consume(Of(o.side), o, qty)).Touch(o.side, o.price)
    }

    /** The quantity resting at a level: what a depth snapshot reports. */
    function Depth(k: LevelKey): nat { Total(AtPrice(Of(k.side), k.price)) }
  }

  const EMPTY_BOOK := Book([], [], None, {})

  /** One side is in order: price sorted, each id once, nothing exhausted, arrival order within a
      price, and nothing that arrived after `now`. */
  ghost predicate SideInv(side: Side, l: seq<RestingOrder>, now: nat) {
    && Sorted(side, l)
    && DistinctIds(l)
    && (forall o :: o in l ==> o.side == side && o.remaining > 0 && o.restedAtSeq <= now)
    && Arrivals(l)
  }

  /** Within a price, earlier in the list means earlier to arrive. */
  ghost predicate Arrivals(l: seq<RestingOrder>) {
    forall i, j :: 0 <= i < j < |l| && l[i].price == l[j].price ==> l[i].restedAtSeq <= l[j].restedAtSeq
  }

  ghost predicate Uncrossed(b: Book) {
    forall x, y :: x in b.bids && y in b.asks ==> x.price < y.price
  }

  ghost predicate DisjointIds(b: Book) {
    forall x, y :: x in b.bids && y in b.asks ==> x.orderId != y.orderId
  }

  /** What holds of the book between any two commands. */
  ghost predicate BookInv(b: Book, now: nat) {
    && SideInv(Buy, b.bids, now)
    && SideInv(Sell, b.asks, now)
    && DisjointIds(b)
    && Uncrossed(b)
  }
}
