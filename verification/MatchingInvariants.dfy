/** Priority, limits and the book's invariants: what every command keeps. */
module MatchingInvariants {
  import opened MatchingTypes
  import opened PriceTimeList
  import opened ReferenceBook
  import opened ReferenceMatcher

  // ------------------------------------------------------------------ priority

  /** The first `k` orders of `l` are gone, the next may have shrunk, and nothing behind it moved. */
  ghost predicate TakenInPriority(l: seq<RestingOrder>, l': seq<RestingOrder>, k: nat) {
    && k <= |l| && |l'| == |l| - k
    && (l' == l[k..] || (l' != [] && l'[1..] == l[k..][1..] && Shrunk(l[k], l'[0])))
  }

  ghost predicate Shrunk(before: RestingOrder, after: RestingOrder) {
    after == before.(remaining := after.remaining) && 0 < after.remaining < before.remaining
  }

  /** Makers are taken strictly from the front, and one is left part-filled only by a taker that
      has nothing left to take. The taker's own side is never touched. */
  lemma {:induction false} MatchTakesInPriority(t: Taker, m: Matching) returns (k: nat)
    ensures var r := Match(t, m);
      && TakenInPriority(Makers(t, m), Makers(t, r), k)
      && (Makers(t, r) != Makers(t, m)[k..] ==> r.remaining == 0)
      && r.book.Of(t.side) == m.book.Of(t.side)
    decreases !m.stopped, |Makers(t, m)|, m.remaining
  {
    if Done(t, m) {
      k := 0;
      assert Makers(t, m)[0..] == Makers(t, m);
    } else {
      var l, m' := Makers(t, m), Step(t, m);
      if Makers(t, m') == l[1..] {
        var k' := MatchTakesInPriority(t, m');
        k := k' + 1;
        assert l[1..][k'..] == l[k..];
      } else if m'.stopped {
        k := 0;
        assert l[0..] == l;
      } else {
        k := 0;
        assert m'.remaining == 0 && Done(t, m');
        assert Shrunk(l[0], Makers(t, m')[0]) && l[0..] == l;
      }
    }
  }

  /** When a taker that is neither stopped nor filled runs out of makers, nothing left crosses it. */
  lemma {:induction false} MatchExhaustsReach(t: Taker, m: Matching)
    ensures Done(t, Match(t, m))
    decreases !m.stopped, |Makers(t, m)|, m.remaining
  {
    if Done(t, m) {
    } else {
      MatchExhaustsReach(t, Step(t, m));
    }
  }

  lemma TakingKeepsSide(side: Side, l: seq<RestingOrder>, l': seq<RestingOrder>, k: nat, now: nat)
    requires SideInv(side, l, now) && TakenInPriority(l, l', k)
    ensures SideInv(side, l', now)
    ensures forall o' :: o' in l' ==> exists o :: o in l && o.orderId == o'.orderId && o.price == o'.price
  {
    forall i | 0 <= i < |l'|
      ensures l'[i] == l[k + i].(remaining := l'[i].remaining) && 0 < l'[i].remaining && l[k + i] in l
    {
      assert l[k + i] in l;
      if l' == l[k..] || i > 0 { assert l'[i] == (if i > 0 then l'[1..][i - 1] else l[k..][0]) == l[k + i]; }
    }
  }

  // ------------------------------------------------------------------ every fill is a legal one

  /** A fill of taker `t`: positive, against another account's order, at that order's own price, no
      more than that order had, and inside the taker's limit. */
  ghost predicate LegalFill(t: Taker, l: seq<RestingOrder>, f: Fill) {
    && f.seqNo == t.seqNo && f.timestampMs == t.timestampMs && f.takerOrderId == t.orderId && f.takerSide == t.side
    && f.qty > 0 && Crosses(t.side, t.limit, f.price)
    && exists o :: o in l && o.orderId == f.makerOrderId && o.accountId != t.accountId
                   && o.price == f.price && f.qty <= o.remaining
  }

  ghost predicate LegalEvents(t: Taker, l: seq<RestingOrder>, events: seq<Event>) {
    forall e :: e in events && e.Filled? ==> LegalFill(t, l, e.fill)
  }

  /** `l` may be any list that accounts for the current makers: used with the list before matching. */
  ghost predicate Covers(l: seq<RestingOrder>, now: seq<RestingOrder>) {
    forall o' :: o' in now ==>
      exists o :: o in l && o == o'.(remaining := o.remaining) && o'.remaining <= o.remaining
  }

  lemma {:induction false} MatchFillsLegally(t: Taker, l: seq<RestingOrder>, m: Matching)
    requires Covers(l, Makers(t, m)) && LegalEvents(t, l, m.events)
    requires forall o :: o in Makers(t, m) ==> o.remaining > 0
    ensures LegalEvents(t, l, Match(t, m).events)
    decreases !m.stopped, |Makers(t, m)|, m.remaining
  {
    if Done(t, m) {
    } else {
      var m' := Step(t, m);
      var maker := Makers(t, m)[0];
      assert maker in Makers(t, m);
      forall o' | o' in Makers(t, m')
        ensures o'.remaining > 0
        ensures exists o :: o in l && o == o'.(remaining := o.remaining) && o'.remaining <= o.remaining
      {
        assert o' in Makers(t, m) || o' == maker.(remaining := o'.remaining);
      }
      MatchFillsLegally(t, l, m');
    }
  }

  // ------------------------------------------------------------------ the book's invariants

  lemma {:induction false} RestKeepsBook(b: Book, o: RestingOrder, now: nat)
    requires BookInv(b, now) && now <= o.restedAtSeq && o.remaining > 0 && !b.Contains(o.orderId)
    requires forall x :: x in b.Of(o.side.Opposite()) ==> !AtLeastAsGood(o.side.Opposite(), x.price, o.price)
    ensures BookInv(b.Rest(o), o.restedAtSeq)
  {
    var l := b.Of(o.side);
    InsertMembers(o.side, l, o);
    InsertSorted(o.side, l, o);
    InsertDistinct(o.side, l, o);
    InsertArrival(o.side, l, o);
  }

  lemma {:induction false} InsertArrival(side: Side, l: seq<RestingOrder>, o: RestingOrder)
    requires Sorted(side, l) && Arrivals(l)
    requires forall x :: x in l ==> x.restedAtSeq <= o.restedAtSeq
    ensures Arrivals(Insert(side, l, o))
  {
    if l == [] {
    } else {
      assert l[0] in l && forall x :: x in l[1..] ==> x in l;
      if AtLeastAsGood(side, l[0].price, o.price) {
        InsertArrival(side, l[1..], o);
        InsertMembers(side, l[1..], o);
        ArrivalsHead(l);
        hide Arrivals, Insert;
        ArrivalsCons(l[0], Insert(side, l[1..], o));
      } else {
        NothingAtWorsePrice(side, l, o.price);
        AtPriceMembers(l, o.price);
        hide Arrivals, Insert;
        ArrivalsCons(o, l);
      }
    }
  }

  lemma ArrivalsHead(l: seq<RestingOrder>)
    requires Arrivals(l) && l != []
    ensures forall x :: x in l[1..] && x.price == l[0].price ==> l[0].restedAtSeq <= x.restedAtSeq
  {
    forall x | x in l[1..] && x.price == l[0].price ensures l[0].restedAtSeq <= x.restedAtSeq {
      var k :| 0 <= k < |l[1..]| && l[1..][k] == x;
      assert l[k + 1] == x;
    }
  }

  lemma ArrivalsCons(o: RestingOrder, l: seq<RestingOrder>)
    requires Arrivals(l)
    requires forall x :: x in l && x.price == o.price ==> o.restedAtSeq <= x.restedAtSeq
    ensures Arrivals([o] + l)
  {
    assert forall j :: 0 <= j < |l| ==> l[j] in l;
    assert forall i :: 0 < i < |[o] + l| ==> ([o] + l)[i] == l[i - 1];
  }

  lemma {:induction false} RemoveArrival(l: seq<RestingOrder>, id: OrderId)
    requires Arrivals(l)
    ensures Arrivals(RemoveId(l, id))
  {
    if l == [] {
    } else {
      RemoveArrival(l[1..], id);
      RemoveIdMembers(l[1..], id);
      ArrivalsHead(l);
      if l[0].orderId != id { ArrivalsCons(l[0], RemoveId(l[1..], id)); }
    }
  }

  lemma RemoveKeepsBook(b: Book, o: RestingOrder, now: nat)
    requires BookInv(b, now) && o in b.Of(o.side)
    ensures BookInv(b.Remove(o), now)
  {
    var l := b.Of(o.side);
    RemoveIdMembers(l, o.orderId);
    RemoveIdOrder(o.side, l, o.orderId);
    RemoveArrival(l, o.orderId);
  }

  lemma {:induction false} MatchKeepsBook(t: Taker, m: Matching, now: nat)
    requires BookInv(m.book, now)
    ensures BookInv(Match(t, m).book, now)
    ensures !m.book.Contains(t.orderId) ==> !Match(t, m).book.Contains(t.orderId)
  {
    var k := MatchTakesInPriority(t, m);
    TakingKeepsSide(t.side.Opposite(), Makers(t, m), Makers(t, Match(t, m)), k, now);
  }

  /** Sequence numbers never run backwards. */
  lemma {:induction false} PlaceKeepsBook(e: EngineState, seqNo: nat, ts: int, id: OrderId, request: OrderRequest,
                                          now: nat)
    requires BookInv(e.book, now) && now <= seqNo
    ensures BookInv(PlaceOrder(e, seqNo, ts, id, request).state.book, seqNo)
  {
    hide Match, Validate, Fillable, FillCount;
    var t := TakerOf(e, seqNo, ts, id, request);
    var m0 := Matching(e.book, request.qty, [], false);
    var m := Match(t, m0);
    LaterKeepsBook(e.book, now, seqNo);
    if !e.book.Contains(id) && PlaceOrder(e, seqNo, ts, id, request) == Dispose(e, id, request, t, m) {
      MatchKeepsBook(t, m0, seqNo);
      MatchExhaustsReach(t, m0);
      if !m.stopped && m.remaining > 0 && request.orderType == Limit && request.price.Some? {
        var o := RestingOrder(id, request.accountId, request.side, request.price.value, m.remaining,
                              request.stpMode, t.seqNo);
        RestAfterMatch(t, m, o, seqNo);
      }
    }
  }

  lemma LaterKeepsBook(b: Book, now: nat, later: nat)
    requires BookInv(b, now) && now <= later
    ensures BookInv(b, later)
  {
  }

  lemma RestAfterMatch(t: Taker, m: Matching, o: RestingOrder, now: nat)
    requires BookInv(m.book, now) && Done(t, m) && !m.stopped && m.remaining > 0 && !m.book.Contains(o.orderId)
    requires o.side == t.side && t.limit == Some(o.price) && o.remaining == m.remaining && o.restedAtSeq == now
    ensures BookInv(m.book.Rest(o), now)
  {
    var l := Makers(t, m);
    forall x | x in l ensures !AtLeastAsGood(o.side.Opposite(), x.price, o.price) {
      var i :| 0 <= i < |l| && l[i] == x;
      assert i == 0 || AtLeastAsGood(o.side.Opposite(), l[0].price, l[i].price);
    }
    RestKeepsBook(m.book, o, now);
  }

  /** Every command keeps both lists sorted, distinct, live, in arrival order and uncrossed. */
  lemma {:induction false} CommandKeepsBook(e: EngineState, c: SequencedCommand)
    requires BookInv(e.book, e.lastSeq) && e.lastSeq <= c.seqNo
    ensures var e' := Apply(e, c).state; BookInv(e'.book, e'.lastSeq) && e'.lastSeq == c.seqNo
  {
    hide PlaceOrder, Find;
    var e0 := e.(lastSeq := c.seqNo);
    LaterKeepsBook(e.book, e.lastSeq, c.seqNo);
    match c.command {
      case Place(id, request) =>
        PlaceKeepsBook(e0, c.seqNo, c.timestampMs, id, request, c.seqNo);
        PlaceKeepsFrame(e0, c.seqNo, c.timestampMs, id, request);
      case Cancel(id) =>
        if Lookup(e.book, id).Some? { RemoveKeepsBook(e.book, Lookup(e.book, id).value, c.seqNo); }
      case Amend(id, newId, price, qty) =>
        if Lookup(e.book, id).Some? {
          var o := Lookup(e.book, id).value;
          RemoveKeepsBook(e.book, o, c.seqNo);
          var e1 := e0.(book := e.book.Remove(o));
          PlaceKeepsBook(e1, c.seqNo, c.timestampMs, newId, Replacement(o, newId, price, qty), c.seqNo);
          PlaceKeepsFrame(e1, c.seqNo, c.timestampMs, newId, Replacement(o, newId, price, qty));
        }
      case SetStatus(_) =>
    }
  }

  lemma PlaceKeepsFrame(e: EngineState, seqNo: nat, ts: int, id: OrderId, request: OrderRequest)
    ensures var e' := PlaceOrder(e, seqNo, ts, id, request).state; e' == e.(book := e'.book)
  {
    hide Match, Validate, Fillable, FillCount;
  }
}
