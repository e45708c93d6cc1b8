/** The plain price-time list: what one side of the book is supposed to be.

    A list of live orders, best price first and arrival order within a price. The order book with
    its ladders, tombstones and incremental totals is proved to be exactly this list. */
module PriceTimeList {
  import opened MatchingTypes

  /** Best price first. Within a price the list order is arrival order. */
  ghost predicate Sorted(side: Side, l: seq<RestingOrder>) {
    forall i, j :: 0 <= i < j < |l| ==> AtLeastAsGood(side, l[i].price, l[j].price)
  }

  ghost predicate DistinctIds(l: seq<RestingOrder>) {
    forall i, j :: 0 <= i < j < |l| ==> l[i].orderId != l[j].orderId
  }

  /** The orders resting at one price, in list order. */
  function AtPrice(l: seq<RestingOrder>, price: u64): (r: seq<RestingOrder>) {
    if l == [] then []
    else if l[0].price == price then [l[0]] + AtPrice(l[1..], price)
    else AtPrice(l[1..], price)
  }

  /** The quantity resting in a list. */
  function Total(l: seq<RestingOrder>): nat {
    if l == [] then 0 else l[0].remaining + Total(l[1..])
  }

  predicate HasId(l: seq<RestingOrder>, id: OrderId) {
    exists o :: o in l && o.orderId == id
  }

  /** Behind every order at least as good, ahead of every worse one. */
  function Insert(side: Side, l: seq<RestingOrder>, o: RestingOrder): seq<RestingOrder> {
    if l == [] then [o]
    else if AtLeastAsGood(side, l[0].price, o.price) then [l[0]] + Insert(side, l[1..], o)
    else [o] + l
  }

  function RemoveId(l: seq<RestingOrder>, id: OrderId): seq<RestingOrder> {
    if l == [] then []
    else if l[0].orderId == id then RemoveId(l[1..], id)
    else [l[0]] + RemoveId(l[1..], id)
  }

  /** The list with one order's remaining quantity replaced. */
  function SetRemaining(l: seq<RestingOrder>, id: OrderId, remaining: u64): seq<RestingOrder> {
    if l == [] then []
    else [if l[0].orderId == id then l[0].(remaining := remaining) else l[0]]
         + SetRemaining(l[1..], id, remaining)
  }

  /** Take `qty` from one order, dropping it once nothing remains. */
  function Consume(l: seq<RestingOrder>, o: RestingOrder, qty: u64): seq<RestingOrder> {
    if o.remaining <= qty then RemoveId(l, o.orderId)
    else SetRemaining(l, o.orderId, o.remaining - qty)
  }

  // ------------------------------------------------------------------ membership

  lemma {:induction false} AtPriceMembers(l: seq<RestingOrder>, price: u64)
    ensures forall o :: o in AtPrice(l, price) <==> o in l && o.price == price
  {
    if l == [] {
    } else {
      AtPriceMembers(l[1..], price);
    }
  }

  lemma {:induction false} InsertMembers(side: Side, l: seq<RestingOrder>, o: RestingOrder)
    ensures forall x :: x in Insert(side, l, o) <==> x in l || x == o
    ensures |Insert(side, l, o)| == |l| + 1
  {
    if l != [] && AtLeastAsGood(side, l[0].price, o.price) { InsertMembers(side, l[1..], o); }
  }

  lemma {:induction false} RemoveIdMembers(l: seq<RestingOrder>, id: OrderId)
    ensures forall x :: x in RemoveId(l, id) <==> x in l && x.orderId != id
  {
    if l == [] {
    } else {
      RemoveIdMembers(l[1..], id);
    }
  }

  lemma {:induction false} SetRemainingAt(l: seq<RestingOrder>, id: OrderId, remaining: u64)
    ensures var r := SetRemaining(l, id, remaining);
      && |r| == |l|
      && forall i :: 0 <= i < |l| ==>
           r[i] == if l[i].orderId == id then l[i].(remaining := remaining) else l[i]
  {
    if l == [] {
    } else {
      SetRemainingAt(l[1..], id, remaining);
    }
  }

  lemma {:induction false} RemoveAbsent(l: seq<RestingOrder>, id: OrderId)
    requires !HasId(l, id)
    ensures RemoveId(l, id) == l
  {
    if l == [] {
    } else {
      assert l[0] in l;
      assert forall x :: x in l[1..] ==> x in l;
      RemoveAbsent(l[1..], id);
    }
  }

  // ------------------------------------------------------------------ order is kept

  lemma {:induction false} InsertSorted(side: Side, l: seq<RestingOrder>, o: RestingOrder)
    requires Sorted(side, l)
    ensures Sorted(side, Insert(side, l, o))
  {
    if l != [] && AtLeastAsGood(side, l[0].price, o.price) {
      InsertSorted(side, l[1..], o);
      InsertMembers(side, l[1..], o);
      var r := Insert(side, l[1..], o);
      forall j | 0 <= j < |r| ensures AtLeastAsGood(side, l[0].price, r[j].price) {
        assert r[j] in r;
      }
    }
  }

  lemma {:induction false} InsertDistinct(side: Side, l: seq<RestingOrder>, o: RestingOrder)
    requires DistinctIds(l) && !HasId(l, o.orderId)
    ensures DistinctIds(Insert(side, l, o))
  {
    if l == [] {
    } else {
      assert l[0] in l;
      assert forall x :: x in l[1..] ==> x in l;
      if AtLeastAsGood(side, l[0].price, o.price) {
        InsertDistinct(side, l[1..], o);
        InsertMembers(side, l[1..], o);
        var r := Insert(side, l[1..], o);
        forall j | 0 <= j < |r| ensures l[0].orderId != r[j].orderId {
          assert r[j] in r;
        }
      } else {
        forall j | 0 <= j < |l| ensures l[j].orderId != o.orderId {
          assert l[j] in l;
        }
      }
    }
  }

  lemma {:induction false} RemoveIdOrder(side: Side, l: seq<RestingOrder>, id: OrderId)
    requires Sorted(side, l) && DistinctIds(l)
    ensures Sorted(side, RemoveId(l, id)) && DistinctIds(RemoveId(l, id))
  {
    if l == [] {
    } else {
      RemoveIdOrder(side, l[1..], id);
      RemoveIdMembers(l[1..], id);
      var r := RemoveId(l[1..], id);
      forall j | 0 <= j < |r|
        ensures AtLeastAsGood(side, l[0].price, r[j].price) && l[0].orderId != r[j].orderId
      {
        assert r[j] in r;
      }
    }
  }

  lemma SetRemainingOrder(side: Side, l: seq<RestingOrder>, id: OrderId, remaining: u64)
    requires Sorted(side, l) && DistinctIds(l)
    ensures Sorted(side, SetRemaining(l, id, remaining)) && DistinctIds(SetRemaining(l, id, remaining))
  {
    var r := SetRemaining(l, id, remaining);
    SetRemainingAt(l, id, remaining);
    assert forall i :: 0 <= i < |l| ==> r[i].price == l[i].price && r[i].orderId == l[i].orderId;
  }

  // ------------------------------------------------------------------ one price at a time

  /** Inserting joins the BACK of its own price level and disturbs no other. */
  lemma {:induction false} AtPriceInsert(side: Side, l: seq<RestingOrder>, o: RestingOrder, price: u64)
    requires Sorted(side, l)
    ensures AtPrice(Insert(side, l, o), price)
         == AtPrice(l, price) + (if price == o.price then [o] else [])
  {
    if l == [] {
    } else if AtLeastAsGood(side, l[0].price, o.price) {
      AtPriceInsert(side, l[1..], o, price);
      var r := [l[0]] + Insert(side, l[1..], o);
      assert r[0] == l[0] && r[1..] == Insert(side, l[1..], o);
    } else {
      assert ([o] + l)[1..] == l;
      if price == o.price { NothingAtWorsePrice(side, l, price); }
    }
  }

  lemma {:induction false} NothingAtWorsePrice(side: Side, l: seq<RestingOrder>, price: u64)
    requires Sorted(side, l) && l != [] && !AtLeastAsGood(side, l[0].price, price)
    ensures AtPrice(l, price) == []
  {
    if |l| <= 1 {
    } else {
      NothingAtWorsePrice(side, l[1..], price);
    }
  }

  lemma {:induction false} AtPriceRemove(l: seq<RestingOrder>, id: OrderId, price: u64)
    ensures AtPrice(RemoveId(l, id), price) == RemoveId(AtPrice(l, price), id)
  {
    if l == [] {
    } else {
      AtPriceRemove(l[1..], id, price);
      assert ([l[0]] + AtPrice(l[1..], price))[1..] == AtPrice(l[1..], price);
      assert ([l[0]] + RemoveId(l[1..], id))[1..] == RemoveId(l[1..], id);
    }
  }

  lemma {:induction false} AtPriceSetRemaining(l: seq<RestingOrder>, id: OrderId, remaining: u64, price: u64)
    ensures AtPrice(SetRemaining(l, id, remaining), price)
         == SetRemaining(AtPrice(l, price), id, remaining)
  {
    if l == [] {
    } else {
      AtPriceSetRemaining(l[1..], id, remaining, price);
      assert SetRemaining(l, id, remaining)[1..] == SetRemaining(l[1..], id, remaining);
      assert ([l[0]] + AtPrice(l[1..], price))[1..] == AtPrice(l[1..], price);
    }
  }

  /** At the best price the front order of the level is the head of the list. */
  lemma {:induction false} BestLevelIsHead(l: seq<RestingOrder>)
    requires l != []
    ensures AtPrice(l, l[0].price) != [] && AtPrice(l, l[0].price)[0] == l[0]
  {
  }

  /** Consuming the head leaves the tail alone. */
  lemma ConsumeHead(l: seq<RestingOrder>, qty: u64)
    requires DistinctIds(l) && l != []
    ensures Consume(l, l[0], qty)
         == (if l[0].remaining <= qty then l[1..]
             else [l[0].(remaining := l[0].remaining - qty)] + l[1..])
    ensures RemoveId(l, l[0].orderId) == l[1..]
  {
    forall x | x in l[1..] ensures x.orderId != l[0].orderId {
      var j :| 0 <= j < |l[1..]| && l[1..][j] == x;
      assert l[j + 1] == x;
    }
    RemoveAbsent(l[1..], l[0].orderId);
    SetRemainingAbsent(l[1..], l[0].orderId, SaturatingSub(l[0].remaining, qty));
  }

  lemma {:induction false} AtPriceDistinct(l: seq<RestingOrder>, price: u64)
    requires DistinctIds(l)
    ensures DistinctIds(AtPrice(l, price))
  {
    if l == [] {
    } else {
      AtPriceDistinct(l[1..], price);
      AtPriceMembers(l[1..], price);
      var r := AtPrice(l[1..], price);
      forall j | 0 <= j < |r| ensures l[0].orderId != r[j].orderId { assert r[j] in r; }
    }
  }

  // ------------------------------------------------------------------ totals

  lemma {:induction false} TotalAppend(a: seq<RestingOrder>, b: seq<RestingOrder>)
    ensures Total(a + b) == Total(a) + Total(b)
  {
    if a == [] {
      assert a + b == b;
    } else {
      assert (a + b)[1..] == a[1..] + b;
      TotalAppend(a[1..], b);
    }
  }

  lemma {:induction false} TotalRemove(l: seq<RestingOrder>, o: RestingOrder)
    requires DistinctIds(l) && o in l
    ensures Total(RemoveId(l, o.orderId)) == Total(l) - o.remaining
    ensures |RemoveId(l, o.orderId)| == |l| - 1
  {
    if l[0] == o {
      forall x | x in l[1..] ensures x.orderId != o.orderId {
        var j :| 0 <= j < |l[1..]| && l[1..][j] == x;
        assert l[j + 1] == x;
      }
      RemoveAbsent(l[1..], o.orderId);
    } else {
      TotalRemove(l[1..], o);
      assert l[0].orderId != o.orderId;
      assert ([l[0]] + RemoveId(l[1..], o.orderId))[1..] == RemoveId(l[1..], o.orderId);
    }
  }

  lemma SetRemainingAbsent(l: seq<RestingOrder>, id: OrderId, remaining: u64)
    requires !HasId(l, id)
    ensures SetRemaining(l, id, remaining) == l
  {
    SetRemainingAt(l, id, remaining);
    assert forall i :: 0 <= i < |l| ==> l[i] in l;
  }

  lemma {:induction false} TotalSetRemaining(l: seq<RestingOrder>, o: RestingOrder, remaining: u64)
    requires DistinctIds(l) && o in l
    ensures Total(SetRemaining(l, o.orderId, remaining)) == Total(l) - o.remaining + remaining
  {
    assert SetRemaining(l, o.orderId, remaining)[1..] == SetRemaining(l[1..], o.orderId, remaining);
    if l[0] == o {
      forall x | x in l[1..] ensures x.orderId != o.orderId {
        var j :| 0 <= j < |l[1..]| && l[1..][j] == x;
        assert l[j + 1] == x;
      }
      SetRemainingAbsent(l[1..], o.orderId, remaining);
    } else {
      TotalSetRemaining(l[1..], o, remaining);
      assert l[0].orderId != o.orderId;
    }
  }

  /** Live quantity is zero exactly when nothing is live. */
  lemma {:induction false} TotalZero(l: seq<RestingOrder>)
    requires forall o :: o in l ==> o.remaining > 0
    ensures Total(l) == 0 <==> l == []
  {
    if l != [] { assert l[0] in l; }
  }

  /** Two lists that are price-sorted and agree at every price are the same list, so the price-time
      list of a side is determined by its levels. */
  lemma {:induction false} DeterminedByLevels(side: Side, a: seq<RestingOrder>, b: seq<RestingOrder>)
    requires Sorted(side, a) && Sorted(side, b)
    requires forall p: u64 :: AtPrice(a, p) == AtPrice(b, p)
    ensures a == b
  {
    if a == [] && b == [] {
    } else if a == [] {
      assert AtPrice(a, b[0].price) == [];
      assert false;
    } else if b == [] {
      assert AtPrice(b, a[0].price) == [];
      assert false;
    } else {
      HeadsAgree(side, a, b);
      forall p: u64 ensures AtPrice(a[1..], p) == AtPrice(b[1..], p) {
        assert AtPrice(a, p) == AtPrice(b, p);
        if p == a[0].price {
          assert AtPrice(a, p)[1..] == AtPrice(a[1..], p);
          assert AtPrice(b, p)[1..] == AtPrice(b[1..], p);
        } else {
          assert AtPrice(a, p) == AtPrice(a[1..], p);
          assert AtPrice(b, p) == AtPrice(b[1..], p);
        }
      }
      DeterminedByLevels(side, a[1..], b[1..]);
    }
  }

  lemma HeadsAgree(side: Side, a: seq<RestingOrder>, b: seq<RestingOrder>)
    requires Sorted(side, a) && Sorted(side, b) && a != [] && b != []
    requires forall p: u64 :: AtPrice(a, p) == AtPrice(b, p)
    ensures a[0] == b[0]
  {
    AtPriceMembers(a, b[0].price);
    AtPriceMembers(b, a[0].price);
    assert AtPrice(a, a[0].price)[0] == a[0];
    assert AtPrice(b, b[0].price)[0] == b[0];
    assert a[0] in AtPrice(b, a[0].price) by { assert AtPrice(a, a[0].price) == AtPrice(b, a[0].price); }
    assert b[0] in AtPrice(a, b[0].price) by { assert AtPrice(a, b[0].price) == AtPrice(b, b[0].price); }
    assert a[0] in b && b[0] in a;
    var i :| 0 <= i < |b| && b[i] == a[0];
    var j :| 0 <= j < |a| && a[j] == b[0];
    assert i == 0 || AtLeastAsGood(side, b[0].price, b[i].price);
    assert j == 0 || AtLeastAsGood(side, a[0].price, a[j].price);
    assert a[0].price == b[0].price;
    assert AtPrice(a, a[0].price) == AtPrice(b, a[0].price);
  }
}
