/** Level changes: a mirror fed only the reported levels always holds the book's depth. */
module DepthMirror {
  import opened MatchingTypes
  import opened PriceTimeList
  import opened ReferenceBook
  import opened ReferenceMatcher
  import opened MatchingInvariants
  import opened MatchingRuns

  /** A consumer's copy of the depth. A level that is absent, or present with zero, is empty. */
  type Mirror = map<LevelKey, nat>

  function At(mirror: Mirror, k: LevelKey): nat { if k in mirror then mirror[k] else 0 }

  /** Changes are absolute, so applying them is overwriting. */
  function ApplyLevels(mirror: Mirror, levels: map<LevelKey, nat>): Mirror { mirror + levels }

  ghost predicate Agrees(mirror: Mirror, b: Book) {
    forall k :: At(mirror, k) == b.Depth(k)
  }

  /** `b'` reports every level whose depth differs from `b`. */
  ghost predicate Reports(b: Book, b': Book) {
    b.touched <= b'.touched && forall k :: k !in b'.touched ==> b'.Depth(k) == b.Depth(k)
  }

  lemma TakeDepth(l: seq<RestingOrder>, l': seq<RestingOrder>, p: u64)
    requires l != [] && p != l[0].price
    requires l' == l[1..] || (l' != [] && l'[1..] == l[1..] && l'[0].price == l[0].price)
    ensures AtPrice(l', p) == AtPrice(l, p)
  {
  }

  lemma StepReports(t: Taker, m: Matching)
    requires !Done(t, m)
    ensures Reports(m.book, Step(t, m).book)
  {
    var l, m' := Makers(t, m), Step(t, m);
    forall k | k !in m'.book.touched ensures m'.book.Depth(k) == m.book.Depth(k) {
      if Makers(t, m') != l && k.side == t.side.Opposite() {
        TakeDepth(l, Makers(t, m'), k.price);
      }
    }
  }

  lemma {:induction false} MatchReports(t: Taker, m: Matching)
    ensures Reports(m.book, Match(t, m).book)
    decreases !m.stopped, |Makers(t, m)|, m.remaining
  {
    if Done(t, m) {
    } else {
      StepReports(t, m);
      MatchReports(t, Step(t, m));
    }
  }

  lemma RestReports(b: Book, o: RestingOrder, now: nat)
    requires BookInv(b, now)
    ensures Reports(b, b.Rest(o))
  {
    forall k | k !in b.Rest(o).touched ensures b.Rest(o).Depth(k) == b.Depth(k) {
      if k.side == o.side {
        assert k.price != o.price;
        AtPriceInsert(o.side, b.Of(o.side), o, k.price);
        assert AtPrice(b.Of(o.side), k.price) + [] == AtPrice(b.Of(o.side), k.price);
      }
    }
  }

  lemma RemoveReports(b: Book, o: RestingOrder, now: nat)
    requires BookInv(b, now) && o in b.Of(o.side)
    ensures Reports(b, b.Remove(o))
  {
    var l := b.Of(o.side);
    forall k | k !in b.Remove(o).touched ensures b.Remove(o).Depth(k) == b.Depth(k) {
      if k.side == o.side { RemoveElsewhere(l, o, k.price); }
    }
  }

  lemma RemoveElsewhere(l: seq<RestingOrder>, o: RestingOrder, p: u64)
    requires DistinctIds(l) && o in l && p != o.price
    ensures AtPrice(RemoveId(l, o.orderId), p) == AtPrice(l, p)
  {
    AtPriceRemove(l, o.orderId, p);
    AtPriceMembers(l, p);
    var j :| 0 <= j < |l| && l[j] == o;
    forall x | x in AtPrice(l, p) ensures x.orderId != o.orderId {
      var i :| 0 <= i < |l| && l[i] == x;
    }
    RemoveAbsent(AtPrice(l, p), o.orderId);
  }

  lemma PlaceReports(e: EngineState, seqNo: nat, ts: int, id: OrderId, request: OrderRequest)
    requires BookInv(e.book, seqNo)
    ensures Reports(e.book, PlaceOrder(e, seqNo, ts, id, request).state.book)
  {
    hide PlaceOrder, Match, Reports;
    var t := TakerOf(e, seqNo, ts, id, request);
    var m0 := Matching(e.book, request.qty, [], false);
    var m := Match(t, m0);
    PlaceShape(e, seqNo, ts, id, request);
    MatchReports(t, m0);
    MatchKeepsBook(t, m0, seqNo);
    Unchanged(e.book);
    if request.price.Some? {
      var o := RestingOrder(id, request.accountId, request.side, request.price.value, m.remaining,
                            request.stpMode, t.seqNo);
      RestReports(m.book, o, seqNo);
      Chain(e.book, m.book, m.book.Rest(o));
    }
  }

  lemma Unchanged(b: Book)
    ensures Reports(b, b)
  {
  }

  lemma Chain(a: Book, b: Book, c: Book)
    requires Reports(a, b) && Reports(b, c)
    ensures Reports(a, c)
  {
  }

  /** Every level a command changes is among the levels it reports. */
  lemma {:induction false} CommandReports(e: EngineState, c: SequencedCommand)
    requires BookInv(e.book, e.lastSeq) && e.lastSeq <= c.seqNo
    ensures Reports(e.book, Apply(e, c).state.book)
  {
    hide PlaceOrder, Reports, Find;
    var e0 := e.(lastSeq := c.seqNo);
    LaterKeepsBook(e.book, e.lastSeq, c.seqNo);
    Unchanged(e.book);
    match c.command {
      case Place(id, request) => PlaceReports(e0, c.seqNo, c.timestampMs, id, request);
      case Cancel(id) =>
        if Lookup(e.book, id).Some? { RemoveReports(e.book, Lookup(e.book, id).value, c.seqNo); }
      case Amend(id, newId, price, qty) =>
        if Lookup(e.book, id).Some? {
          var o := Lookup(e.book, id).value;
          RemoveReports(e.book, o, c.seqNo);
          RemoveKeepsBook(e.book, o, c.seqNo);
          var e1 := e0.(book := e.book.Remove(o));
          PlaceReports(e1, c.seqNo, c.timestampMs, newId, Replacement(o, newId, price, qty));
          Chain(e.book, e1.book, Apply(e, c).state.book);
        }
      case SetStatus(_) =>
    }
  }

  /** The mirror after the level changes of some results, in order. */
  function Mirrored(mirror: Mirror, results: seq<Result>): Mirror {
    if results == [] then mirror
    else ApplyLevels(Mirrored(mirror, results[..|results| - 1]), results[|results| - 1].levels)
  }

  /** A mirror that starts from the depth at any point of a run and applies every later command's
      changes holds the depth at the end. */
  lemma {:induction false} MirrorFollowsBook(e: EngineState, cmds: seq<SequencedCommand>, mirror: Mirror)
    requires StartsFrom(e, cmds) && e.book.touched == {} && Agrees(mirror, e.book)
    ensures Agrees(Mirrored(mirror, Results(e, cmds)), Run(e, cmds).book)
    ensures Run(e, cmds).book.touched == {}
  {
    if cmds == [] {
    } else {
      hide Apply, Agrees, LevelsOf, BookInv;
      var last := |cmds| - 1;
      MirrorFollowsBook(e, cmds[..last], mirror);
      RunKeepsBook(e, cmds[..last]);
      MirrorStep(Run(e, cmds[..last]), cmds[last], Mirrored(mirror, Results(e, cmds[..last])));
      assert Results(e, cmds)[..last] == Results(e, cmds[..last]);
    }
  }

  /** Redelivered changes alter nothing. */
  lemma {:induction false} RepeatedChanges(mirror: Mirror, results: seq<Result>)
    requires results != []
    ensures ApplyLevels(Mirrored(mirror, results), results[|results| - 1].levels) == Mirrored(mirror, results)
  {
  }

  lemma MirrorStep(e: EngineState, c: SequencedCommand, mirror: Mirror)
    requires BookInv(e.book, e.lastSeq) && e.lastSeq <= c.seqNo && e.book.touched == {} && Agrees(mirror, e.book)
    ensures var b := Apply(e, c).state.book;
      Agrees(ApplyLevels(mirror, LevelsOf(b)), b.(touched := {}))
  {
    hide Apply, AtPrice;
    var b := Apply(e, c).state.book;
    CommandReports(e, c);
    forall k ensures At(ApplyLevels(mirror, LevelsOf(b)), k) == b.(touched := {}).Depth(k) {
      assert b.(touched := {}).Depth(k) == b.Depth(k);
      assert k !in b.touched ==> At(mirror, k) == e.book.Depth(k);
    }
  }

  // ------------------------------------------------------------------ what depth is

  /** Depth counts what rests: an empty book has none, an order that rests adds its remainder to its own level and
      to no other, and one that is taken off takes it away again. */
  lemma {:induction false} DepthAddsUp(b: Book, o: RestingOrder, k: LevelKey, now: nat)
    requires BookInv(b, now)
    ensures EMPTY_BOOK.Depth(k) == 0
    ensures b.Rest(o).Depth(k) == b.Depth(k) + if k == LevelKey(o.side, o.price) then o.remaining else 0
    ensures o in b.Of(o.side) ==>
      b.Remove(o).Depth(k) == b.Depth(k) - if k == LevelKey(o.side, o.price) then o.remaining else 0
  {
    var l := b.Of(o.side);
    if k.side == o.side {
      AtPriceInsert(o.side, l, o, k.price);
      TotalAppend(AtPrice(l, k.price), if k.price == o.price then [o] else []);
      assert Total([o]) == o.remaining;
      if o in l {
        AtPriceRemove(l, o.orderId, k.price);
        if k.price == o.price {
          AtPriceMembers(l, k.price);
          AtPriceDistinct(l, k.price);
          TotalRemove(AtPrice(l, k.price), o);
        } else {
          RemoveElsewhere(l, o, k.price);
        }
      }
    }
    hide Insert, RemoveId, AtPrice, BookInv;
  }
}
