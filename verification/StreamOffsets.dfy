/** Positions in the keyed stream, and what a consumer keeps of a stream with repeats in it. */
module StreamOffsets {
  import opened MatchingTypes
  import opened EventStream

  /** How many events the first `s` sequences emit. */
  function Offset(bs: seq<seq<Event>>, s: nat): nat
    requires s <= |bs|
  {
    |Entries(bs[..s])|
  }

  /** The entries of sequences `a + 1` to `b` are a slice of all of them. */
  lemma EntriesSlice(bs: seq<seq<Event>>, a: nat, b: nat)
    requires a <= b <= |bs|
    ensures Offset(bs, a) <= Offset(bs, b) <= |Entries(bs)|
    ensures EntriesFrom(a, bs[a..b]) == Entries(bs)[Offset(bs, a)..Offset(bs, b)]
    ensures |EntriesFrom(a, bs[a..b])| == Offset(bs, b) - Offset(bs, a)
  {
    hide EntriesFrom;
    assert bs == bs[..a] + (bs[a..b] + bs[b..]);
    EntriesAppend(0, bs[..a], bs[a..b] + bs[b..]);
    EntriesAppend(a, bs[a..b], bs[b..]);
    assert bs[..b] == bs[..a] + bs[a..b];
    EntriesAppend(0, bs[..a], bs[a..b]);
    Middle(Entries(bs[..a]), EntriesFrom(a, bs[a..b]), EntriesFrom(b, bs[b..]));
  }

  lemma Middle<T>(a: seq<T>, b: seq<T>, c: seq<T>)
    ensures (a + (b + c))[|a|..|a| + |b|] == b
  {
  }

  lemma OffsetGrows(bs: seq<seq<Event>>, batch: seq<Event>, s: nat)
    requires s <= |bs|
    ensures Offset(bs + [batch], s) == Offset(bs, s)
    ensures Entries(bs) <= Entries(bs + [batch])
  {
    assert (bs + [batch])[..s] == bs[..s];
    EntriesAppend(0, bs, [batch]);
  }

  lemma OffsetFull(bs: seq<seq<Event>>)
    ensures Offset(bs, |bs|) == |Entries(bs)| && Offset(bs, 0) == 0
  {
    assert bs[..|bs|] == bs;
  }

  // ------------------------------------------------------------------ repeats dropped by key

  predicate HasKey(entries: seq<Entry>, e: Entry) {
    exists x :: x in entries && x.seqNo == e.seqNo && x.idx == e.idx
  }

  /** What a consumer that drops repeats by `(seq, idx)` sees of a stream. */
  function Dedup(stream: seq<Entry>): seq<Entry> {
    if stream == [] then []
    else
      var kept := Dedup(stream[..|stream| - 1]);
      if HasKey(kept, stream[|stream| - 1]) then kept else kept + [stream[|stream| - 1]]
  }

  /** Dropping repeats keeps one entry per key, the first to arrive, in the order they arrived, and loses no key. */
  lemma {:induction false} DedupExactly(stream: seq<Entry>, n: nat)
    requires n <= |stream|
    ensures Dedup(stream[..n]) <= Dedup(stream)
    ensures forall e :: e in Dedup(stream) ==> e in stream
    ensures forall e :: e in stream ==> HasKey(Dedup(stream), e)
    ensures forall i, j :: 0 <= i < j < |Dedup(stream)| ==>
      (Dedup(stream)[i].seqNo, Dedup(stream)[i].idx) != (Dedup(stream)[j].seqNo, Dedup(stream)[j].idx)
  {
    if stream == [] {
    } else {
      var most, last := stream[..|stream| - 1], stream[|stream| - 1];
      assert stream == most + [last];
      DedupExactly(most, if n < |stream| then n else |most|);
      if n < |stream| {
        assert most[..n] == stream[..n];
      } else {
        assert stream[..n] == stream;
      }
      var kept := Dedup(most);
      if !HasKey(kept, last) { assert forall i :: 0 <= i < |kept| ==> kept[i] in kept; }
      forall e | e in stream ensures HasKey(Dedup(stream), e) {
        if e in most {
          KeyStays(kept, Dedup(stream), e);
        } else if !HasKey(kept, last) {
          assert last in Dedup(stream);
        }
      }
    }
  }

  lemma KeyStays(kept: seq<Entry>, more: seq<Entry>, e: Entry)
    requires kept <= more && HasKey(kept, e)
    ensures HasKey(more, e)
  {
    var x :| x in kept && x.seqNo == e.seqNo && x.idx == e.idx;
    assert x in more;
  }

  /** Publishing any entry at or before the first unseen one keeps the deduplicated stream a prefix
      of all entries, and puts that entry in it. */
  lemma {:induction false} PublishKeepsPrefix(bs: seq<seq<Event>>, stream: seq<Entry>, p: nat)
    requires Dedup(stream) <= Entries(bs) && p <= |Dedup(stream)| && p < |Entries(bs)|
    ensures var d := Dedup(stream + [Entries(bs)[p]]);
      d <= Entries(bs) && |d| >= |Dedup(stream)| && p < |d|
  {
    var all, d := Entries(bs), Dedup(stream);
    var e := all[p];
    assert (stream + [e])[..|stream|] == stream;
    if p < |d| {
      assert d[p] == e && d[p] in d;
    } else {
      forall x | x in d ensures !(x.seqNo == e.seqNo && x.idx == e.idx) {
        var i :| 0 <= i < |d| && d[i] == x;
        assert all[i] == x;
        KeysUnique(0, bs, i, p);
      }
    }
  }

  // ------------------------------------------------------------------ the gap before a sequence

  function Before(events: seq<Event>, s: nat): seq<Event> {
    if events == [] then []
    else if events[0].Seq() < s then [events[0]] + Before(events[1..], s)
    else Before(events[1..], s)
  }

  lemma {:induction false} BeforeAppend(a: seq<Event>, b: seq<Event>, s: nat)
    ensures Before(a + b, s) == Before(a, s) + Before(b, s)
  {
    if a == [] {
      assert a + b == b;
    } else {
      assert (a + b)[1..] == a[1..] + b;
      BeforeAppend(a[1..], b, s);
    }
  }

  lemma {:induction false} BeforeBatch(events: seq<Event>, of: nat, s: nat)
    requires AllOf(of, events)
    ensures Before(events, s) == if of < s then events else []
  {
    if events == [] {
    } else {
      assert events[0] in events;
      BeforeBatch(events[1..], of, s);
    }
  }

  lemma {:induction false} BeforeIsPrefix(base: nat, bs: seq<seq<Event>>, s: nat)
    requires BatchedFrom(base, bs) && base < s <= base + |bs| + 1
    ensures Before(Flat(bs), s) == Flat(bs[..s - base - 1])
    decreases |bs|
  {
    if bs == [] {
    } else {
      TailBatched(base, bs);
      hide BatchedFrom, AllOf;
      BeforeAppend(bs[0], Flat(bs[1..]), s);
      BeforeBatch(bs[0], base + 1, s);
      var n := s - base - 1;
      if n > 0 {
        BeforeIsPrefix(base + 1, bs[1..], s);
        assert bs[..n][0] == bs[0] && bs[..n][1..] == bs[1..][..n - 1];
      } else {
        NoneBefore(base + 1, bs[1..], s);
        assert bs[..0] == [];
      }
    }
  }

  lemma {:induction false} NoneBefore(base: nat, bs: seq<seq<Event>>, s: nat)
    requires BatchedFrom(base, bs) && s <= base + 1
    ensures Before(Flat(bs), s) == []
    decreases |bs|
  {
    if bs == [] {
    } else {
      TailBatched(base, bs);
      BeforeAppend(bs[0], Flat(bs[1..]), s);
      BeforeBatch(bs[0], base + 1, s);
      NoneBefore(base + 1, bs[1..], s);
    }
  }

  /** Everything after `w` and before `s`, keyed by position, is the slice of all entries between. */
  lemma {:induction false} GapEntries(bs: seq<seq<Event>>, w: nat, s: nat)
    requires Batched(bs) && w < s <= |bs| + 1
    ensures Offset(bs, w) <= Offset(bs, s - 1) <= |Entries(bs)|
    ensures var gap := Before(After(Flat(bs), w), s);
      && Keyed(gap) == Entries(bs)[Offset(bs, w)..Offset(bs, s - 1)]
      && (gap == [] <==> w == s - 1)
  {
    var between := bs[w..s - 1];
    GapIsFlat(bs, w, s);
    SliceBatched(0, bs, w, s - 1);
    hide BatchedFrom, Keyed, Before, After, EntriesFrom;
    KeyedFlat(w, between);
    EntriesSlice(bs, w, s - 1);
    FlatNonEmpty(w, between);
  }

  lemma GapIsFlat(bs: seq<seq<Event>>, w: nat, s: nat)
    requires Batched(bs) && w < s <= |bs| + 1
    ensures Before(After(Flat(bs), w), s) == Flat(bs[w..s - 1])
  {
    AfterIsSuffix(0, bs, w);
    SliceBatched(0, bs, w, |bs|);
    hide BatchedFrom, Before, After;
    BeforeIsPrefix(w, bs[w..], s);
    assert bs[w..][..s - w - 1] == bs[w..s - 1];
  }

  lemma KeyedFlat(base: nat, bs: seq<seq<Event>>)
    requires BatchedFrom(base, bs)
    ensures Keyed(Flat(bs)) == EntriesFrom(base, bs)
  {
    KeysByPosition(base, [], bs);
    hide BatchedFrom, EntriesFrom, Flat;
    assert [] + Flat(bs) == Flat(bs);
    assert Keyed([]) + EntriesFrom(base, bs) == EntriesFrom(base, bs);
  }

  /** A command's own events, keyed by position, are its slice. */
  lemma OwnEntries(bs: seq<seq<Event>>, s: nat)
    requires Batched(bs) && 0 < s <= |bs|
    ensures Offset(bs, s - 1) <= Offset(bs, s) <= |Entries(bs)|
    ensures Keyed(bs[s - 1]) == Entries(bs)[Offset(bs, s - 1)..Offset(bs, s)]
  {
    var one := bs[s - 1..s];
    SliceBatched(0, bs, s - 1, s);
    assert one[0] == bs[s - 1] && one[1..] == [] && Flat(one) == bs[s - 1];
    hide BatchedFrom, Keyed, EntriesFrom;
    KeyedFlat(s - 1, one);
    EntriesSlice(bs, s - 1, s);
  }
}
