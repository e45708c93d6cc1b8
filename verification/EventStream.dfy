/** The event stream: event keys, pages that end at sequence boundaries, and reading them all. */
module EventStream {
  import opened MatchingTypes

  /** One command's events each, in sequence order: batch `i` belongs to sequence `i + 1`. */
  ghost predicate Batched(bs: seq<seq<Event>>) {
    BatchedFrom(0, bs)
  }

  /** The same, for the batches after sequence `base`. */
  ghost predicate BatchedFrom(base: nat, bs: seq<seq<Event>>) {
    forall i :: 0 <= i < |bs| ==> bs[i] != [] && AllOf(base + i + 1, bs[i])
  }

  ghost predicate AllOf(s: nat, events: seq<Event>) {
    forall e :: e in events ==> e.Seq() == s
  }

  function Flat(bs: seq<seq<Event>>): seq<Event> {
    if bs == [] then [] else bs[0] + Flat(bs[1..])
  }

  /** Events after a sequence. */
  function After(events: seq<Event>, s: nat): seq<Event> {
    if events == [] then []
    else if events[0].Seq() > s then [events[0]] + After(events[1..], s)
    else After(events[1..], s)
  }

  /** The first batch and the rest. */
  lemma TailBatched(base: nat, bs: seq<seq<Event>>)
    requires BatchedFrom(base, bs) && bs != []
    ensures bs[0] != [] && AllOf(base + 1, bs[0]) && BatchedFrom(base + 1, bs[1..])
    ensures bs[0][0].Seq() == base + 1 && bs[0][|bs[0]| - 1].Seq() == base + 1
  {
    assert bs[0][0] in bs[0] && bs[0][|bs[0]| - 1] in bs[0];
    assert forall i :: 0 <= i < |bs[1..]| ==> bs[1..][i] == bs[i + 1];
  }

  lemma SliceBatched(base: nat, bs: seq<seq<Event>>, from: nat, to: nat)
    requires BatchedFrom(base, bs) && from <= to <= |bs|
    ensures BatchedFrom(base + from, bs[from..to])
  {
    assert forall i :: 0 <= i < to - from ==> bs[from..to][i] == bs[from + i];
  }

  lemma {:induction false} FlatAppend(a: seq<seq<Event>>, b: seq<seq<Event>>)
    ensures Flat(a + b) == Flat(a) + Flat(b)
  {
    if a == [] {
      assert a + b == b;
    } else {
      assert (a + b)[1..] == a[1..] + b;
      FlatAppend(a[1..], b);
    }
  }

  lemma {:induction false} AfterAppend(a: seq<Event>, b: seq<Event>, s: nat)
    ensures After(a + b, s) == After(a, s) + After(b, s)
  {
    if a == [] {
      assert a + b == b;
    } else {
      assert (a + b)[1..] == a[1..] + b;
      AfterAppend(a[1..], b, s);
    }
  }

  lemma {:induction false} AfterBatch(events: seq<Event>, of: nat, s: nat)
    requires AllOf(of, events)
    ensures After(events, s) == if of > s then events else []
  {
    if events == [] {
    } else {
      assert events[0] in events;
      AfterBatch(events[1..], of, s);
    }
  }

  /** What comes after a sequence is the later batches, whole. */
  lemma {:induction false} AfterIsSuffix(base: nat, bs: seq<seq<Event>>, s: nat)
    requires BatchedFrom(base, bs)
    ensures After(Flat(bs), s) == Flat(bs[Min(|bs|, SaturatingSub(s, base))..])
    decreases |bs|
  {
    if bs == [] {
    } else {
      TailBatched(base, bs);
      hide BatchedFrom, AllOf;
      AfterIsSuffix(base + 1, bs[1..], s);
      AfterAppend(bs[0], Flat(bs[1..]), s);
      AfterBatch(bs[0], base + 1, s);
      var k := Min(|bs|, SaturatingSub(s, base));
      if k == 0 {
        assert bs[0..] == bs && bs[1..][0..] == bs[1..];
      } else {
        assert bs[1..][k - 1..] == bs[k..];
      }
    }
  }

  // ------------------------------------------------------------------ pages

  /** At least `limit` events, and more to finish the sequence the limit fell inside. */
  function TakeFrom(out: seq<Event>, rest: seq<Event>, limit: nat): seq<Event>
    decreases |rest|
  {
    if rest == [] || (|out| >= limit && (out == [] || out[|out| - 1].Seq() != rest[0].Seq())) then out
    else TakeFrom(out + [rest[0]], rest[1..], limit)
  }

  function TakeWhole(events: seq<Event>, limit: nat): seq<Event> { TakeFrom([], events, limit) }

  method TakeWholeSequences(events: seq<Event>, limit: nat) returns (out: seq<Event>)
    ensures out == TakeWhole(events, limit)
  {
    out := [];
    var i := 0;
    assert events[0..] == events;
    while i < |events|
      invariant 0 <= i <= |events|
      invariant TakeFrom(out, events[i..], limit) == TakeWhole(events, limit)
    {
      if |out| >= limit && (out == [] || out[|out| - 1].Seq() != events[i].Seq()) { break; }
      assert events[i..][1..] == events[i + 1..];
      out := out + [events[i]];
      i := i + 1;
    }
  }

  /** Inside a sequence already begun, a page always continues to its end. */
  lemma {:induction false} TakeFromFinishes(out: seq<Event>, head: seq<Event>, rest: seq<Event>, limit: nat, s: nat)
    requires out != [] && out[|out| - 1].Seq() == s && AllOf(s, head)
    ensures TakeFrom(out, head + rest, limit) == TakeFrom(out + head, rest, limit)
    decreases |head|
  {
    if head == [] {
      assert head + rest == rest && out + head == out;
    } else {
      assert head[0] in head;
      assert (head + rest)[1..] == head[1..] + rest;
      TakeFromFinishes(out + [head[0]], head[1..], rest, limit, s);
      assert out + [head[0]] + head[1..] == out + head;
    }
  }

  /** A page of whole batches is whole batches: as many as it takes to reach the limit, no more. */
  lemma {:induction false} PageIsBatches(base: nat, out: seq<Event>, bs: seq<seq<Event>>, limit: nat) returns (k: nat)
    requires BatchedFrom(base, bs) && (out != [] ==> out[|out| - 1].Seq() == base)
    ensures k <= |bs| && TakeFrom(out, Flat(bs), limit) == out + Flat(bs[..k])
    ensures k < |bs| ==> |out + Flat(bs[..k])| >= limit
    ensures k > 0 ==> |out + Flat(bs[..k - 1])| < limit
    decreases |bs|
  {
    if bs == [] {
      k := 0;
    } else if |out| >= limit {
      k := 0;
      TailBatched(base, bs);
      assert Flat(bs)[0] == bs[0][0];
    } else {
      TailBatched(base, bs);
      FlatTake(bs, |bs|);
      assert bs[..|bs|] == bs && bs[1..][..|bs| - 1] == bs[1..];
      hide BatchedFrom, AllOf, Flat;
      var first, rest := bs[0], Flat(bs[1..]);
      TakeFromBatch(out, first, rest, limit, base + 1);
      var k' := PageIsBatches(base + 1, out + first, bs[1..], limit);
      k := k' + 1;
      FlatTake(bs, k);
      Associates(out, first, Flat(bs[1..][..k']));
      if k' > 0 {
        FlatTake(bs, k');
        Associates(out, first, Flat(bs[1..][..k' - 1]));
      } else {
        NoneTaken(bs);
      }
    }
  }

  lemma Associates<T>(a: seq<T>, b: seq<T>, c: seq<T>)
    ensures a + (b + c) == a + b + c
  {
  }

  lemma NoneTaken(bs: seq<seq<Event>>)
    ensures Flat(bs[..0]) == []
  {
  }

  lemma FlatTake(bs: seq<seq<Event>>, k: nat)
    requires 0 < k <= |bs|
    ensures Flat(bs[..k]) == bs[0] + Flat(bs[1..][..k - 1])
  {
    assert bs[..k][0] == bs[0] && bs[..k][1..] == bs[1..][..k - 1];
  }

  /** Below the limit a page takes the next batch whole. */
  lemma TakeFromBatch(out: seq<Event>, batch: seq<Event>, rest: seq<Event>, limit: nat, s: nat)
    requires |out| < limit && batch != [] && AllOf(s, batch)
    ensures TakeFrom(out, batch + rest, limit) == TakeFrom(out + batch, rest, limit)
  {
    assert batch[0] in batch;
    assert (batch + rest)[1..] == batch[1..] + rest;
    TakeFromFinishes(out + [batch[0]], batch[1..], rest, limit, s);
    assert out + [batch[0]] + batch[1..] == out + batch;
  }

  // ------------------------------------------------------------------ event keys

  /** `idx` by position: from 0 within each run of equal sequences. */
  function Indices(events: seq<Event>): (r: seq<nat>)
    ensures |r| == |events|
  {
    if events == [] then []
    else
      var last := |events| - 1;
      var before := Indices(events[..last]);
      before + [if last > 0 && events[last - 1].Seq() == events[last].Seq() then before[last - 1] + 1 else 0]
  }

  method EventIndices(events: seq<Event>) returns (out: seq<nat>)
    ensures out == Indices(events)
  {
    out := [];
    var previous: Option<nat> := None;
    var idx := 0;
    for i := 0 to |events|
      invariant out == Indices(events[..i])
      invariant previous == if i == 0 then None else Some(events[i - 1].Seq())
      invariant i > 0 ==> idx == out[i - 1]
    {
      idx := if previous == Some(events[i].Seq()) then idx + 1 else 0;
      previous := Some(events[i].Seq());
      out := out + [idx];
      assert events[..i + 1][..i] == events[..i];
    }
    assert events[..|events|] == events;
  }

  /** The published form of an event: its key and itself. */
  datatype Entry = Entry(seqNo: nat, idx: nat, event: Event)

  /** The entries of one batch, keyed by position in it. */
  function BatchEntries(s: nat, batch: seq<Event>): (r: seq<Entry>)
    ensures |r| == |batch|
  {
    seq(|batch|, i requires 0 <= i < |batch| => Entry(s, i, batch[i]))
  }

  /** Every event a run ever emits, keyed. */
  function EntriesFrom(base: nat, bs: seq<seq<Event>>): seq<Entry>
    decreases |bs|
  {
    if bs == [] then [] else BatchEntries(base + 1, bs[0]) + EntriesFrom(base + 1, bs[1..])
  }

  function Entries(bs: seq<seq<Event>>): seq<Entry> { EntriesFrom(0, bs) }

  /** Keys assigned by position in a page. */
  function Keyed(events: seq<Event>): (r: seq<Entry>)
    ensures |r| == |events|
  {
    var idx := Indices(events);
    seq(|events|, i requires 0 <= i < |events| => Entry(events[i].Seq(), idx[i], events[i]))
  }

  lemma {:induction false} IndicesPrefix(events: seq<Event>, k: nat)
    requires k <= |events|
    ensures Indices(events)[..k] == Indices(events[..k])
  {
    if k < |events| {
      var last := |events| - 1;
      IndicesPrefix(events[..last], k);
      assert events[..last][..k] == events[..k];
      assert Indices(events)[..last] == Indices(events[..last]);
      assert Indices(events)[..last][..k] == Indices(events)[..k];
    } else {
      assert events[..k] == events && Indices(events)[..k] == Indices(events);
    }
  }

  /** A batch that starts a new sequence is keyed from 0, whatever came before it. */
  lemma {:induction false} IndicesOfBatch(before: seq<Event>, batch: seq<Event>, s: nat, i: nat)
    requires AllOf(s, batch) && i < |batch|
    requires before != [] ==> before[|before| - 1].Seq() != s
    ensures Indices(before + batch)[|before| + i] == i
    decreases i
  {
    var all, k := before + batch, |before| + i;
    IndexAt(all, k);
    assert all[k] == batch[i] && batch[i] in batch;
    if i > 0 {
      IndicesOfBatch(before, batch, s, i - 1);
      assert all[k - 1] == batch[i - 1] && batch[i - 1] in batch;
    } else if before != [] {
      assert all[k - 1] == before[|before| - 1];
    }
  }

  /** `idx` counts up within a sequence and restarts at a new one. */
  lemma IndexAt(events: seq<Event>, k: nat)
    requires k < |events|
    ensures Indices(events)[k]
         == if k > 0 && events[k - 1].Seq() == events[k].Seq() then Indices(events)[k - 1] + 1 else 0
  {
    IndicesPrefix(events, k + 1);
    var upto := events[..k + 1];
    assert upto[..k] == events[..k];
    IndicesPrefix(events, k);
    assert Indices(events)[k] == Indices(events)[..k + 1][k];
    if k > 0 { assert Indices(events)[k - 1] == Indices(events)[..k][k - 1]; }
  }

  /** Positional keys on any page that starts at a sequence boundary are the published keys. */
  lemma {:induction false} KeysByPosition(base: nat, before: seq<Event>, bs: seq<seq<Event>>)
    requires BatchedFrom(base, bs) && (before != [] ==> before[|before| - 1].Seq() == base)
    ensures Keyed(before + Flat(bs)) == Keyed(before) + EntriesFrom(base, bs)
    decreases |bs|
  {
    hide Keyed;
    if bs == [] {
      assert before + Flat(bs) == before;
    } else {
      TailBatched(base, bs);
      hide BatchedFrom, AllOf;
      KeysByPosition(base + 1, before + bs[0], bs[1..]);
      KeyedBatch(before, bs[0], base + 1);
      hide BatchEntries;
      Regroup(before, bs[0], Flat(bs[1..]));
      Regroup(Keyed(before), BatchEntries(base + 1, bs[0]), EntriesFrom(base + 1, bs[1..]));
    }
  }

  lemma Regroup<T>(a: seq<T>, b: seq<T>, c: seq<T>)
    ensures a + (b + c) == a + b + c
  {
  }

  lemma KeyedBatch(before: seq<Event>, batch: seq<Event>, s: nat)
    requires AllOf(s, batch) && (before != [] ==> before[|before| - 1].Seq() != s)
    ensures Keyed(before + batch) == Keyed(before) + BatchEntries(s, batch)
  {
    hide Indices;
    var all := before + batch;
    IndicesPrefix(all, |before|);
    assert all[..|before|] == before;
    forall k | 0 <= k < |all|
      ensures Indices(all)[k] == if k < |before| then Indices(before)[k] else k - |before|
      ensures k >= |before| ==> all[k].Seq() == s
    {
      if k >= |before| {
        IndicesOfBatch(before, batch, s, k - |before|);
        assert batch[k - |before|] in batch;
      } else {
        assert Indices(all)[k] == Indices(all)[..|before|][k];
      }
    }
  }

  // ------------------------------------------------------------------ reading everything, page by page

  /** The page served for a position: the same whether from memory or from a replay. */
  function Page(bs: seq<seq<Event>>, after: nat, limit: nat): seq<Event> {
    TakeWhole(After(Flat(bs), after), limit)
  }

  /** A page is a whole number of batches, starting with the first after `after`: as many as it takes to reach the
      limit, so it exceeds it by less than one command's events. */
  lemma {:induction false} PageShape(bs: seq<seq<Event>>, after: nat, limit: nat) returns (k: nat)
    requires Batched(bs) && after <= |bs|
    ensures after <= k <= |bs| && Page(bs, after, limit) == Flat(bs[after..k])
    ensures limit >= 1 && after < |bs| ==> k > after
    ensures k < |bs| ==> |Page(bs, after, limit)| >= limit
    ensures k > after ==> |Flat(bs[after..k - 1])| < limit
    ensures Keyed(Page(bs, after, limit)) == EntriesFrom(after, bs[after..k])
  {
    k := PageIsSlice(bs, after, limit);
    hide Page, Flat, EntriesFrom;
    var part := bs[after..k];
    SliceIsBatched(bs, after, k);
    KeysByPosition(after, [], part);
    assert [] + Flat(part) == Flat(part);
    assert Keyed([]) + EntriesFrom(after, part) == EntriesFrom(after, part);
  }

  lemma SliceIsBatched(bs: seq<seq<Event>>, after: nat, k: nat)
    requires Batched(bs) && after <= k <= |bs|
    ensures BatchedFrom(after, bs[after..k])
  {
    var part := bs[after..k];
    assert forall i :: 0 <= i < |part| ==> part[i] == bs[after + i];
  }

  lemma PageIsSlice(bs: seq<seq<Event>>, after: nat, limit: nat) returns (k: nat)
    requires Batched(bs) && after <= |bs|
    ensures after <= k <= |bs| && Page(bs, after, limit) == Flat(bs[after..k])
    ensures limit >= 1 && after < |bs| ==> k > after
    ensures k < |bs| ==> |Page(bs, after, limit)| >= limit
    ensures k > after ==> |Flat(bs[after..k - 1])| < limit
  {
    AfterIsSuffix(0, bs, after);
    var tail := bs[after..];
    SliceIsBatched(bs, after, |bs|);
    assert bs[after..|bs|] == tail;
    var n := PageIsBatches(after, [], tail, limit);
    k := after + n;
    assert Flat([]) == [];
    hide Flat, BatchedFrom, TakeFrom;
    assert tail[..n] == bs[after..k] && [] + Flat(tail[..n]) == Flat(tail[..n]);
    if n > 0 {
      assert tail[..n - 1] == bs[after..k - 1] && [] + Flat(tail[..n - 1]) == Flat(tail[..n - 1]);
    } else {
      assert tail[..n] == [];
    }
  }

  lemma {:induction false} FlatNonEmpty(base: nat, bs: seq<seq<Event>>)
    requires BatchedFrom(base, bs)
    ensures Flat(bs) == [] <==> bs == []
    ensures bs != [] ==> Flat(bs)[|Flat(bs)| - 1].Seq() == base + |bs|
    decreases |bs|
  {
    if bs == [] {
    } else {
      TailBatched(base, bs);
      FlatNonEmpty(base + 1, bs[1..]);
      assert bs[1..] == [] ==> Flat(bs) == bs[0];
    }
  }

  /** Asking again from the last sequence of each page reads the exact stream, with the published
      key of every event, for any page limit of at least one. */
  method ReadAll(bs: seq<seq<Event>>, start: nat, limit: nat) returns (out: seq<Entry>)
    requires Batched(bs) && start <= |bs| && limit >= 1
    ensures out == EntriesFrom(start, bs[start..])
  {
    out := [];
    var after := start;
    assert bs[start..start] == [] && EntriesFrom(start, []) == [];
    hide Batched, EntriesFrom, Page, Keyed;
    while true
      invariant start <= after <= |bs| && out == EntriesFrom(start, bs[start..after])
      decreases |bs| - after
    {
      ghost var k := NextPage(bs, start, after, limit);
      var page := Page(bs, after, limit);
      if page == [] {
        assert bs[start..after] == bs[start..];
        return;
      }
      out := out + Keyed(page);
      after := page[|page| - 1].Seq();
    }
  }

  /** One page further: it is empty only at the end, and otherwise ends with the sequence to ask from next. */
  lemma NextPage(bs: seq<seq<Event>>, start: nat, after: nat, limit: nat) returns (k: nat)
    requires Batched(bs) && start <= after <= |bs| && limit >= 1
    ensures var page := Page(bs, after, limit);
      && after <= k <= |bs| && (page == [] ==> after == |bs|)
      && (page != [] ==> k > after && page[|page| - 1].Seq() == k)
      && EntriesFrom(start, bs[start..after]) + Keyed(page) == EntriesFrom(start, bs[start..k])
  {
    k := PageShape(bs, after, limit);
    var part := bs[after..k];
    SliceIsBatched(bs, after, k);
    FlatNonEmpty(after, part);
    EntriesAppend(start, bs[start..after], part);
    assert bs[start..after] + part == bs[start..k];
    hide BatchedFrom, EntriesFrom, Flat, Page, Keyed;
  }

  lemma {:induction false} EntriesAppend(base: nat, a: seq<seq<Event>>, b: seq<seq<Event>>)
    ensures EntriesFrom(base, a + b) == EntriesFrom(base, a) + EntriesFrom(base + |a|, b)
    decreases |a|
  {
    if a == [] {
      assert a + b == b;
    } else {
      assert (a + b)[1..] == a[1..] + b;
      EntriesAppend(base + 1, a[1..], b);
    }
  }

  /** `(seq, idx)` names one event: no two entries of a run share a key. */
  lemma {:induction false} KeysUnique(base: nat, bs: seq<seq<Event>>, i: nat, j: nat)
    requires i < j < |EntriesFrom(base, bs)|
    ensures var all := EntriesFrom(base, bs);
      (all[i].seqNo, all[i].idx) != (all[j].seqNo, all[j].idx)
    decreases |bs|
  {
    var n := |bs[0]|;
    if i < n <= j {
      LaterKeys(base + 1, bs[1..], j - n);
    } else if n <= i {
      KeysUnique(base + 1, bs[1..], i - n, j - n);
    }
  }

  lemma {:induction false} LaterKeys(base: nat, bs: seq<seq<Event>>, k: nat)
    requires k < |EntriesFrom(base, bs)|
    ensures EntriesFrom(base, bs)[k].seqNo > base
    decreases |bs|
  {
    if k < |bs[0]| {
    } else {
      LaterKeys(base + 1, bs[1..], k - |bs[0]|);
    }
  }

  // ------------------------------------------------------------------ one entry after another

  lemma {:induction false} EntryInBounds(base: nat, bs: seq<seq<Event>>, j: nat)
    requires j < |EntriesFrom(base, bs)|
    ensures var e := EntriesFrom(base, bs)[j];
      base < e.seqNo <= base + |bs| && e.idx < |bs[e.seqNo - base - 1]| && e.event == bs[e.seqNo - base - 1][e.idx]
    decreases |bs|
  {
    if j < |bs[0]| {
    } else {
      EntryInBounds(base + 1, bs[1..], j - |bs[0]|);
    }
  }

  /** The entry after one is the next position of its sequence, or the first of the next sequence. */
  lemma {:induction false} EntryNext(base: nat, bs: seq<seq<Event>>, j: nat)
    requires BatchedFrom(base, bs) && j + 1 < |EntriesFrom(base, bs)|
    ensures var d, e := EntriesFrom(base, bs)[j], EntriesFrom(base, bs)[j + 1];
      && base < d.seqNo <= base + |bs|
      && if d.idx + 1 < |bs[d.seqNo - base - 1]| then e.seqNo == d.seqNo && e.idx == d.idx + 1
         else d.idx + 1 == |bs[d.seqNo - base - 1]| && e.seqNo == d.seqNo + 1 && e.idx == 0
    decreases |bs|
  {
    var n := |bs[0]|;
    TailBatched(base, bs);
    if j >= n {
      EntryNext(base + 1, bs[1..], j - n);
    } else if j == n - 1 {
      TailBatched(base + 1, bs[1..]);
      assert EntriesFrom(base, bs)[n] == EntriesFrom(base + 1, bs[1..])[0];
    }
  }

  /** The last entry is the last position of the last sequence. */
  lemma {:induction false} EntryLast(base: nat, bs: seq<seq<Event>>)
    requires BatchedFrom(base, bs) && bs != []
    ensures var all := EntriesFrom(base, bs);
      all != [] && all[|all| - 1].seqNo == base + |bs| && all[|all| - 1].idx + 1 == |bs[|bs| - 1]|
    decreases |bs|
  {
    TailBatched(base, bs);
    if |bs| <= 1 {
    } else {
      EntryLast(base + 1, bs[1..]);
    }
  }
}
