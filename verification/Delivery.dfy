/** The settlement worker end to end: a consumer group over the published stream, and the sequenced
    consumer behind it. The group remembers what it delivered and what was never acknowledged. */
module Delivery {
  import opened MatchingTypes
  import opened EventStream
  import opened StreamOffsets
  import opened Consumer

  // ------------------------------------------------------------------ what a prefix of the stream holds

  lemma {:induction false} DedupOfPrefix(stream: seq<Entry>, j: nat)
    requires j <= |stream|
    ensures Dedup(stream[..j]) <= Dedup(stream)
  {
    if j == |stream| {
      assert stream[..j] == stream;
    } else {
      var last := |stream| - 1;
      DedupOfPrefix(stream[..last], j);
      assert stream[..last][..j] == stream[..j];
    }
  }

  lemma {:induction false} KeptFromStream(stream: seq<Entry>, e: Entry)
    ensures e in Dedup(stream) ==> e in stream
    ensures e in stream ==> HasKey(Dedup(stream), e)
  {
    if stream == [] {
    } else {
      var last := |stream| - 1;
      assert stream == stream[..last] + [stream[last]];
      KeptFromStream(stream[..last], e);
      if HasKey(Dedup(stream[..last]), e) {
        var x :| x in Dedup(stream[..last]) && x.seqNo == e.seqNo && x.idx == e.idx;
        assert x in Dedup(stream);
      } else if e == stream[last] {
        assert e in Dedup(stream);
      }
    }
  }

  /** An entry of the stream is one the engine emitted, at a place the deduplicated stream reaches. */
  lemma PlaceOf(bs: seq<seq<Event>>, stream: seq<Entry>, e: Entry) returns (p: nat)
    requires Dedup(stream) <= Entries(bs) && e in stream
    ensures p < |Dedup(stream)| && Dedup(stream)[p] == Entries(bs)[p] && KeyOf(Entries(bs)[p]) == KeyOf(e)
  {
    KeptFromStream(stream, e);
    hide Dedup, EntriesFrom;
    var d := Dedup(stream);
    var x :| x in d && x.seqNo == e.seqNo && x.idx == e.idx;
    p :| 0 <= p < |d| && d[p] == x;
  }

  lemma EarlierPlace(bs: seq<seq<Event>>, p: nat, t: Key) returns (q: nat)
    requires InStream(bs, t) && p < |Entries(bs)| && Less(t, KeyOf(Entries(bs)[p]))
    ensures q < p && KeyOf(Entries(bs)[q]) == t
  {
    q := KeyHasEntry(0, bs, t);
    hide EntriesFrom;
    if q > p { EntriesIncrease(0, bs, p, q); }
  }

  /** Everything in the stream is an event the engine emitted. */
  lemma StreamKeysEmitted(bs: seq<seq<Event>>, stream: seq<Entry>, e: Entry)
    requires Dedup(stream) <= Entries(bs) && e in stream
    ensures InStream(bs, KeyOf(e))
  {
    hide Dedup, EntriesFrom;
    var p := PlaceOf(bs, stream, e);
    EntryInBounds(0, bs, p);
  }

  /** Before a sequence's first event, the stream holds the last event of the sequence before. */
  lemma TailComesFirst(bs: seq<seq<Event>>, stream: seq<Entry>, k: Key) returns (j: nat)
    requires Batched(bs) && Dedup(stream) <= Entries(bs) && stream != [] && KeyOf(stream[|stream| - 1]) == k
    requires k.idx == 0 && 2 <= k.seqNo <= |bs|
    ensures j < |stream| && bs[k.seqNo - 2] != []
    ensures KeyOf(stream[j]) == Key(k.seqNo - 1, |bs[k.seqNo - 2]| - 1)
  {
    var t := Key(k.seqNo - 1, |bs[k.seqNo - 2]| - 1);
    hide Dedup, EntriesFrom, BatchedFrom;
    var p := PlaceOf(bs, stream, stream[|stream| - 1]);
    var q := EarlierPlace(bs, p, t);
    var d := Dedup(stream);
    assert d[q] == Entries(bs)[q] && d[q] in d;
    KeptFromStream(stream, d[q]);
    j :| 0 <= j < |stream| && stream[j] == d[q];
  }

  // ------------------------------------------------------------------ the consumer group

  function Without(ids: seq<nat>, gone: set<nat>): seq<nat> {
    if ids == [] then []
    else if ids[0] in gone then Without(ids[1..], gone)
    else [ids[0]] + Without(ids[1..], gone)
  }

  ghost predicate Rising(ids: seq<nat>) { forall i, j :: 0 <= i < j < |ids| ==> ids[i] < ids[j] }

  lemma {:induction false} WithoutKeeps(ids: seq<nat>, gone: set<nat>)
    requires Rising(ids)
    ensures Rising(Without(ids, gone))
    ensures forall i :: i in Without(ids, gone) <==> i in ids && i !in gone
  {
    if ids == [] {
    } else {
      var rest := Without(ids[1..], gone);
      WithoutKeeps(ids[1..], gone);
      assert ids == [ids[0]] + ids[1..];
      forall j | 0 <= j < |rest| ensures ids[0] < rest[j] {
        assert rest[j] in rest && rest[j] in ids[1..];
      }
    }
  }

  /** Whatever precedes an entry of the read in the stream is covered, or in the read too. */
  ghost predicate NothingAhead(stream: seq<Entry>, offset: Key, ids: seq<nat>) {
    forall i, j :: i in ids && 0 <= j < i < |stream| ==> AtMost(KeyOf(stream[j]), offset) || j in ids
  }

  function Range(from: nat, n: nat): (r: seq<nat>)
    ensures |r| == n && (forall i :: 0 <= i < n ==> r[i] == from + i)
    ensures forall i :: i in r <==> from <= i < from + n
  {
    if n == 0 then [] else Range(from, n - 1) + [from + n - 1]
  }

  /** Stream positions stand for entry ids. */
  class GroupSource {
    /** How far the group has delivered. */
    var delivered: nat
    /** Delivered and never acknowledged, oldest first. */
    var pending: seq<nat>
    /** Still reading what was pending when this connection was made: the cursor is `0`, not `>`. */
    var draining: bool

    ghost predicate Valid(stream: seq<Entry>)
      reads this
    {
      delivered <= |stream| && Rising(pending) && forall i :: i in pending ==> i < delivered
    }

    /** Everything delivered is covered by the offset, or is still pending. */
    ghost predicate Tracks(stream: seq<Entry>, offset: Key)
      reads this
    {
      && Valid(stream)
      && forall i :: 0 <= i < delivered && i !in pending ==> AtMost(KeyOf(stream[i]), offset)
    }

    /** The next read cannot run ahead of something left pending. */
    ghost predicate Ready(stream: seq<Entry>, offset: Key)
      reads this
    {
      && Tracks(stream, offset)
      && (draining || forall i :: i in pending ==> AtMost(KeyOf(stream[i]), offset))
    }

    /** What a read delivers: the oldest unacknowledged entries while it drains, new ones otherwise. */
    function NextIds(stream: seq<Entry>, count: nat): (r: seq<nat>)
      requires delivered <= |stream|
      reads this
      ensures Valid(stream) ==> forall i :: i in r ==> i < |stream|
    {
      if draining && pending != [] then
        var oldest := pending[..Min(count, |pending|)];
        assert forall i :: i in oldest ==> i in pending;
        oldest
      else Range(delivered, Min(count, |stream| - delivered))
    }

    constructor (ghost stream: seq<Entry>, ghost offset: Key)
      ensures Ready(stream, offset) && delivered == 0 && pending == []
    {
      delivered, pending, draining := 0, [], true;
    }

    /** A new connection of the same consumer: what is pending comes first. */
    method Reconnect(ghost stream: seq<Entry>, ghost offset: Key)
      requires Tracks(stream, offset)
      modifies this
      ensures Ready(stream, offset) && delivered == old(delivered) && pending == old(pending)
    {
      draining := true;
    }

    /** The next entries: first what was delivered and never acknowledged, then new ones. None when the
        stream or the group is gone, and the group then starts again from the beginning. */
    method Read(stream: seq<Entry>, count: nat, gone: bool, ghost offset: Key) returns (ids: Option<seq<nat>>)
      requires Tracks(stream, offset) && count >= 1
      modifies this
      ensures Tracks(stream, offset) && (ids.None? <==> gone)
      ensures ids.Some? ==> forall i :: i in ids.value ==> i in pending
      ensures ids.None? ==> Ready(stream, offset)
      ensures ids.Some? && old(Ready(stream, offset)) ==> NothingAhead(stream, offset, ids.value)
      ensures ids.Some? && !draining && old(Ready(stream, offset)) ==>
        forall i :: i in pending ==> AtMost(KeyOf(stream[i]), offset) || i in ids.value
      ensures ids.Some? ==> ids.value == old(NextIds(stream, count))
      ensures ids.Some? && old(!draining || pending == []) ==> pending == old(pending) + ids.value && !draining
    {
      if gone {
        delivered, pending, draining := 0, [], true;
        return None;
      }
      if draining {
        var oldest := pending[..Min(count, |pending|)];
        if oldest != [] { return Some(oldest); }
        draining := false;
      }
      var n := Min(count, |stream| - delivered);
      var next := Range(delivered, n);
      assert forall i :: 0 <= i < |pending| ==> pending[i] in pending;
      delivered, pending := delivered + n, pending + next;
      return Some(next);
    }

    /** Acknowledged entries leave the pending list. */
    method Ack(done: set<nat>, ghost stream: seq<Entry>, ghost offset: Key)
      requires Valid(stream)
      requires forall i :: 0 <= i < delivered && (i !in pending || i in done) ==> AtMost(KeyOf(stream[i]), offset)
      modifies this`pending
      ensures Tracks(stream, offset)
      ensures forall i :: i in pending <==> i in old(pending) && i !in done
    {
      WithoutKeeps(pending, done);
      pending := Without(pending, done);
    }
  }

  function Keys(stream: seq<Entry>, ids: seq<nat>): (r: seq<Key>)
    requires forall i :: i in ids ==> i < |stream|
    ensures |r| == |ids| && forall n :: 0 <= n < |ids| ==> ids[n] < |stream| && r[n] == KeyOf(stream[ids[n]])
  {
    assert forall n :: 0 <= n < |ids| ==> ids[n] in ids;
    seq(|ids|, n requires 0 <= n < |ids| => KeyOf(stream[ids[n]]))
  }

  lemma TailInRead(bs: seq<seq<Event>>, stream: seq<Entry>, offset: Key, ids: seq<nat>, n: nat)
    requires Batched(bs) && Dedup(stream) <= Entries(bs) && NothingAhead(stream, offset, ids)
    requires (forall i :: i in ids ==> i < |stream|) && n < |ids|
    requires var k := Keys(stream, ids)[n]; k.idx == 0 && 2 <= k.seqNo <= |bs|
    ensures var k := Keys(stream, ids)[n];
      bs[k.seqNo - 2] != []
      && var last := Key(k.seqNo - 1, |bs[k.seqNo - 2]| - 1); AtMost(last, offset) || last in Keys(stream, ids)
  {
    hide Dedup, EntriesFrom, BatchedFrom;
    var i := ids[n];
    var upTo := stream[..i + 1];
    DedupOfPrefix(stream, i + 1);
    var j := TailComesFirst(bs, upTo, Keys(stream, ids)[n]);
    assert upTo[j] == stream[j] && i in ids && j != i;
    if j in ids {
      var m :| 0 <= m < |ids| && ids[m] == j;
      assert Keys(stream, ids)[m] == KeyOf(stream[j]);
    }
  }

  /** A read that leaves nothing behind delivers every sequence's tail in time. */
  lemma {:induction false} NothingAheadIsTailsFirst(bs: seq<seq<Event>>, stream: seq<Entry>, offset: Key, ids: seq<nat>)
    requires Batched(bs) && Dedup(stream) <= Entries(bs) && NothingAhead(stream, offset, ids)
    requires forall i :: i in ids ==> i < |stream|
    ensures TailsFirst(bs, offset, Keys(stream, ids))
  {
    hide Dedup, EntriesFrom, BatchedFrom, NothingAhead;
    var read := Keys(stream, ids);
    forall k | k in read && k.idx == 0 && 2 <= k.seqNo <= |bs| && bs[k.seqNo - 2] != []
      ensures var last := Key(k.seqNo - 1, |bs[k.seqNo - 2]| - 1); AtMost(last, offset) || last in read
    {
      var n :| 0 <= n < |read| && read[n] == k;
      TailInRead(bs, stream, offset, ids, n);
    }
  }

  // ------------------------------------------------------------------ the worker

  /** The ids of a read whose keys were acknowledged. */
  function Done(stream: seq<Entry>, ids: seq<nat>, acked: seq<Key>): set<nat>
    requires forall i :: i in ids ==> i < |stream|
  {
    set i | i in ids && KeyOf(stream[i]) in acked
  }

  /** What one pass of the worker meets: what the engine has emitted and published by then, and how it goes. */
  datatype Pass = Pass(
    bs: seq<seq<Event>>, stream: seq<Entry>, count: nat, gone: bool, lastSeq: Option<nat>, answers: nat -> bool,
    outcomes: Key -> Outcome)
  {
    ghost predicate Valid() { Batched(bs) && Dedup(stream) <= Entries(bs) && count >= 1 }
  }

  lemma ReadKeysEmitted(bs: seq<seq<Event>>, stream: seq<Entry>, ids: seq<nat>)
    requires Dedup(stream) <= Entries(bs) && forall i :: i in ids ==> i < |stream|
    ensures forall k :: k in Keys(stream, ids) ==> InStream(bs, k)
  {
    hide Dedup, EntriesFrom;
    var read := Keys(stream, ids);
    forall k | k in read ensures InStream(bs, k) {
      var n :| 0 <= n < |read| && read[n] == k;
      StreamKeysEmitted(bs, stream, stream[ids[n]]);
    }
  }

  /** Read, apply, acknowledge. As long as the source cannot run ahead of what it left pending, nothing is
      lost; and a pass that acknowledges all it read leaves it so. In any case a pass loses an event exactly
      when what it reads does, and what is lost stays lost. */
  method Cycle(source: GroupSource, consumer: SequencedConsumer, pass: Pass, pageSize: nat) returns (complete: bool)
    requires pass.Valid() && pageSize >= 1
    requires consumer.IsSound(pass.bs) && source.Tracks(pass.stream, consumer.offset)
    modifies source, consumer
    ensures consumer.IsSound(pass.bs) && source.Tracks(pass.stream, consumer.offset)
    ensures old(consumer.IsLossless(pass.bs) && source.Ready(pass.stream, consumer.offset)) ==>
      consumer.IsLossless(pass.bs) && (complete ==> source.Ready(pass.stream, consumer.offset))
    ensures !old(consumer.IsLossless(pass.bs)) ==> !consumer.IsLossless(pass.bs)
    ensures old(consumer.IsLossless(pass.bs) && !consumer.halted) && !pass.gone ==>
      var read := Keys(pass.stream, old(source.NextIds(pass.stream, pass.count)));
      consumer.IsLossless(pass.bs) <==> !Loses(pass.bs, old(consumer.offset), SortKeys(read), pass.outcomes)
  {
    hide Dedup, EntriesFrom, BatchedFrom, InStream, Loses, TailsFirst, NothingAhead;
    hide SequencedConsumer.IsSound, SequencedConsumer.IsLossless, Chain, SortKeys, UpToFirstFailure, Reaches;
    if consumer.halted { return true; }
    ghost var was := consumer.offset;
    var ids := source.Read(pass.stream, pass.count, pass.gone, was);
    if ids.None? {
      var _ := consumer.RunOnce(pass.bs, None, pass.lastSeq, pass.answers, pageSize, pass.outcomes);
      return true;
    }
    var read := Keys(pass.stream, ids.value);
    ReadKeysEmitted(pass.bs, pass.stream, ids.value);
    if NothingAhead(pass.stream, was, ids.value) {
      NothingAheadIsTailsFirst(pass.bs, pass.stream, was, ids.value);
    }
    var acked := consumer.RunOnce(pass.bs, Some(read), pass.lastSeq, pass.answers, pageSize, pass.outcomes);
    var done := Done(pass.stream, ids.value, acked);
    source.Ack(done, pass.stream, consumer.offset);
    complete := forall i :: i in ids.value ==> i in done;
  }

  // ------------------------------------------------------------------ whole runs of the worker

  /** Passes over an engine that goes on emitting and a stream that goes on growing. */
  ghost predicate Unfolds(passes: seq<Pass>) {
    && (forall i :: 0 <= i < |passes| ==> passes[i].Valid())
    && (forall i :: 0 < i < |passes| ==> passes[i - 1].bs <= passes[i].bs && passes[i - 1].stream <= passes[i].stream)
  }

  lemma TracksGrows(source: GroupSource, stream: seq<Entry>, more: seq<Entry>, offset: Key)
    requires source.Tracks(stream, offset) && stream <= more
    ensures source.Tracks(more, offset)
    ensures source.Ready(stream, offset) ==> source.Ready(more, offset)
  {
  }

  lemma ConsumerGrows(consumer: SequencedConsumer, bs: seq<seq<Event>>, more: seq<seq<Event>>)
    requires consumer.IsSound(bs) && bs <= more
    ensures consumer.IsSound(more)
    ensures consumer.IsLossless(bs) ==> consumer.IsLossless(more)
  {
    assert more == bs + more[|bs|..];
    if consumer.IsLossless(bs) {
      LosslessGrows(bs, more[|bs|..], consumer.start, consumer.offset, consumer.log);
    }
  }

  lemma LosslessIsSound(consumer: SequencedConsumer, bs: seq<seq<Event>>)
    requires consumer.IsLossless(bs)
    ensures consumer.IsSound(bs)
  {
  }

  lemma ReadyTracks(source: GroupSource, stream: seq<Entry>, offset: Key)
    requires source.Ready(stream, offset)
    ensures source.Tracks(stream, offset)
  {
  }

  /** Whatever fails, is redelivered or is published again: a run in which every pass that left something
      unacknowledged is followed by a new connection applies every event once, in order, up to its offset. */
  method Work(source: GroupSource, consumer: SequencedConsumer, passes: seq<Pass>, reconnects: seq<bool>, pageSize: nat)
    returns (complete: seq<bool>)
    requires passes != [] && Unfolds(passes) && |reconnects| == |passes| && pageSize >= 1
    requires consumer.IsLossless(passes[0].bs) && source.Ready(passes[0].stream, consumer.offset)
    modifies source, consumer
    ensures |complete| == |passes|
    ensures var bs := passes[|passes| - 1].bs;
      && consumer.IsSound(bs)
      && ((forall i :: 0 < i < |passes| && !complete[i - 1] ==> reconnects[i]) ==> consumer.IsLossless(bs))
  {
    hide GroupSource.Tracks, GroupSource.Ready, SequencedConsumer.IsSound, Pass.Valid;
    LosslessIsSound(consumer, passes[0].bs);
    ReadyTracks(source, passes[0].stream, consumer.offset);
    hide SequencedConsumer.IsLossless;
    complete := [];
    ghost var good := true;
    for i := 0 to |passes|
      invariant |complete| == i
      invariant var now := passes[if i == 0 then 0 else i - 1];
        && consumer.IsSound(now.bs) && source.Tracks(now.stream, consumer.offset)
        && (good ==> consumer.IsLossless(now.bs))
        && (good && (i == 0 || complete[i - 1]) ==> source.Ready(now.stream, consumer.offset))
      invariant good <==> forall j :: 0 < j < i && !complete[j - 1] ==> reconnects[j]
    {
      var pass := passes[i];
      if i > 0 {
        ConsumerGrows(consumer, passes[i - 1].bs, pass.bs);
        TracksGrows(source, passes[i - 1].stream, pass.stream, consumer.offset);
        good := good && (complete[i - 1] || reconnects[i]);
      }
      if reconnects[i] { source.Reconnect(pass.stream, consumer.offset); }
      var done := Cycle(source, consumer, pass, pageSize);
      complete := complete + [done];
    }
  }

  // ------------------------------------------------------------------ exactly once

  lemma HasFirst(keys: seq<Key>)
    requires keys != []
    ensures exists k :: k in keys
  {
    assert keys[0] in keys;
  }

  /** Two increasing lists of the same keys are the same list. */
  lemma {:induction false} SameKeys(a: seq<Key>, b: seq<Key>)
    requires Consumer.Increasing(a) && Consumer.Increasing(b) && forall k :: k in a <==> k in b
    ensures a == b
  {
    if a == [] {
      if b != [] { HasFirst(b); }
    } else {
      var x, y := |a| - 1, |b| - 1;
      assert a[x] in b && b != [] && b[y] in a;
      assert a[x] == b[y];
      forall k ensures k in a[..x] <==> k in b[..y] {
        if k in a[..x] { var i :| 0 <= i < x && a[i] == k; assert k in b && k != b[y]; }
        if k in b[..y] { var i :| 0 <= i < y && b[i] == k; assert k in a && k != a[x]; }
      }
      SameKeys(a[..x], b[..y]);
      assert a == a[..x] + [a[x]] && b == b[..y] + [b[y]];
    }
  }

  function AllKeys(entries: seq<Entry>): (r: seq<Key>)
    ensures |r| == |entries| && forall i :: 0 <= i < |entries| ==> r[i] == KeyOf(entries[i])
  {
    seq(|entries|, i requires 0 <= i < |entries| => KeyOf(entries[i]))
  }

  /** A worker that started at the beginning, lost nothing and is caught up has applied exactly the
      engine's events: each one, once, in the engine's order. */
  lemma {:induction false} ExactlyOnce(bs: seq<seq<Event>>, offset: Key, log: seq<Key>)
    requires Lossless(bs, Key(0, 0), offset, log) && AllCovered(bs, offset)
    ensures log == AllKeys(Entries(bs))
  {
    var all := AllKeys(Entries(bs));
    forall i, j | 0 <= i < j < |all| ensures Less(all[i], all[j]) {
      EntriesIncrease(0, bs, i, j);
    }
    forall k ensures k in log <==> k in all {
      if k in log {
        var j := KeyHasEntry(0, bs, k);
        assert all[j] == k;
      }
      if k in all {
        var j :| 0 <= j < |all| && all[j] == k;
        EntryInBounds(0, bs, j);
        assert InStream(bs, k);
      }
    }
    SameKeys(log, all);
  }

  /** Caught up: the whole of a complete stream was delivered and nothing is left uncovered. */
  lemma {:induction false} CaughtUp(source: GroupSource, bs: seq<seq<Event>>, stream: seq<Entry>, offset: Key)
    requires Dedup(stream) == Entries(bs) && source.Ready(stream, offset) && !source.draining
    requires source.delivered == |stream|
    ensures AllCovered(bs, offset)
  {
    hide Dedup, EntriesFrom;
    forall m | InStream(bs, m) ensures AtMost(m, offset) {
      var j := KeyHasEntry(0, bs, m);
      var e := Entries(bs)[j];
      assert e in Dedup(stream);
      KeptFromStream(stream, e);
      var i :| 0 <= i < |stream| && stream[i] == e;
    }
  }

  // ------------------------------------------------------------------ without the new connection

  lemma OneKey(k: Key)
    ensures SortKeys([k]) == [k]
  {
    assert [k][..0] == [];
    assert SortKeys([]) == [];
    assert [] + [k] == [k];
  }

  lemma TwoKeys(k: Key, l: Key)
    requires AtMost(k, l)
    ensures SortKeys([k, l]) == [k, l]
  {
    OneKey(k);
    assert [k, l][..1] == [k] && [k] + [l] == [k, l];
  }

  /** Three events, published in order. */
  lemma ThreeEntries(a: Event, b: Event, c: Event)
    requires a.Seq() == b.Seq() == 1 && c.Seq() == 2
    ensures Batched([[a, b]]) && Batched([[a, b], [c]])
    ensures Entries([[a, b]]) == [Entry(1, 0, a), Entry(1, 1, b)]
    ensures Entries([[a, b], [c]]) == [Entry(1, 0, a), Entry(1, 1, b), Entry(2, 0, c)]
    ensures KeyOf(Entry(1, 0, a)) == Key(1, 0) && KeyOf(Entry(1, 1, b)) == Key(1, 1)
      && KeyOf(Entry(2, 0, c)) == Key(2, 0)
    ensures InStream([[a, b], [c]], Key(1, 1)) && Less(Key(0, 0), Key(1, 1)) && AtMost(Key(1, 1), Key(2, 0))
  {
    assert [[a, b]][1..] == [] && [[a, b], [c]][1..] == [[c]] && [[c]][1..] == [];
    assert BatchEntries(1, [a, b]) == [Entry(1, 0, a), Entry(1, 1, b)];
    assert Entries([[a, b]]) == BatchEntries(1, [a, b]) + EntriesFrom(1, []) == BatchEntries(1, [a, b]);
    assert EntriesFrom(1, [[c]]) == BatchEntries(2, [c]) + EntriesFrom(2, []) == [Entry(2, 0, c)];
  }

  lemma FirstApplied(k: Key, l: Key, outcomes: Key -> Outcome, acked: seq<Key>, halted: bool, from: Key, to: Key,
                     log: seq<Key>)
    requires outcomes(k) == Applied && outcomes(l) == Transient
    requires UpToFirstFailure([k, l], outcomes, acked, halted) && Reaches(from, [], acked, to, log)
    ensures acked == [k] && !halted && to == k && log == [k]
  {
    assert |acked| == 1 && acked[0] == k;
  }

  /** The second event fails after its retries. */
  method FailingPass(bs: seq<seq<Event>>) returns (consumer: SequencedConsumer, acked: seq<Key>)
    requires Batched(bs) && |bs| == 1 && |bs[0]| == 2
    ensures fresh(consumer) && consumer.start == Key(0, 0) && acked == [Key(1, 0)]
    ensures consumer.IsSound(bs) && !consumer.halted && consumer.offset == Key(1, 0) && consumer.log == [Key(1, 0)]
  {
    hide BatchedFrom, TailsFirst, Loses, SortKeys, SequencedConsumer.IsLossless;
    consumer := new SequencedConsumer(Key(0, 0), bs);
    LosslessIsSound(consumer, bs);
    hide SequencedConsumer.IsSound, UpToFirstFailure, Reaches;
    var fails := (k: Key) => if k == Key(1, 1) then Transient else Applied;
    TwoKeys(Key(1, 0), Key(1, 1));
    acked := consumer.RunOnce(bs, Some([Key(1, 0), Key(1, 1)]), None, a => true, 10, fails);
    FirstApplied(Key(1, 0), Key(1, 1), fails, acked, consumer.halted, Key(0, 0), consumer.offset, consumer.log);
  }

  /** Both were read and the first is acknowledged: the second stays pending. */
  method HalfAcknowledged(stream: seq<Entry>) returns (source: GroupSource)
    requires |stream| == 2 && KeyOf(stream[0]) == Key(1, 0) && KeyOf(stream[1]) == Key(1, 1)
    ensures fresh(source)
    ensures source.Tracks(stream, Key(1, 0)) && source.delivered == 2 && !source.draining
    ensures forall i :: i in source.pending <==> i == 1
  {
    hide NothingAhead;
    source := new GroupSource(stream, Key(0, 0));
    var ids := source.Read(stream, 10, false, Key(0, 0));
    source.Ack({0}, stream, Key(1, 0));
  }

  lemma SkippedIsLost(consumer: SequencedConsumer, bs: seq<seq<Event>>, k: Key)
    requires InStream(bs, k) && Less(consumer.start, k) && AtMost(k, consumer.offset) && k !in consumer.log
    ensures !consumer.IsLossless(bs)
  {
  }

  /** The next sequence is read on its own, and its first event passes for the next key. */
  method NextPass(source: GroupSource, consumer: SequencedConsumer, bs: seq<seq<Event>>, stream: seq<Entry>)
    requires Batched(bs) && |bs| == 2 && |bs[0]| == 2 && |bs[1]| == 1 && |stream| == 3 && KeyOf(stream[2]) == Key(2, 0)
    requires consumer.IsSound(bs) && !consumer.halted && consumer.offset == Key(1, 0)
    requires source.Tracks(stream, consumer.offset) && source.delivered == 2 && !source.draining
    modifies source, consumer
    ensures consumer.IsSound(bs) && !consumer.halted && consumer.offset == Key(2, 0)
    ensures consumer.log == old(consumer.log) + [Key(2, 0)]
    ensures forall i :: i in source.pending <==> i in old(source.pending) && i != 2
  {
    hide BatchedFrom, TailsFirst, Loses, NothingAhead, SortKeys, SequencedConsumer.IsLossless;
    hide SequencedConsumer.IsSound;
    var ids := source.Read(stream, 10, false, consumer.offset);
    OneKey(Key(2, 0));
    var acked := consumer.RunOnce(bs, Some([Key(2, 0)]), None, a => true, 10, k => Applied);
    assert acked == [Key(2, 0)];
    source.Ack({2}, stream, consumer.offset);
  }

  /** The lost event need not be passed over by the first key of a read. Here the stream repeats an early entry,
      as a restart with a lagging watermark does, and the repeat sorts in front of the key that skips. */
  lemma {:induction false} RepeatHidesTheSkip(z: Event, a: Event, b: Event, c: Event)
    requires z.Seq() == 1 && a.Seq() == b.Seq() == 2 && c.Seq() == 3
    ensures var bs := [[z], [a, b], [c]];
      var stream := [Entry(1, 0, z), Entry(2, 0, a), Entry(2, 1, b), Entry(3, 0, c), Entry(1, 0, z)];
      && Batched(bs) && Dedup(stream) == Entries(bs)
      && SortKeys(Keys(stream, [3, 4])) == [Key(1, 0), Key(3, 0)]
      && AtMost(Key(1, 0), Key(2, 0)) && Loses(bs, Key(2, 0), [Key(1, 0), Key(3, 0)], k => Applied)
  {
    hide Dedup, EntriesFrom, SortKeys, HasKey, Loses;
    FourEntries(z, a, b, c);
    var e := [Entry(1, 0, z), Entry(2, 0, a), Entry(2, 1, b), Entry(3, 0, c)];
    FirstRepeated([[z], [a, b], [c]], e);
    var stream := e + [e[0]];
    assert stream == [Entry(1, 0, z), Entry(2, 0, a), Entry(2, 1, b), Entry(3, 0, c), Entry(1, 0, z)];
    assert Keys(stream, [3, 4]) == [Key(3, 0), Key(1, 0)];
    SwapsKeys(Key(3, 0), Key(1, 0));
    SkipsAfterRepeat([[z], [a, b], [c]]);
  }

  lemma FirstRepeated(bs: seq<seq<Event>>, e: seq<Entry>)
    requires e == Entries(bs) && e != []
    ensures Dedup(e + [e[0]]) == e
  {
    hide Dedup, EntriesFrom;
    NoRepeats(bs, |e|);
    assert e[..|e|] == e && e[0] in e;
    DedupPush(e, e[0]);
  }

  lemma SkipsAfterRepeat(bs: seq<seq<Event>>)
    requires |bs| == 3 && |bs[1]| == 2
    ensures Loses(bs, Key(2, 0), [Key(1, 0), Key(3, 0)], k => Applied)
  {
    assert [Key(1, 0), Key(3, 0)][1..] == [Key(3, 0)];
  }

  lemma SwapsKeys(k: Key, l: Key)
    requires Less(l, k)
    ensures SortKeys([k, l]) == [l, k]
  {
    OneKey(k);
    assert [k, l][..1] == [k] && [k][..0] == [] && InsertKey([], l) == [l];
    assert InsertKey([k], l) == [l] + [k];
  }

  lemma FourEntries(z: Event, a: Event, b: Event, c: Event)
    ensures Entries([[z], [a, b], [c]]) == [Entry(1, 0, z), Entry(2, 0, a), Entry(2, 1, b), Entry(3, 0, c)]
  {
    var bs := [[z], [a, b], [c]];
    assert bs[1..] == [[a, b], [c]] && [[a, b], [c]][1..] == [[c]] && [[c]][1..] == [];
    assert BatchEntries(1, [z]) == [Entry(1, 0, z)];
    assert BatchEntries(2, [a, b]) == [Entry(2, 0, a), Entry(2, 1, b)];
    assert EntriesFrom(2, [[c]]) == BatchEntries(3, [c]) + EntriesFrom(3, []) == [Entry(3, 0, c)];
    assert EntriesFrom(1, [[a, b], [c]]) == [Entry(2, 0, a), Entry(2, 1, b)] + [Entry(3, 0, c)];
  }

  /** A stream without repeats loses nothing to the dropping of repeats. */
  lemma {:induction false} NoRepeats(bs: seq<seq<Event>>, n: nat)
    requires n <= |Entries(bs)|
    ensures Dedup(Entries(bs)[..n]) == Entries(bs)[..n]
  {
    hide EntriesFrom, HasKey;
    if n == 0 {
    } else {
      var before := Entries(bs)[..n - 1];
      NoRepeats(bs, n - 1);
      assert Entries(bs)[..n] == before + [Entries(bs)[n - 1]];
      DedupPush(before, Entries(bs)[n - 1]);
      hide Dedup;
      PublishKeepsPrefix(bs, before, n - 1);
    }
  }

  lemma DedupPush(stream: seq<Entry>, e: Entry)
    ensures Dedup(stream + [e]) == if HasKey(Dedup(stream), e) then Dedup(stream) else Dedup(stream) + [e]
  {
    assert (stream + [e])[..|stream|] == stream;
  }

  /** One transient failure is enough. The second event of a sequence fails and stays pending; the next read
      takes new entries only, the next sequence's first event passes for the next key, and the failed event
      is behind the offset for good. */
  method TransientTailIsLost(a: Event, b: Event, c: Event) returns (source: GroupSource, consumer: SequencedConsumer)
    requires a.Seq() == b.Seq() == 1 && c.Seq() == 2
    ensures consumer.start == Key(0, 0) && consumer.offset == Key(2, 0) && consumer.log == [Key(1, 0), Key(2, 0)]
    ensures !consumer.IsLossless([[a, b], [c]]) && !consumer.halted
    ensures forall i :: i in source.pending <==> i == 1
  {
    ThreeEntries(a, b, c);
    hide *;
    var bs, bs' := [[a, b]], [[a, b], [c]];
    var acked;
    consumer, acked := FailingPass(bs);
    source := HalfAcknowledged(Entries(bs));
    ConsumerGrows(consumer, bs, bs');
    TracksGrows(source, Entries(bs), Entries(bs'), consumer.offset);
    NextPass(source, consumer, bs', Entries(bs'));
    SkippedIsLost(consumer, bs', Key(1, 1));
  }
}
