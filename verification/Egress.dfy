/** The publishing side: the ring of recent events and the watermark. */
module Egress {
  import opened MatchingTypes
  import opened EventStream

  // ------------------------------------------------------------------ the ring

  function DropSeq(events: seq<Event>, s: nat): seq<Event> {
    if events != [] && events[0].Seq() == s then DropSeq(events[1..], s) else events
  }

  /** Evict the whole oldest sequence. */
  function EvictFront(events: seq<Event>): seq<Event> {
    if events == [] then [] else DropSeq(events[1..], events[0].Seq())
  }

  function RecordOne(events: seq<Event>, e: Event, capacity: nat): seq<Event> {
    (if |events| == capacity then EvictFront(events) else events) + [e]
  }

  function RecordAll(events: seq<Event>, batch: seq<Event>, capacity: nat): seq<Event> {
    if batch == [] then events
    else RecordOne(RecordAll(events, batch[..|batch| - 1], capacity), batch[|batch| - 1], capacity)
  }

  /** Events after `s`, or `None` when the ring does not reach back that far. An empty ring never
      does: it proves nothing about the journal. */
  function RingAfter(events: seq<Event>, s: nat): Option<seq<Event>> {
    if events != [] && events[0].Seq() <= s + 1 then Some(After(events, s)) else None
  }

  type Levels = map<LevelKey, nat>

  /** The levels kept beside a ring: the newest command's are added, those of evicted sequences dropped. */
  function KeepLevels(levels: map<nat, Levels>, ring: seq<Event>, batch: seq<Event>, changes: Levels)
    : map<nat, Levels>
  {
    var all := if batch == [] then levels else levels[batch[0].Seq() := changes];
    if ring == [] then all else map s | s in all && s >= ring[0].Seq() :: all[s]
  }

  function LevelsAfter(levels: map<nat, Levels>, s: nat): map<nat, Levels> {
    map q | q in levels && q > s :: levels[q]
  }

  class EventRing {
    var events: seq<Event>
    var levels: map<nat, Levels>
    const capacity: nat

    constructor (capacity: nat)
      ensures events == [] && levels == map[] && this.capacity == capacity
    {
      events, levels, this.capacity := [], map[], capacity;
    }

    method Record(batch: seq<Event>)
      modifies this`events
      ensures events == RecordAll(old(events), batch, capacity)
    {
      var i := 0;
      while i < |batch|
        invariant 0 <= i <= |batch| && events == RecordAll(old(events), batch[..i], capacity)
      {
        assert batch[..i + 1][..i] == batch[..i];
        if |events| == capacity && events != [] {
          var evicted := events[0];
          ghost var before := events;
          events := events[1..];
          while events != [] && events[0].Seq() == evicted.Seq()
            invariant DropSeq(events, evicted.Seq()) == EvictFront(before)
            decreases |events|
          {
            events := events[1..];
          }
        }
        events := events + [batch[i]];
        i := i + 1;
      }
      assert batch[..|batch|] == batch;
    }

    /** Record one command's events with the levels it changed. Every sequence the ring still holds then has
        exactly the levels its command reported, and no other sequence has any. A sequence is evicted only if the
        ring would not have held it and everything after it. */
    method RecordWithLevels(batch: seq<Event>, changes: Levels,
                            ghost bs: seq<seq<Event>>, ghost ls: seq<Levels>, ghost k: nat) returns (ghost k': nat)
      modifies this
      ensures events == RecordAll(old(events), batch, capacity)
        && levels == KeepLevels(old(levels), events, batch, changes)
      ensures old(Holds(events, bs, k) && HoldsLevels(levels, ls, k)) && RecordsNext(bs, ls, batch, capacity) ==>
        && k <= k' <= |bs| && (k' > k ==> |Flat(bs[k' - 1..])| + |batch| > capacity)
        && Holds(events, bs + [batch], k') && HoldsLevels(levels, ls + [changes], k')
    {
      k' := k;
      if Holds(events, bs, k) && HoldsLevels(levels, ls, k) && RecordsNext(bs, ls, batch, capacity) {
        k' := RecordKeepsBoth(events, levels, bs, ls, k, batch, changes, capacity);
      }
      Record(batch);
      if batch != [] { levels := levels[batch[0].Seq() := changes]; }
      if events != [] { levels := map s | s in levels && s >= events[0].Seq() :: levels[s]; }
    }

    /** The recorded level changes of every sequence after `s`: all of them, when the ring reaches back to it. */
    method LevelsSince(s: nat, ghost ls: seq<Levels>, ghost k: nat) returns (r: map<nat, Levels>)
      ensures r == LevelsAfter(levels, s)
      ensures HoldsLevels(levels, ls, k) && k <= s ==> HoldsLevels(r, ls, s)
    {
      r := map q | q in levels && q > s :: levels[q];
    }

    /** A page of events after `s`: exactly the page a journal replay would give, or nothing when the ring no
        longer reaches back that far. */
    method Since(s: nat, limit: nat, ghost bs: seq<seq<Event>>) returns (page: Option<seq<Event>>)
      ensures page.None? <==> events == [] || events[0].Seq() > s + 1
      ensures Batched(bs) && HoldsWhole(events, bs) && page.Some? ==> page.value == Page(bs, s, limit)
    {
      if events == [] || events[0].Seq() > s + 1 { return None; }
      var out := TakeWholeSequences(After(events, s), limit);
      page := Some(out);
      if Batched(bs) && HoldsWhole(events, bs) {
        ghost var k :| Holds(events, bs, k);
        RingAnswersAsJournal(events, bs, k, s);
      }
    }
  }

  /** The batch is the next command's, and fits. */
  ghost predicate RecordsNext(bs: seq<seq<Event>>, ls: seq<Levels>, batch: seq<Event>, capacity: nat) {
    && Batched(bs) && |ls| == |bs| && batch != [] && AllOf(|bs| + 1, batch)
    && (capacity == 0 || |batch| <= capacity)
  }

  /** Exactly the sequences after `k` have levels, each the ones its command reported. */
  ghost predicate HoldsLevels(levels: map<nat, Levels>, ls: seq<Levels>, k: nat) {
    forall q: nat :: (q in levels <==> k < q <= |ls|) && (q in levels ==> levels[q] == ls[q - 1])
  }

  /** The ring holds the batches from `k` on, every one of them whole. */
  ghost predicate Holds(events: seq<Event>, bs: seq<seq<Event>>, k: nat) {
    k <= |bs| && events == Flat(bs[k..])
  }

  ghost predicate HoldsWhole(events: seq<Event>, bs: seq<seq<Event>>) {
    exists k: nat :: Holds(events, bs, k)
  }

  lemma {:induction false} DropWhole(batch: seq<Event>, rest: seq<Event>, s: nat)
    requires AllOf(s, batch) && (rest != [] ==> rest[0].Seq() != s)
    ensures DropSeq(batch + rest, s) == rest
  {
    if batch == [] {
      assert batch + rest == rest;
    } else {
      assert batch[0] in batch && (batch + rest)[1..] == batch[1..] + rest;
      DropWhole(batch[1..], rest, s);
    }
  }

  /** Eviction removes exactly the oldest whole batch. */
  lemma EvictsWhole(base: nat, bs: seq<seq<Event>>, partial: seq<Event>, s: nat)
    requires BatchedFrom(base, bs) && bs != [] && AllOf(s, partial) && s > base + |bs|
    ensures EvictFront(Flat(bs) + partial) == Flat(bs[1..]) + partial
  {
    TailBatched(base, bs);
    NextHasLaterSeq(base + 1, bs[1..], partial, s);
    hide BatchedFrom, DropSeq;
    Regroup(bs[0], Flat(bs[1..]), partial);
    EvictsBatch(bs[0], Flat(bs[1..]) + partial, base + 1);
  }

  lemma EvictsBatch(batch: seq<Event>, rest: seq<Event>, s: nat)
    requires batch != [] && AllOf(s, batch) && (rest != [] ==> rest[0].Seq() != s)
    ensures EvictFront(batch + rest) == rest
  {
    assert batch[0] in batch && (batch + rest)[1..] == batch[1..] + rest;
    DropWhole(batch[1..], rest, s);
  }

  lemma NextHasLaterSeq(base: nat, bs: seq<seq<Event>>, partial: seq<Event>, s: nat)
    requires BatchedFrom(base, bs) && AllOf(s, partial) && s > base + |bs|
    ensures var rest := Flat(bs) + partial; rest != [] ==> rest[0].Seq() != base
  {
    if bs != [] {
      TailBatched(base, bs);
      assert (Flat(bs) + partial)[0] == bs[0][0];
    } else if partial != [] {
      assert partial[0] in partial;
    }
  }

  /** Recording part of a batch that fits leaves whole batches and that part. */
  lemma {:induction false} RecordPart(bs: seq<seq<Event>>, k: nat, batch: seq<Event>, s: nat, i: nat, capacity: nat)
    returns (k': nat)
    requires Batched(bs) && k <= |bs| && AllOf(s, batch) && s > |bs| && i <= |batch|
    requires capacity == 0 || |batch| <= capacity
    ensures k <= k' <= |bs| && RecordAll(Flat(bs[k..]), batch[..i], capacity) == Flat(bs[k'..]) + batch[..i]
    ensures k' > k ==> |Flat(bs[k' - 1..])| + i > capacity
  {
    if i == 0 {
      k' := k;
      assert Flat(bs[k..]) + [] == Flat(bs[k..]);
    } else {
      k' := RecordPart(bs, k, batch, s, i - 1, capacity);
      hide Flat, EvictFront, BatchedFrom, AllOf;
      assert batch[..i][..i - 1] == batch[..i - 1];
      if |Flat(bs[k'..]) + batch[..i - 1]| == capacity {
        if k' < |bs| {
          EvictsNext(bs, k', batch, s, i - 1);
          k' := k' + 1;
        } else {
          assert Flat(bs[k'..]) + batch[..i - 1] == [] by { NothingHeld(bs); }
        }
      }
      assert batch[..i] == batch[..i - 1] + [batch[i - 1]];
    }
  }

  lemma NothingHeld(bs: seq<seq<Event>>)
    ensures Flat(bs[|bs|..]) == [] && EvictFront([]) == []
  {
  }

  lemma EvictsNext(bs: seq<seq<Event>>, k: nat, batch: seq<Event>, s: nat, i: nat)
    requires Batched(bs) && k < |bs| && AllOf(s, batch) && s > |bs| && i <= |batch|
    ensures EvictFront(Flat(bs[k..]) + batch[..i]) == Flat(bs[k + 1..]) + batch[..i]
  {
    SliceBatched(0, bs, k, |bs|);
    EvictsWhole(k, bs[k..], batch[..i], s);
    assert bs[k..][1..] == bs[k + 1..];
  }

  lemma {:induction false} RecordLength(events: seq<Event>, batch: seq<Event>, capacity: nat)
    requires 0 < capacity && |events| <= capacity
    ensures |RecordAll(events, batch, capacity)| <= capacity
    ensures batch != [] ==> RecordAll(events, batch, capacity) != []
  {
    if batch == [] {
    } else {
      var before := RecordAll(events, batch[..|batch| - 1], capacity);
      RecordLength(events, batch[..|batch| - 1], capacity);
      if |before| == capacity { DropShrinks(before[1..], before[0].Seq()); }
    }
  }

  lemma {:induction false} DropShrinks(events: seq<Event>, s: nat)
    ensures |DropSeq(events, s)| <= |events|
  {
    if events != [] && events[0].Seq() == s { DropShrinks(events[1..], s); }
  }

  /** The capacity hypothesis is exact: recording a command leaves the ring holding whole sequences
      if and only if the command fits the ring - or the capacity is zero, which never evicts. */
  lemma {:induction false} RecordKeepsWholeExactly(events: seq<Event>, bs: seq<seq<Event>>, k: nat, batch: seq<Event>,
                                                   capacity: nat)
    requires Batched(bs) && batch != [] && AllOf(|bs| + 1, batch) && Holds(events, bs, k)
    requires capacity > 0 ==> |events| <= capacity
    ensures HoldsWhole(RecordAll(events, batch, capacity), bs + [batch])
       <==> capacity == 0 || |batch| <= capacity
  {
    var after := RecordAll(events, batch, capacity);
    if capacity == 0 || |batch| <= capacity {
      var k' := RecordKeepsWhole(events, bs, k, batch, capacity);
      assert Holds(after, bs + [batch], k');
    } else {
      RecordLength(events, batch, capacity);
      forall k': nat ensures !Holds(after, bs + [batch], k') {
        if k' <= |bs| { FlatEndsWith(bs, batch, k'); }
      }
    }
  }

  lemma FlatEndsWith(bs: seq<seq<Event>>, batch: seq<Event>, k: nat)
    requires k <= |bs|
    ensures Flat((bs + [batch])[k..]) == Flat(bs[k..]) + batch
  {
    assert (bs + [batch])[k..] == bs[k..] + [batch];
    FlatAppend(bs[k..], [batch]);
    assert [batch][1..] == [] && Flat([batch]) == batch;
  }

  lemma RecordKeepsWhole(events: seq<Event>, bs: seq<seq<Event>>, k: nat, batch: seq<Event>, capacity: nat)
    returns (k': nat)
    requires Batched(bs) && AllOf(|bs| + 1, batch) && Holds(events, bs, k)
    requires capacity == 0 || |batch| <= capacity
    ensures k <= k' <= |bs| && Holds(RecordAll(events, batch, capacity), bs + [batch], k')
    ensures k' > k ==> |Flat(bs[k' - 1..])| + |batch| > capacity
  {
    k' := RecordPart(bs, k, batch, |bs| + 1, |batch|, capacity);
    assert batch[..|batch|] == batch;
    FlatEndsWith(bs, batch, k');
  }

  /** Events and levels are evicted together. */
  lemma RecordKeepsBoth(events: seq<Event>, levels: map<nat, Levels>, bs: seq<seq<Event>>, ls: seq<Levels>, k: nat,
                        batch: seq<Event>, changes: Levels, capacity: nat)
    returns (k': nat)
    requires Batched(bs) && Holds(events, bs, k) && HoldsLevels(levels, ls, k) && |ls| == |bs|
    requires batch != [] && AllOf(|bs| + 1, batch) && (capacity == 0 || |batch| <= capacity)
    ensures var after := RecordAll(events, batch, capacity);
      k <= k' <= |bs| && (k' > k ==> |Flat(bs[k' - 1..])| + |batch| > capacity) && Holds(after, bs + [batch], k')
      && HoldsLevels(KeepLevels(levels, after, batch, changes), ls + [changes], k')
  {
    k' := RecordKeepsWhole(events, bs, k, batch, capacity);
    assert BatchedFrom(0, bs + [batch]) by {
      assert forall i :: 0 <= i < |bs| ==> (bs + [batch])[i] == bs[i];
    }
    var held := (bs + [batch])[k'..];
    SliceBatched(0, bs + [batch], k', |bs| + 1);
    assert held == (bs + [batch])[k'..|bs| + 1];
    TailBatched(k', held);
    assert batch[0] in batch && Flat(held)[0] == held[0][0];
    hide RecordAll, BatchedFrom, Flat;
  }

  lemma HeldBegins(k: nat, tail: seq<seq<Event>>)
    requires BatchedFrom(k, tail) && Flat(tail) != []
    ensures tail != [] && Flat(tail)[0].Seq() == k + 1
  {
    TailBatched(k, tail);
    assert Flat(tail)[0] == tail[0][0];
  }

  /** Whenever the ring answers, it answers exactly what a journal replay would. */
  lemma {:induction false} RingAnswersAsJournal(events: seq<Event>, bs: seq<seq<Event>>, k: nat, s: nat)
    requires Batched(bs) && Holds(events, bs, k) && RingAfter(events, s).Some?
    ensures RingAfter(events, s).value == After(Flat(bs), s)
  {
    hide BatchedFrom, AllOf, After;
    AfterIsSuffix(0, bs, s);
    var tail := bs[k..];
    SliceBatched(0, bs, k, |bs|);
    assert bs[k..|bs|] == tail;
    AfterIsSuffix(k, tail, s);
    HeldBegins(k, tail);
    hide Flat;
    assert k <= s;
    if s <= |bs| {
      assert tail[s - k..] == bs[s..];
    } else {
      assert tail[|tail|..] == bs[|bs|..] == [];
    }
  }

  // ------------------------------------------------------------------ the watermark

  /** The highest sequence confirmed into the stream, and the copy of it on disk. */
  class Watermark {
    var value: nat
    var persisted: nat
    var sinceSync: nat
    const syncEvery: nat

    /** The copy on disk may lag and never leads. */
    ghost predicate Valid()
      reads this
    {
      persisted <= value && (sinceSync == 0 ==> persisted == value)
    }

    constructor Load(onDisk: nat, syncEvery: nat)
      ensures Valid() && value == onDisk && persisted == onDisk && this.syncEvery == syncEvery
    {
      value, persisted, sinceSync := onDisk, onDisk, 0;
      this.syncEvery := syncEvery;
    }

    /** Advance, never retreat; sync on the cadence. A sync that fails leaves the value moved and the copy on
        disk behind it, and is tried again at the next advance. */
    method AdvanceTo(s: nat, fails: bool) returns (ok: bool)
      requires Valid()
      modifies this
      ensures Valid() && value == (if s <= old(value) then old(value) else s)
      ensures var due := s > old(value) && old(sinceSync) + 1 >= syncEvery;
        && (ok <==> !(due && fails))
        && persisted == (if due && ok then value else old(persisted))
        && sinceSync == (if s <= old(value) then old(sinceSync) else if due && ok then 0 else old(sinceSync) + 1)
    {
      if s <= value { return true; }
      value := s;
      sinceSync := sinceSync + 1;
      ok := true;
      if sinceSync >= syncEvery { ok := Flush(fails); }
    }

    /** Write aside, sync, rename into place: the copy on disk is the value, or is what it was. */
    method Flush(fails: bool) returns (ok: bool)
      requires persisted <= value && (sinceSync == 0 ==> persisted == value)
      modifies this`persisted, this`sinceSync
      ensures Valid() && ok == !fails
      ensures if ok then persisted == value && sinceSync == 0
              else persisted == old(persisted) && sinceSync == old(sinceSync)
    {
      if fails { return false; }
      persisted, sinceSync := value, 0;
      return true;
    }
  }
}
