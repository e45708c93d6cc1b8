/** The sequenced consumer: applies every engine event once, in order, from a stream that redelivers. */
module Consumer {
  import opened MatchingTypes
  import opened EventStream

  datatype Key = Key(seqNo: nat, idx: nat)

  predicate Less(a: Key, b: Key) { a.seqNo < b.seqNo || (a.seqNo == b.seqNo && a.idx < b.idx) }
  predicate AtMost(a: Key, b: Key) { a == b || Less(a, b) }

  /** The engine emitted an event under this key. Sequences start at one; positions at zero. */
  predicate InStream(bs: seq<seq<Event>>, k: Key) { 1 <= k.seqNo <= |bs| && k.idx < |bs[k.seqNo - 1]| }

  /** What the consumer takes to be the next key: the next position, or the next sequence's first. */
  predicate Follows(offset: Key, k: Key) {
    if k.seqNo == offset.seqNo then k.idx == offset.idx + 1 else k.seqNo == offset.seqNo + 1 && k.idx == 0
  }

  ghost predicate Increasing(log: seq<Key>) { forall i, j :: 0 <= i < j < |log| ==> Less(log[i], log[j]) }

  /** Applied in order and at most once, nothing the engine did not emit, nothing past the offset. */
  ghost predicate Sound(bs: seq<seq<Event>>, start: Key, offset: Key, log: seq<Key>) {
    && Increasing(log) && AtMost(start, offset) && (offset == start || offset in log)
    && (forall k :: k in log ==> InStream(bs, k) && Less(start, k) && AtMost(k, offset))
  }

  /** And nothing missing: every event between the start and the offset was applied. */
  ghost predicate Lossless(bs: seq<seq<Event>>, start: Key, offset: Key, log: seq<Key>) {
    && Sound(bs, start, offset, log)
    && (forall k :: InStream(bs, k) && Less(start, k) && AtMost(k, offset) ==> k in log)
  }

  /** The engine emitted something between the offset and this key. */
  ghost predicate Skips(bs: seq<seq<Event>>, offset: Key, k: Key) {
    exists m :: InStream(bs, m) && Less(offset, m) && Less(m, k)
  }

  /** Nothing the engine emitted is past the offset. */
  ghost predicate AllCovered(bs: seq<seq<Event>>, offset: Key) {
    forall m :: InStream(bs, m) ==> AtMost(m, offset)
  }

  /** A key the consumer takes to be next really is next, EXCEPT when the offset is inside a sequence and
      the key is the next sequence's first: then the rest of the offset's sequence is passed over. */
  lemma {:induction false} FollowsExactly(bs: seq<seq<Event>>, offset: Key, k: Key)
    requires Batched(bs) && InStream(bs, k) && Less(offset, k)
    ensures Follows(offset, k) && !Skips(bs, offset, k)
       <==> Follows(offset, k) && !(k.seqNo == offset.seqNo + 1 && InStream(bs, Key(offset.seqNo, offset.idx + 1)))
    ensures !Skips(bs, offset, k) ==> Follows(offset, k)
  {
    var tail, head := Key(offset.seqNo, offset.idx + 1), Key(offset.seqNo + 1, 0);
    if !Skips(bs, offset, k) {
      if InStream(bs, tail) { assert !Less(tail, k); }
      assert k.seqNo > offset.seqNo ==> bs[offset.seqNo] != [] && InStream(bs, head);
      if k.seqNo > offset.seqNo { assert !Less(head, k); }
    }
    if InStream(bs, tail) && k.seqNo == offset.seqNo + 1 { assert Less(offset, tail) && Less(tail, k); }
  }

  /** Nothing under the keys the engine emitted so far changes as it emits more. */
  lemma {:induction false} LosslessGrows(bs: seq<seq<Event>>, more: seq<seq<Event>>, start: Key, offset: Key,
                                         log: seq<Key>)
    requires Lossless(bs, start, offset, log)
    ensures Lossless(bs + more, start, offset, log)
  {
    forall k | InStream(bs + more, k) && Less(start, k) && AtMost(k, offset)
      ensures k in log
    {
      assert InStream(bs, k);
    }
  }

  lemma ApplyKeeps(bs: seq<seq<Event>>, start: Key, offset: Key, log: seq<Key>, k: Key)
    requires Sound(bs, start, offset, log) && InStream(bs, k) && Less(offset, k)
    ensures Sound(bs, start, k, log + [k])
    ensures Lossless(bs, start, offset, log) ==> (Lossless(bs, start, k, log + [k]) <==> !Skips(bs, offset, k))
    ensures !Lossless(bs, start, offset, log) ==> !Lossless(bs, start, k, log + [k])
  {
    var log' := log + [k];
    assert k in log';
    forall i, j | 0 <= i < j < |log'|
      ensures Less(log'[i], log'[j])
    {
      if j == |log| { assert log[i] in log; }
    }
    if Skips(bs, offset, k) {
      var m :| InStream(bs, m) && Less(offset, m) && Less(m, k);
      assert m !in log';
    }
    if !Lossless(bs, start, offset, log) {
      var m :| InStream(bs, m) && Less(start, m) && AtMost(m, offset) && m !in log;
      assert m !in log';
    }
    if Lossless(bs, start, offset, log) && !Skips(bs, offset, k) {
      forall m | InStream(bs, m) && Less(start, m) && AtMost(m, k)
        ensures m in log'
      {
        assert m == k || AtMost(m, offset);
      }
    }
  }

  // ------------------------------------------------------------------ the keys of a page

  function KeyOf(e: Entry): Key { Key(e.seqNo, e.idx) }

  lemma {:induction false} EntriesIncrease(base: nat, bs: seq<seq<Event>>, i: nat, j: nat)
    requires i < j < |EntriesFrom(base, bs)|
    ensures Less(KeyOf(EntriesFrom(base, bs)[i]), KeyOf(EntriesFrom(base, bs)[j]))
    decreases |bs|
  {
    var n := |bs[0]|;
    if j < n {
    } else {
      EntryInBounds(base + 1, bs[1..], j - n);
      if i >= n { EntriesIncrease(base + 1, bs[1..], i - n, j - n); }
    }
  }

  lemma {:induction false} KeyHasEntry(base: nat, bs: seq<seq<Event>>, k: Key) returns (j: nat)
    requires base < k.seqNo <= base + |bs| && k.idx < |bs[k.seqNo - base - 1]|
    ensures j < |EntriesFrom(base, bs)| && KeyOf(EntriesFrom(base, bs)[j]) == k
    decreases |bs|
  {
    if k.seqNo == base + 1 {
      j := k.idx;
    } else {
      j := KeyHasEntry(base + 1, bs[1..], k);
      j := j + |bs[0]|;
    }
  }

  // ------------------------------------------------------------------ the consumer

  /** How applying an event in its transaction can end. An undecodable or mismatched event halts. */
  datatype Outcome = Applied | Halts | Transient

  class SequencedConsumer {
    var offset: Key
    var halted: bool
    const start: Key
    ghost var log: seq<Key>

    ghost predicate IsSound(bs: seq<seq<Event>>)
      reads this
    {
      Sound(bs, start, offset, log)
    }

    ghost predicate IsLossless(bs: seq<seq<Event>>)
      reads this
    {
      Lossless(bs, start, offset, log)
    }

    /** A consumer starts where it is told to, never at a guess. */
    constructor (startKey: Key, ghost bs: seq<seq<Event>>)
      ensures start == startKey && offset == startKey && !halted && log == [] && IsLossless(bs)
    {
      start, offset, halted, log := startKey, startKey, false, [];
    }

    /** Apply one event and move the offset to its key, or change neither. */
    method ApplyOne(k: Key, outcome: Outcome, ghost bs: seq<seq<Event>>) returns (ok: bool)
      requires IsSound(bs) && InStream(bs, k)
      modifies this
      ensures IsSound(bs) && AtMost(old(offset), offset)
      ensures ok <==> AtMost(k, old(offset)) || outcome == Applied
      ensures ok ==> AtMost(k, offset)
      ensures halted <==> old(halted) || (!ok && outcome == Halts)
      ensures ok && Less(old(offset), k) ==> offset == k && log == old(log) + [k]
      ensures !ok || AtMost(k, old(offset)) ==> offset == old(offset) && log == old(log)
    {
      if AtMost(k, offset) { return true; }
      if outcome == Halts { halted := true; return false; }
      if outcome == Transient { return false; }
      ApplyKeeps(bs, start, offset, log, k);
      offset, log := k, log + [k];
      return true;
    }

    /** Re-derive everything after the offset from the journal, page by page. The journal has no hole, so a
        recovery that completes leaves nothing emitted unapplied, and one that stops loses nothing. */
    method Recover(bs: seq<seq<Event>>, answers: nat -> bool, pageSize: nat,
                   outcomes: Key -> Outcome) returns (ok: bool)
      requires IsSound(bs) && Batched(bs) && pageSize >= 1
      modifies this
      ensures IsSound(bs) && AtMost(old(offset), offset)
      ensures old(IsLossless(bs)) <==> IsLossless(bs)
      ensures ok ==> AllCovered(bs, offset) && halted == old(halted)
    {
      var after: nat := if offset.seqNo > 0 then offset.seqNo - 1 else 0;
      while after < |bs|
        invariant IsSound(bs) && AtMost(old(offset), offset) && halted == old(halted)
        invariant old(IsLossless(bs)) <==> IsLossless(bs)
        invariant forall m :: InStream(bs, m) && m.seqNo <= after ==> AtMost(m, offset)
        decreases |bs| - after
      {
        if !answers(after) { return false; }
        ghost var k := PageShape(bs, after, pageSize);
        var keyed := Keyed(Page(bs, after, pageSize));
        ok, after := ApplyPage(bs, after, k, keyed, outcomes);
        if !ok { return; }
      }
      // An empty page ends it, if it arrives.
      ok := answers(after);
    }

    /** One entry of a read. Redelivered entries are passed over, gaps are recovered from the journal, and the
        event is lost exactly when the entry passes over the rest of the offset's own sequence. */
    method Deliver(k: Key, bs: seq<seq<Event>>, answers: nat -> bool, pageSize: nat, outcomes: Key -> Outcome)
      returns (ok: bool)
      requires IsSound(bs) && Batched(bs) && InStream(bs, k) && pageSize >= 1 && !halted
      modifies this
      ensures IsSound(bs) && AtMost(old(offset), offset)
      ensures ok ==> AtMost(k, offset) && !halted
      ensures old(IsLossless(bs)) ==> (IsLossless(bs) <==> !(ok && PassesOver(bs, old(offset), k)))
      ensures !old(IsLossless(bs)) ==> !IsLossless(bs)
      ensures PassesOver(bs, old(offset), k) ==> (ok <==> outcomes(k) == Applied)
      ensures ok && !AtMost(k, old(offset)) && !Follows(old(offset), k) ==> AllCovered(bs, offset)
      ensures AtMost(k, old(offset)) ==> ok && offset == old(offset) && log == old(log)
      ensures Follows(old(offset), k) ==>
        if outcomes(k) == Applied then ok && offset == k && log == old(log) + [k]
        else !ok && offset == old(offset) && log == old(log) && (halted <==> outcomes(k) == Halts)
    {
      if AtMost(k, offset) { return true; }
      FollowsExactly(bs, offset, k);
      if !Follows(offset, k) {
        ok := Recover(bs, answers, pageSize, outcomes);
        // After a recovery that completed, every emitted key is covered: no gap is unrecoverable.
        return;
      }
      ApplyKeeps(bs, start, offset, log, k);
      ok := ApplyOne(k, outcomes(k), bs);
    }

    /** One read-and-apply pass. Only entries whose events the offset covers are acknowledged. If no read
        delivers a sequence's first event ahead of the tail of the one before, nothing is ever lost. */
    method RunOnce(bs: seq<seq<Event>>, read: Option<seq<Key>>, lastSeq: Option<nat>,
                   answers: nat -> bool, pageSize: nat, outcomes: Key -> Outcome)
      returns (acked: seq<Key>)
      requires IsSound(bs) && Batched(bs) && pageSize >= 1
      requires read.Some? ==> forall k :: k in read.value ==> InStream(bs, k)
      modifies this
      ensures IsSound(bs) && AtMost(old(offset), offset)
      ensures forall k :: k in acked ==> read.Some? && k in read.value && AtMost(k, offset)
      ensures old(IsLossless(bs)) && (read.Some? ==> TailsFirst(bs, old(offset), read.value)) ==> IsLossless(bs)
      ensures !old(IsLossless(bs)) ==> !IsLossless(bs)
      ensures old(!halted && IsLossless(bs)) && read.Some? ==>
        (IsLossless(bs) <==> !Loses(bs, old(offset), SortKeys(read.value), outcomes))
      ensures old(!halted) && read.Some? && read.value != [] && Chain(old(offset), SortKeys(read.value)) ==>
        && UpToFirstFailure(SortKeys(read.value), outcomes, acked, halted)
        && Reaches(old(offset), old(log), acked, offset, log)
    {
      acked := [];
      if halted { return; }
      if read.None? {
        var _ := Recover(bs, answers, pageSize, outcomes);
      } else if read.value == [] {
        if lastSeq.Some? && lastSeq.value > offset.seqNo { var _ := Recover(bs, answers, pageSize, outcomes); }
      } else {
        acked := ApplyRead(bs, read.value, answers, pageSize, outcomes);
      }
    }

    method ApplyRead(bs: seq<seq<Event>>, read: seq<Key>, answers: nat -> bool, pageSize: nat, outcomes: Key -> Outcome)
      returns (acked: seq<Key>)
      requires IsSound(bs) && Batched(bs) && pageSize >= 1 && !halted && forall k :: k in read ==> InStream(bs, k)
      modifies this
      ensures IsSound(bs) && AtMost(old(offset), offset)
      ensures forall k :: k in acked ==> k in read && AtMost(k, offset)
      ensures old(IsLossless(bs)) && TailsFirst(bs, old(offset), read) ==> IsLossless(bs)
      ensures !old(IsLossless(bs)) ==> !IsLossless(bs)
      ensures old(IsLossless(bs)) ==> (IsLossless(bs) <==> !Loses(bs, old(offset), SortKeys(read), outcomes))
      ensures Chain(old(offset), SortKeys(read)) ==>
        && UpToFirstFailure(SortKeys(read), outcomes, acked, halted)
        && Reaches(old(offset), old(log), acked, offset, log)
    {
      hide IsSound, IsLossless, InStream, Batched, SortKeys, TailsFirst, PassesOver, InOrder, AllCovered, Skips;
      hide Chain, Follows, Reaches;
      acked := [];
      var sorted := SortKeys(read);
      SortKeysSorts(read);
      ghost var was := offset;
      ghost var fine := IsLossless(bs) && TailsFirst(bs, offset, read);
      ghost var kept, loses := IsLossless(bs), Loses(bs, offset, sorted, outcomes);
      assert sorted[0..] == sorted;
      ghost var chain := Chain(offset, sorted);
      ghost var logged := log;
      ReachesNone(offset, log);
      for i := 0 to |sorted|
        invariant IsSound(bs) && AtMost(was, offset) && !halted
        invariant forall j :: 0 <= j < i ==> AtMost(sorted[j], offset)
        invariant fine ==> IsLossless(bs)
        invariant acked == sorted[..i]
        invariant chain ==> forall k :: k in acked ==> outcomes(k) == Applied
        invariant chain ==> Reaches(was, logged, acked, offset, log)
        invariant !kept ==> !IsLossless(bs)
        invariant kept && IsLossless(bs) ==> (loses <==> Loses(bs, offset, sorted[i..], outcomes))
        invariant kept && !IsLossless(bs) ==> loses
      {
        assert sorted[i] in read;
        if fine { TailIsDone(bs, was, read, sorted, i, offset); }
        LosesFrom(bs, offset, sorted, i, outcomes);
        if chain { ChainAt(was, sorted, i, logged, offset, log); }
        var ok := Deliver(sorted[i], bs, answers, pageSize, outcomes);
        if !ok { break; }
        if AllCovered(bs, offset) { CoveredLosesNothing(bs, offset, sorted[i + 1..], outcomes); }
        acked := acked + [sorted[i]];
      }
    }

    method ApplyPage(bs: seq<seq<Event>>, after: nat, ghost to: nat, keyed: seq<Entry>, outcomes: Key -> Outcome)
      returns (ok: bool, last: nat)
      requires IsSound(bs) && Batched(bs) && after < to <= |bs| && keyed == EntriesFrom(after, bs[after..to])
      requires forall m :: InStream(bs, m) && m.seqNo <= after ==> AtMost(m, offset)
      modifies this
      ensures IsSound(bs) && AtMost(old(offset), offset)
      ensures old(IsLossless(bs)) <==> IsLossless(bs)
      ensures ok ==> last == to && halted == old(halted)
      ensures ok ==> forall m :: InStream(bs, m) && m.seqNo <= to ==> AtMost(m, offset)
    {
      last := after;
      for j := 0 to |keyed|
        invariant IsSound(bs) && AtMost(old(offset), offset) && halted == old(halted)
        invariant old(IsLossless(bs)) <==> IsLossless(bs)
        invariant forall i :: 0 <= i < j ==> AtMost(KeyOf(keyed[i]), offset)
      {
        var k := KeyOf(keyed[j]);
        PageKeyInStream(bs, after, to, j);
        if AtMost(k, offset) { continue; }
        NothingBefore(bs, after, to, j, offset);
        FollowsExactly(bs, offset, k);
        // A hole in re-emission would halt here. There is none: the entry is the very next event.
        if !Follows(offset, k) { assert false; }
        ApplyKeeps(bs, start, offset, log, k);
        ok := ApplyOne(k, outcomes(k), bs);
        if !ok { return; }
      }
      PageEnds(bs, after, to);
      last := keyed[|keyed| - 1].seqNo;
      ok := true;
      forall m | InStream(bs, m) && m.seqNo <= to
        ensures AtMost(m, offset)
      {
        if m.seqNo > after { var i := KeyHasEntry(after, bs[after..to], m); }
      }
    }
  }

  // ------------------------------------------------------------------ reading the stream

  /** The offset is inside a sequence and the key is the next sequence's first. */
  predicate PassesOver(bs: seq<seq<Event>>, offset: Key, k: Key) {
    k == Key(offset.seqNo + 1, 0) && InStream(bs, Key(offset.seqNo, offset.idx + 1))
  }

  /** Each key is the one the consumer takes to be next. */
  ghost predicate Chain(offset: Key, keys: seq<Key>) {
    && (keys != [] ==> Follows(offset, keys[0]))
    && (forall i :: 0 < i < |keys| ==> Follows(keys[i - 1], keys[i]))
  }

  /** Exactly these keys were applied on the way from one offset to another. */
  ghost predicate Reaches(from: Key, before: seq<Key>, keys: seq<Key>, to: Key, after: seq<Key>) {
    after == before + keys && to == if keys == [] then from else keys[|keys| - 1]
  }

  lemma ReachesNone(offset: Key, log: seq<Key>)
    ensures Reaches(offset, log, [], offset, log)
  {
    assert log + [] == log;
  }

  lemma ChainAt(from: Key, keys: seq<Key>, i: nat, before: seq<Key>, offset: Key, log: seq<Key>)
    requires Chain(from, keys) && i < |keys| && Reaches(from, before, keys[..i], offset, log)
    ensures Follows(offset, keys[i])
    ensures keys[..i] + [keys[i]] == keys[..i + 1]
    ensures Reaches(from, before, keys[..i + 1], keys[i], log + [keys[i]])
  {
    assert keys[..i] + [keys[i]] == keys[..i + 1];
    if i > 0 { assert keys[..i][i - 1] == keys[i - 1] && keys[..i] != []; }
    assert offset == if i == 0 then from else keys[i - 1];
  }

  /** Applied and acknowledged: everything before the first failure, and nothing from there on. */
  ghost predicate UpToFirstFailure(keys: seq<Key>, outcomes: Key -> Outcome, acked: seq<Key>, halted: bool) {
    && acked <= keys && (forall k :: k in acked ==> outcomes(k) == Applied)
    && (|acked| < |keys| ==> outcomes(keys[|acked|]) != Applied)
    && (halted ==> |acked| < |keys| && outcomes(keys[|acked|]) == Halts)
  }

  /** Reading these keys in order loses an event. Covered keys are passed on. A key that does not follow is
      recovered to the end or stops the pass, and so does one that is not applied: nothing is lost then.
      A key that follows is lost ground if it passes over the rest of the offset's own sequence. */
  predicate Loses(bs: seq<seq<Event>>, offset: Key, keys: seq<Key>, outcomes: Key -> Outcome)
    decreases |keys|
  {
    if keys == [] then false
    else if AtMost(keys[0], offset) then Loses(bs, offset, keys[1..], outcomes)
    else if !Follows(offset, keys[0]) || outcomes(keys[0]) != Applied then false
    else PassesOver(bs, offset, keys[0]) || Loses(bs, keys[0], keys[1..], outcomes)
  }

  lemma LosesFrom(bs: seq<seq<Event>>, offset: Key, keys: seq<Key>, i: nat, outcomes: Key -> Outcome)
    requires i < |keys|
    ensures Loses(bs, offset, keys[i..], outcomes) <==>
      if AtMost(keys[i], offset) then Loses(bs, offset, keys[i + 1..], outcomes)
      else Follows(offset, keys[i]) && outcomes(keys[i]) == Applied
           && (PassesOver(bs, offset, keys[i]) || Loses(bs, keys[i], keys[i + 1..], outcomes))
    ensures PassesOver(bs, offset, keys[i]) ==> !AtMost(keys[i], offset) && Follows(offset, keys[i])
  {
    assert keys[i..][1..] == keys[i + 1..];
  }

  lemma {:induction false} CoveredLosesNothing(bs: seq<seq<Event>>, offset: Key, keys: seq<Key>,
                                               outcomes: Key -> Outcome)
    requires AllCovered(bs, offset) && forall k :: k in keys ==> InStream(bs, k)
    ensures !Loses(bs, offset, keys, outcomes)
  {
    if keys == [] {
    } else {
      assert keys[0] in keys;
      CoveredLosesNothing(bs, offset, keys[1..], outcomes);
    }
  }

  function InsertKey(s: seq<Key>, k: Key): seq<Key> {
    if s == [] || AtMost(s[|s| - 1], k) then s + [k] else InsertKey(s[..|s| - 1], k) + [s[|s| - 1]]
  }

  function SortKeys(s: seq<Key>): seq<Key> {
    if s == [] then [] else InsertKey(SortKeys(s[..|s| - 1]), s[|s| - 1])
  }

  ghost predicate InOrder(s: seq<Key>) { forall i, j :: 0 <= i < j < |s| ==> AtMost(s[i], s[j]) }

  lemma {:induction false} InsertKeySorts(s: seq<Key>, k: Key)
    requires InOrder(s)
    ensures InOrder(InsertKey(s, k)) && (forall x :: x in InsertKey(s, k) <==> x in s || x == k)
  {
    if s != [] && !AtMost(s[|s| - 1], k) {
      var most, last := s[..|s| - 1], s[|s| - 1];
      assert s == most + [last];
      InsertKeySorts(most, k);
      var inserted := InsertKey(most, k);
      forall i | 0 <= i < |inserted|
        ensures AtMost(inserted[i], last)
      {
        assert inserted[i] in inserted;
        if inserted[i] in most { var j :| 0 <= j < |most| && most[j] == inserted[i]; assert s[j] == most[j]; }
      }
    } else if s != [] {
      assert forall i :: 0 <= i < |s| ==> AtMost(s[i], s[|s| - 1]);
    }
  }

  lemma {:induction false} SortKeysSorts(s: seq<Key>)
    ensures InOrder(SortKeys(s)) && (forall x :: x in SortKeys(s) <==> x in s)
  {
    if s == [] {
    } else {
      assert s == s[..|s| - 1] + [s[|s| - 1]];
      SortKeysSorts(s[..|s| - 1]);
      InsertKeySorts(SortKeys(s[..|s| - 1]), s[|s| - 1]);
    }
  }

  /** A sequence's first event is delivered only with, or after, the last event of the sequence before. */
  ghost predicate TailsFirst(bs: seq<seq<Event>>, offset: Key, read: seq<Key>) {
    forall k :: k in read && k.idx == 0 && 2 <= k.seqNo <= |bs| && bs[k.seqNo - 2] != [] ==>
      var last := Key(k.seqNo - 1, |bs[k.seqNo - 2]| - 1); AtMost(last, offset) || last in read
  }

  /** By the time a sorted read reaches a sequence's first event, the sequence before is finished. */
  lemma TailIsDone(bs: seq<seq<Event>>, was: Key, read: seq<Key>, sorted: seq<Key>, i: nat, offset: Key)
    requires TailsFirst(bs, was, read) && InOrder(sorted) && (forall x :: x in sorted <==> x in read)
    requires i < |sorted| && AtMost(was, offset) && (forall j :: 0 <= j < i ==> AtMost(sorted[j], offset))
    requires InStream(bs, sorted[i])
    ensures !PassesOver(bs, offset, sorted[i])
  {
    var k := sorted[i];
    if k.idx == 0 && k.seqNo >= 2 && bs[k.seqNo - 2] != [] {
      var last := Key(k.seqNo - 1, |bs[k.seqNo - 2]| - 1);
      assert k in read;
      if !AtMost(last, was) {
        var j :| 0 <= j < |sorted| && sorted[j] == last;
        BeforeInOrder(sorted, j, i);
      }
      assert AtMost(last, offset);
    }
  }

  lemma BeforeInOrder(s: seq<Key>, j: nat, i: nat)
    requires InOrder(s) && i < |s| && j < |s| && Less(s[j], s[i])
    ensures j < i
  {
  }

  lemma PageKeyInStream(bs: seq<seq<Event>>, after: nat, to: nat, j: nat)
    requires after <= to <= |bs| && j < |EntriesFrom(after, bs[after..to])|
    ensures InStream(bs, KeyOf(EntriesFrom(after, bs[after..to])[j]))
  {
    EntryInBounds(after, bs[after..to], j);
  }

  /** The first entry of a page past the offset is the first event past the offset. */
  lemma NothingBefore(bs: seq<seq<Event>>, after: nat, to: nat, j: nat, offset: Key)
    requires after <= to <= |bs| && j < |EntriesFrom(after, bs[after..to])|
    requires forall m :: InStream(bs, m) && m.seqNo <= after ==> AtMost(m, offset)
    requires forall i :: 0 <= i < j ==> AtMost(KeyOf(EntriesFrom(after, bs[after..to])[i]), offset)
    ensures !Skips(bs, offset, KeyOf(EntriesFrom(after, bs[after..to])[j]))
  {
    var all := EntriesFrom(after, bs[after..to]);
    EntryInBounds(after, bs[after..to], j);
    forall m | InStream(bs, m) && Less(m, KeyOf(all[j]))
      ensures !Less(offset, m)
    {
      if m.seqNo > after {
        var i := KeyHasEntry(after, bs[after..to], m);
        if i > j { EntriesIncrease(after, bs[after..to], j, i); }
      }
    }
  }

  lemma PageEnds(bs: seq<seq<Event>>, after: nat, to: nat)
    requires Batched(bs) && after < to <= |bs|
    ensures var all := EntriesFrom(after, bs[after..to]); all != [] && all[|all| - 1].seqNo == to
  {
    var all := EntriesFrom(after, bs[after..to]);
    var n := |bs[to - 1]|;
    var j := KeyHasEntry(after, bs[after..to], Key(to, n - 1));
    if j < |all| - 1 { EntriesIncrease(after, bs[after..to], j, |all| - 1); }
    EntryInBounds(after, bs[after..to], |all| - 1);
  }

  /** Three events in two sequences, and a stream trimmed between them: the second is never applied. */
  lemma {:induction false} TrimmedTailIsLost(a: Event, b: Event, c: Event)
    requires a.Seq() == b.Seq() == 1 && c.Seq() == 2
    ensures var bs := [[a, b], [c]];
      var offset, k := Key(1, 0), Key(2, 0);
      && Batched(bs) && InStream(bs, k) && Follows(offset, k) && PassesOver(bs, offset, k)
      && !Lossless(bs, Key(0, 0), k, [offset, k])
  {
    var bs := [[a, b], [c]];
    assert InStream(bs, Key(1, 1));
    assert Key(1, 1) !in [Key(1, 0), Key(2, 0)];
  }
}
