/** What breaks the publication protocol when one of its hypotheses fails: exactly, and by a run. */
module PublicationFaults {
  import opened MatchingTypes
  import opened ReferenceBook
  import opened ReferenceMatcher
  import opened MatchingRuns
  import opened Replay
  import opened EventContract
  import opened EventStream
  import opened Egress
  import opened StreamOffsets
  import opened Publication

  // ------------------------------------------------------------------ the abandoned submission

  /** Sequence `n` was matched and abandoned, so the ring went from `n - 1` to `n + 1`. The gap the next
      command republishes is then complete if and only if the ring does NOT reach back to the
      watermark: when it does, it answers, and it answers without sequence `n`. */
  lemma {:induction false} AbandonedGapExactly(bs: seq<seq<Event>>, k: nat, w: nat, n: nat, capacity: nat)
    requires Batched(bs) && k < n < |bs| && w < n
    requires capacity == 0 || |bs[n]| <= capacity
    ensures var ring := RecordAll(Flat(bs[..n - 1][k..]), bs[n], capacity);
      var outputs := match RingAfter(ring, w) case Some(events) => events case None => After(Flat(bs), w);
      Before(outputs, n + 1) == Before(After(Flat(bs), w), n + 1) <==> RingAfter(ring, w).None?
  {
    var ring := RecordAll(Flat(bs[..n - 1][k..]), bs[n], capacity);
    GapIsFlat(bs, w, n + 1);
    if RingAfter(ring, w).Some? {
      SliceBatched(0, bs, 0, n - 1);
      assert bs[0..n - 1] == bs[..n - 1];
      assert AllOf(n + 1, bs[n]);
      var k' := RecordPart(bs[..n - 1], k, bs[n], n + 1, |bs[n]|, capacity);
      assert bs[n][..|bs[n]|] == bs[n] && bs[..n - 1][k'..] == bs[k'..n - 1];
      AbandonedRing(bs, bs[k'..n - 1], k', w, n);
    }
  }

  lemma AbandonedRing(bs: seq<seq<Event>>, held: seq<seq<Event>>, k: nat, w: nat, n: nat)
    requires Batched(bs) && k <= n - 1 && n < |bs| && w < n && held == bs[k..n - 1]
    requires var ring := Flat(held) + bs[n]; ring != [] && ring[0].Seq() <= w + 1
    ensures Before(After(Flat(held) + bs[n], w), n + 1) != Flat(bs[w..n])
  {
    hide Flat, Before, After, BatchedFrom;
    assert k <= w by {
      SliceBatched(0, bs, k, n - 1);
      OneBatch(bs, n);
      ReachesBack(k, held, bs[n], n + 1, w);
    }
    ServedWithout(bs, k, w, n);
    LacksLast(bs, w, n);
  }

  lemma LacksLast(bs: seq<seq<Event>>, w: nat, n: nat)
    requires Batched(bs) && w < n <= |bs|
    ensures |Flat(bs[w..n])| > |Flat(bs[w..n - 1])|
  {
    assert bs[w..n] == bs[w..n - 1] + [bs[n - 1]];
    FlatAppend(bs[w..n - 1], [bs[n - 1]]);
    OneBatch(bs, n - 1);
    assert [bs[n - 1]][1..] == [] && Flat([bs[n - 1]]) == bs[n - 1];
  }

  lemma OneBatch(bs: seq<seq<Event>>, i: nat)
    requires Batched(bs) && i < |bs|
    ensures bs[i] != [] && AllOf(i + 1, bs[i])
  {
  }

  lemma ReachesBack(base: nat, held: seq<seq<Event>>, batch: seq<Event>, s: nat, w: nat)
    requires BatchedFrom(base, held) && batch != [] && AllOf(s, batch) && w + 1 < s
    requires (Flat(held) + batch)[0].Seq() <= w + 1
    ensures base <= w
  {
    assert batch[0] in batch;
    if held != [] { TailBatched(base, held); assert (Flat(held) + batch)[0] == held[0][0]; }
  }

  /** What a ring with a hole at `n` serves as the gap after `w`: everything but `n`. */
  lemma ServedWithout(bs: seq<seq<Event>>, k: nat, w: nat, n: nat)
    requires Batched(bs) && k <= w < n < |bs|
    ensures Before(After(Flat(bs[k..n - 1]) + bs[n], w), n + 1) == Flat(bs[w..n - 1])
  {
    hide Flat, Before, After, BatchedFrom;
    var held := bs[k..n - 1];
    SliceBatched(0, bs, k, n - 1);
    SliceBatched(0, bs, w, n - 1);
    OneBatch(bs, n);
    AfterAppend(Flat(held), bs[n], w);
    AfterIsSuffix(k, held, w);
    AfterBatch(bs[n], n + 1, w);
    assert held[w - k..] == bs[w..n - 1];
    BeforeAppend(Flat(bs[w..n - 1]), bs[n], n + 1);
    BeforeBatch(bs[n], n + 1, n + 1);
    BeforeAll(w, bs[w..n - 1], n + 1);
    assert Flat(bs[w..n - 1]) + [] == Flat(bs[w..n - 1]);
  }

  lemma {:induction false} BeforeAll(base: nat, bs: seq<seq<Event>>, s: nat)
    requires BatchedFrom(base, bs) && base + |bs| < s
    ensures Before(Flat(bs), s) == Flat(bs)
    decreases |bs|
  {
    if bs == [] {
    } else {
      TailBatched(base, bs);
      BeforeAppend(bs[0], Flat(bs[1..]), s);
      BeforeBatch(bs[0], base + 1, s);
      BeforeAll(base + 1, bs[1..], s);
    }
  }

  lemma KeyedInjective(a: seq<Event>, b: seq<Event>)
    requires Keyed(a) == Keyed(b)
    ensures a == b
  {
    forall i | 0 <= i < |a| ensures |a| == |b| && a[i] == b[i] {
      assert Keyed(a)[i].event == Keyed(b)[i].event;
    }
  }

  /** On the machine: a submitter has matched and is abandoned, and another submits, enters and plans. What
      it plans to republish is the exact gap if and only if the ring does NOT reach back to the watermark. */
  lemma {:induction false} AbandonedPlanExactly(cfg: Config, s: State, c: Client, d: Client, ts: int,
                                                command: Command, snapshot: bool)
    requires Inv(cfg, s) && s.mode == Up && s.PcOf(c).Matched? && s.egressLock.None? && (d == c || s.PcOf(d) == Idle)
    requires var after := RunFrom(cfg, s, [Abandon(c), Submit(d, ts, command, snapshot)]);
      Fits(cfg, after)
    ensures var n := |s.journal|;
      var entered := RunFrom(cfg, s, [Abandon(c), Submit(d, ts, command, snapshot), EnterEgress(d)]);
      var planned := Next(cfg, entered, Plan(d));
      var exact := Keyed(Before(After(Flat(Out(cfg, planned)), s.watermark), n + 1));
      planned.PcOf(d).Gap? && planned.PcOf(d).todo == exact <==> RingAfter(entered.ring, s.watermark).None?
  {
    hide Next, Out, Inv, Fits, Keyed, Before, After, Flat, RingAfter;
    var n := |s.journal|;
    var a1, a2, a3 := Abandon(c), Submit(d, ts, command, snapshot), EnterEgress(d);
    ThreeSteps(cfg, s, a1, a2, a3);
    var s1 := Next(cfg, s, a1);
    var s2 := Next(cfg, s1, a2);
    var s3 := Next(cfg, s2, a3);
    AfterAbandon(cfg, s, s1, s2, s3, c, d, ts, command, snapshot);
    PlanWithHole(cfg, s.ring, s3, d, n);
  }

  /** Planning with a ring that passed over sequence `n`. */
  lemma PlanWithHole(cfg: Config, before: seq<Event>, s: State, d: Client, n: nat)
    requires var bs := Out(cfg, s);
      && 0 < n && |s.journal| == n + 1 && Numbered(s.journal)
      && s.mode == Up && s.watermark < n && s.PcOf(d).Entered? && s.PcOf(d).seqNo == n + 1
      && HoldsWhole(before, bs[..n - 1]) && s.ring == RecordAll(before, bs[n], cfg.capacity)
      && (cfg.capacity == 0 || |bs[n]| <= cfg.capacity) && Published(bs, s.stream, s.watermark)
    ensures var planned := Next(cfg, s, Plan(d));
      var exact := Keyed(Before(After(Flat(Out(cfg, planned)), s.watermark), n + 1));
      planned.PcOf(d).Gap? && planned.PcOf(d).todo == exact <==> RingAfter(s.ring, s.watermark).None?
  {
    hide Next, Batches, RecordAll, Keyed, Before, After, Flat, Results, RingAfter, Published, LevelsAfter, LevelsOver;
    var bs := Out(cfg, s);
    BatchesAreBatched(cfg.market, s.journal);
    var k :| Holds(before, bs[..n - 1], k);
    AbandonedGapExactly(bs, k, s.watermark, n, cfg.capacity);
    GapPending(bs, s.stream, s.watermark, n + 1);
    var gap, exact := Before(OutputsFrom(cfg, s).0, n + 1), Before(After(Flat(bs), s.watermark), n + 1);
    if Keyed(gap) == Keyed(exact) { KeyedInjective(gap, exact); }
    PlanIs(cfg, s, d);
  }

  lemma PlanIs(cfg: Config, s: State, d: Client)
    requires s.mode == Up && s.PcOf(d).Entered? && s.watermark + 1 < s.PcOf(d).seqNo
    ensures var planned, pc := Next(cfg, s, Plan(d)), s.PcOf(d);
      var gap := Before(OutputsFrom(cfg, s).0, pc.seqNo);
      && planned.journal == s.journal
      && (gap != [] ==> planned.PcOf(d) == Gap(pc.seqNo, pc.output, Keyed(gap), OutputsFrom(cfg, s).1))
      && (gap == [] ==> planned.PcOf(d).Own?)
  {
    hide OutputsFrom, Keyed, Before;
  }

  lemma ThreeSteps(cfg: Config, s: State, a: Action, b: Action, c: Action)
    ensures RunFrom(cfg, s, [a, b]) == Next(cfg, Next(cfg, s, a), b)
    ensures RunFrom(cfg, s, [a, b, c]) == Next(cfg, Next(cfg, Next(cfg, s, a), b), c)
  {
    hide Next;
    assert [a, b, c][..2] == [a, b] && [a, b][..1] == [a] && [a][..0] == [];
    assert RunFrom(cfg, s, [a]) == Next(cfg, s, a);
  }

  /** Where the machine stands when the submitter after an abandoned one has entered egress. */
  lemma AfterAbandon(cfg: Config, s: State, s1: State, s2: State, s3: State, c: Client, d: Client,
                     ts: int, command: Command, snapshot: bool)
    requires Inv(cfg, s) && s.mode == Up && s.PcOf(c).Matched? && s.egressLock.None? && (d == c || s.PcOf(d) == Idle)
    requires s1 == Next(cfg, s, Abandon(c)) && s2 == Next(cfg, s1, Submit(d, ts, command, snapshot))
    requires s3 == Next(cfg, s2, EnterEgress(d)) && Fits(cfg, s2)
    ensures var n, bs := |s.journal|, Out(cfg, s3);
      && n > 0 && |s3.journal| == n + 1 && Numbered(s3.journal)
      && s3.mode == Up && s3.watermark == s.watermark < n && s3.PcOf(d).Entered? && s3.PcOf(d).seqNo == n + 1
      && HoldsWhole(s.ring, bs[..n - 1]) && s3.ring == RecordAll(s.ring, bs[n], cfg.capacity)
      && (cfg.capacity == 0 || |bs[n]| <= cfg.capacity)
      && Published(bs, s3.stream, s.watermark)
  {
    hide Dedup, EntriesFrom, RecordAll, KeepLevels, Run, Results, Apply, LevelsOf, Published, Holder, HoldsWhole;
    var n := |s.journal|;
    RunSeq(cfg.market, s.journal);
    assert s1 == s.(runtimeLock := None).At(c, Idle) && s1.PcOf(d) == Idle;
    var cmd := SequencedCommand(n + 1, ts, command);
    assert s2 == Append(s1, d, cmd, snapshot);
    AppendIsReplay(cfg, s1, s2, cmd);
    BatchesPush(cfg.market, s.journal, cmd);
    var bs0, bs := Out(cfg, s), Out(cfg, s2);
    JournalGrows(bs0, bs[n], s);
    assert bs[..n - 1] == bs0[..n - 1];
    assert s2.PcOf(d).output.events == bs[n];
    hide Batches;
    assert s3.journal == s2.journal;
  }

  // ------------------------------------------------------------------ runs that break the stream

  /** A status change, journaled, matched and published whole by an otherwise idle machine. */
  lemma StatusShot(cfg: Config, s: State, c: Client, status: MarketStatus, snapshot: bool)
    requires s.mode == Up && s.runtimeLock.None? && s.egressLock.None? && s.PcOf(c) == Idle
    requires s.watermark == s.live.lastSeq && s.ring == []
    ensures var n := s.live.lastSeq + 1;
      var e := StatusChanged(n, s.live.market.status, status);
      var live := ClearTouched(s.live.(market := s.live.market.(status := status), lastSeq := n));
      var s' := RunFrom(cfg, s, Shot(c, status, snapshot));
      && s'.journal == s.journal + [SequencedCommand(n, 0, SetStatus(status))] && s'.live == live
      && s'.saved == (if snapshot then Some(Saved(n, live.book)) else s.saved)
      && s'.stream == s.stream + [Entry(n, 0, e)] && s'.mode == Up && s'.disk == s'.watermark == n
      && s'.runtimeLock.None? && s'.egressLock.None? && s'.PcOf(c) == Idle && s'.ring == [e]
  {
    hide Next;
    var shot := Shot(c, status, snapshot);
    FiveSteps(cfg, s, shot);
    var n := s.live.lastSeq + 1;
    var e := StatusChanged(n, s.live.market.status, status);
    ShotMatches(cfg, s, c, status, snapshot);
    var s1 := Next(cfg, s, shot[0]);
    ShotEnters(cfg, s1, c, e);
    var s3 := Next(cfg, Next(cfg, s1, shot[1]), shot[2]);
    ShotPublishes(cfg, s3, c, Entry(n, 0, e));
  }

  lemma ShotMatches(cfg: Config, s: State, c: Client, status: MarketStatus, snapshot: bool)
    requires s.mode == Up && s.runtimeLock.None? && s.PcOf(c) == Idle
    ensures var n := s.live.lastSeq + 1;
      var e := StatusChanged(n, s.live.market.status, status);
      var live := ClearTouched(s.live.(market := s.live.market.(status := status), lastSeq := n));
      var s' := Next(cfg, s, Submit(c, 0, SetStatus(status), snapshot));
      && s'.PcOf(c).Matched? && s'.PcOf(c).seqNo == n && s'.PcOf(c).output.events == [e]
      && s' == s.(journal := s.journal + [SequencedCommand(n, 0, SetStatus(status))], live := live,
                  runtimeLock := Some(c), saved := if snapshot then Some(Saved(n, live.book)) else s.saved)
                .At(c, s'.PcOf(c))
  {
    hide LevelsOf;
  }

  lemma ShotEnters(cfg: Config, s: State, c: Client, e: Event)
    requires s.mode == Up && s.egressLock.None? && s.PcOf(c).Matched? && s.PcOf(c).output.events == [e]
    requires s.PcOf(c).seqNo == s.watermark + 1 && (s.ring == [] || cfg.capacity != |s.ring|)
    ensures var n := s.PcOf(c).seqNo;
      var s' := Next(cfg, Next(cfg, s, EnterEgress(c)), Plan(c));
      && s'.PcOf(c) == Own(n, [Entry(e.Seq(), 0, e)], map[n := s.PcOf(c).output.levels])
      && s' == s.(egressLock := Some(c), runtimeLock := None, ring := s.ring + [e], ringLevels := s'.ringLevels,
                  entered := s.entered + [n], pcs := s'.pcs)
  {
    RecordOnto(s.ring, e, cfg.capacity);
    OneKeyed(e);
    hide RecordAll, KeepLevels, Keyed, OutputsFrom, Before;
  }

  lemma ShotPublishes(cfg: Config, s: State, c: Client, x: Entry)
    requires s.mode == Up && s.PcOf(c).Own? && s.PcOf(c).todo == [x] && s.PcOf(c).seqNo > s.watermark
    ensures var n := s.PcOf(c).seqNo;
      var s' := Next(cfg, Next(cfg, s, PublishOne(c)), Confirm(c, true, false));
      && s'.PcOf(c) == Idle
      && s' == s.(stream := s.stream + [x], rides := s'.rides, watermark := n, disk := n, egressLock := None,
                  acked := s.acked + {n}, pcs := s'.pcs)
  {
    hide Rides;
    assert [x][1..] == [];
  }

  function Shot(c: Client, status: MarketStatus, snapshot: bool): seq<Action> {
    [Submit(c, 0, SetStatus(status), snapshot), EnterEgress(c), Plan(c), PublishOne(c), Confirm(c, true, false)]
  }

  lemma FiveSteps(cfg: Config, s: State, a: seq<Action>)
    requires |a| == 5
    ensures RunFrom(cfg, s, a) == Next(cfg, Next(cfg, Next(cfg, Next(cfg, Next(cfg, s, a[0]), a[1]), a[2]), a[3]), a[4])
  {
    hide Next;
    ThreeSteps(cfg, s, a[0], a[1], a[2]);
    assert a[..4][..3] == [a[0], a[1], a[2]] && a[..4] == a[..4];
    assert RunFrom(cfg, s, a[..4]) == Next(cfg, RunFrom(cfg, s, a[..4][..3]), a[3]);
  }

  lemma {:induction false} RunFromAppend(cfg: Config, s: State, a: seq<Action>, b: seq<Action>)
    ensures RunFrom(cfg, s, a + b) == RunFrom(cfg, RunFrom(cfg, s, a), b)
    decreases |b|
  {
    hide Next;
    if b == [] {
      assert a + b == a;
    } else {
      assert (a + b)[..|a + b| - 1] == a + b[..|b| - 1];
      RunFromAppend(cfg, s, a, b[..|b| - 1]);
    }
  }

  lemma RecordOnto(ring: seq<Event>, e: Event, capacity: nat)
    requires ring == [] || capacity != |ring|
    ensures RecordAll(ring, [e], capacity) == ring + [e]
  {
    assert [e][..0] == [];
    assert RecordAll(ring, [], capacity) == ring;
  }

  lemma OneKeyed(e: Event)
    ensures Keyed([e]) == [Entry(e.Seq(), 0, e)]
  {
    assert [e][..0] == [];
  }

  /** From nothing: start up, halt the market, publish that. */
  function HaltFirst(c: Client, snapshot: bool): seq<Action> { [Restart] + Shot(c, Halted, snapshot) }

  lemma FirstStart(cfg: Config)
    ensures Next(cfg, Start(cfg), Restart) == Start(cfg).(mode := Up)
    ensures RunFrom(cfg, Start(cfg), [Restart]) == Next(cfg, Start(cfg), Restart)
  {
    assert [Restart][..0] == [];
  }

  lemma AfterHalt(cfg: Config, c: Client, snapshot: bool)
    ensures var s := RunAll(cfg, HaltFirst(c, snapshot));
      var halt, e := SequencedCommand(1, 0, SetStatus(Halted)), StatusChanged(1, cfg.market.status, Halted);
      var live := EngineState(cfg.market.(status := Halted), EMPTY_BOOK, 1);
      && s.journal == [halt] && s.live == live && s.saved == (if snapshot then Some(Saved(1, EMPTY_BOOK)) else None)
      && s.stream == [Entry(1, 0, e)] && s.mode == Up && s.disk == s.watermark == 1 && s.ring == [e]
      && s.runtimeLock.None? && s.egressLock.None? && s.PcOf(c) == Idle
  {
    hide Next, RunFrom;
    var s0 := Start(cfg);
    var s1 := Next(cfg, s0, Restart);
    FirstStart(cfg);
    RunFromAppend(cfg, s0, [Restart], Shot(c, Halted, snapshot));
    StatusShot(cfg, s1, c, Halted, snapshot);
  }

  /** Two entries with different keys, of which the second is not the second entry there is. */
  lemma NotAPrefix(bs: seq<seq<Event>>, x: Entry, y: Entry)
    requires |bs| >= 2 && |bs[0]| == 1 && bs[1] != []
    requires (x.seqNo, x.idx) != (y.seqNo, y.idx) && y != Entry(2, 0, bs[1][0])
    ensures !(Dedup([x, y]) <= Entries(bs))
  {
    assert [x, y][..1] == [x] && [x][..0] == [];
    assert Dedup([x]) == [x] && !HasKey([x], y);
    assert Dedup([x, y]) == [x, y];
    var rest := EntriesFrom(1, bs[1..]);
    assert Entries(bs) == BatchEntries(1, bs[0]) + rest;
    assert rest == BatchEntries(2, bs[1..][0]) + EntriesFrom(2, bs[1..][1..]);
    assert Entries(bs)[1] == rest[0] == Entry(2, 0, bs[1][0]);
  }

  /** Sequence 2 is matched and abandoned; sequence 3 is published from a ring that reaches back. */
  function AbandonRun(c: Client): seq<Action> {
    var halt := Submit(c, 0, SetStatus(Halted), false);
    HaltFirst(c, false) + [halt, Abandon(c), halt] + [EnterEgress(c), Plan(c), PublishOne(c)]
  }

  /** A run without a crash or a failed publish, and with room in the ring, that loses an event for good: after
      an abandoned submission the stream is no prefix of what a replay produces. */
  lemma {:induction false} AbandonedSequenceIsLost(cfg: Config, c: Client)
    requires cfg.capacity != 1
    ensures var s := RunAll(cfg, AbandonRun(c)); !(Dedup(s.stream) <= Entries(Out(cfg, s)))
  {
    var s0, halt := Start(cfg), Submit(c, 0, SetStatus(Halted), false);
    var a, b := HaltFirst(c, false), [halt, Abandon(c), halt];
    var d := [EnterEgress(c), Plan(c), PublishOne(c)];
    RunFromAppend(cfg, s0, a + b, d);
    RunFromAppend(cfg, s0, a, b);
    AfterHalt(cfg, c, false);
    var s1 := RunFrom(cfg, s0, a);
    ThreeSteps(cfg, s1, halt, Abandon(c), halt);
    var s4 := RunFrom(cfg, s1, b);
    ThreeSteps(cfg, s4, EnterEgress(c), Plan(c), PublishOne(c));
    hide Shot, RunFrom;
    TwoMore(cfg, s1, c);
    var s := RunFrom(cfg, s4, d);
    var cmds := s.journal;
    assert cmds == [SequencedCommand(1, 0, SetStatus(Halted)), SequencedCommand(2, 0, SetStatus(Halted)),
                    SequencedCommand(3, 0, SetStatus(Halted))];
    BatchesAreBatched(cfg.market, cmds);
    FirstBatch(cfg.market, cmds);
    hide Next, Batches;
    NotAPrefix(Out(cfg, s), s.stream[0], s.stream[1]);
  }

  /** A status change is one event. */
  lemma FirstBatch(market: MarketConfig, cmds: seq<SequencedCommand>)
    requires cmds != [] && cmds[0].command.SetStatus?
    ensures |Batches(market, cmds)[0]| == 1
  {
    ResultAt(Initial(market), cmds, 0);
    assert cmds[..0] == [];
    hide Results;
  }

  /** After a published halt: two more, the first abandoned, the second published. */
  lemma TwoMore(cfg: Config, s: State, c: Client)
    requires cfg.capacity != 1 && s.mode == Up && s.runtimeLock.None? && s.egressLock.None? && s.PcOf(c) == Idle
    requires s.live.lastSeq == s.watermark == 1 && |s.ring| == 1 && s.ring[0].Seq() == 1 && |s.stream| == 1
    ensures var halt := Submit(c, 0, SetStatus(Halted), false);
      var s4 := Next(cfg, Next(cfg, Next(cfg, s, halt), Abandon(c)), halt);
      var s' := Next(cfg, Next(cfg, Next(cfg, s4, EnterEgress(c)), Plan(c)), PublishOne(c));
      && s'.journal == s.journal + [SequencedCommand(2, 0, SetStatus(Halted)),
                                    SequencedCommand(3, 0, SetStatus(Halted))]
      && |s'.stream| == 2 && s'.stream[0] == s.stream[0] && s'.stream[1].seqNo == 3
      && s'.stream == [s'.stream[0], s'.stream[1]]
  {
    var halt := Submit(c, 0, SetStatus(Halted), false);
    ShotMatches(cfg, s, c, Halted, false);
    var s1 := Next(cfg, s, halt);
    var s2 := Next(cfg, s1, Abandon(c));
    assert s2 == s1.(runtimeLock := None).At(c, Idle);
    ShotMatches(cfg, s2, c, Halted, false);
    var s3 := Next(cfg, s2, halt);
    var e := s3.PcOf(c).output.events[0];
    PastTheHole(cfg, s3, c, e);
    hide Next;
    var s' := Next(cfg, Next(cfg, Next(cfg, s3, EnterEgress(c)), Plan(c)), PublishOne(c));
    assert s3.stream == s.stream;
  }

  /** The ring answers from the watermark, and has nothing of the sequence in between. */
  lemma PastTheHole(cfg: Config, s: State, c: Client, e: Event)
    requires cfg.capacity != 1 && s.mode == Up && s.egressLock.None? && s.PcOf(c).Matched? && s.PcOf(c).seqNo == 3
    requires s.PcOf(c).output.events == [e] && e.Seq() == 3
    requires s.watermark == 1 && |s.ring| == 1 && s.ring[0].Seq() == 1
    ensures var s' := Next(cfg, Next(cfg, Next(cfg, s, EnterEgress(c)), Plan(c)), PublishOne(c));
      s'.stream == s.stream + [Entry(3, 0, e)] && s'.journal == s.journal
  {
    RecordOnto(s.ring, e, cfg.capacity);
    var s1 := Next(cfg, s, EnterEgress(c));
    assert s1.ring == [s.ring[0], e] && s1.PcOf(c) == Entered(3, s.PcOf(c).output);
    HoleServed(s.ring[0], e);
    hide RecordAll, KeepLevels;
    assert Before(OutputsFrom(cfg, s1).0, 3) == [];
    OneKeyed(e);
    hide OutputsFrom, Before, Keyed;
    var s2 := Next(cfg, s1, Plan(c));
    assert s2.PcOf(c) == Own(3, [Entry(3, 0, e)], map[3 := s.PcOf(c).output.levels]);
    hide Rides;
  }

  lemma HoleServed(a: Event, e: Event)
    requires a.Seq() == 1 && e.Seq() == 3
    ensures RingAfter([a, e], 1) == Some([e]) && Before([e], 3) == []
  {
    assert [a, e][1..] == [e] && [e][1..] == [];
    assert After([e], 1) == [e] + [] == [e];
    assert After([a, e], 1) == After([e], 1);
  }

  /** Halted, snapshotted, crashed and restarted, then one order. */
  function ForgottenRun(c: Client, id: OrderId, request: OrderRequest): seq<Action> {
    HaltFirst(c, true) + [Crash, Restart, Submit(c, 0, Place(id, request), false)]
    + [EnterEgress(c), Plan(c), PublishOne(c)]
  }

  /** The halt is forgotten by the restart. Any order the open market admits is then published as accepted or
      expired where a replay says rejected: the stream is no prefix of the replay, though nothing was
      abandoned and no publish failed. */
  lemma {:induction false} ForgottenHaltBreaksTheStream(cfg: Config, c: Client, id: OrderId, request: OrderRequest)
    requires cfg.market.status == Open && Validate(cfg.market, None, request).None? && !request.postOnly
    ensures var s := RunAll(cfg, ForgottenRun(c, id, request)); !(Dedup(s.stream) <= Entries(Out(cfg, s)))
    ensures forall a :: a in ForgottenRun(c, id, request) ==> !a.Abandon?
  {
    hide Next, Batches, Apply, Run, Validate, Shot, RunFrom, Recovered;
    var s0, place := Start(cfg), Submit(c, 0, Place(id, request), false);
    var a, b := HaltFirst(c, true), [Crash, Restart, place];
    var d := [EnterEgress(c), Plan(c), PublishOne(c)];
    RunFromAppend(cfg, s0, a + b, d);
    RunFromAppend(cfg, s0, a, b);
    AfterHalt(cfg, c, true);
    NoneAbandoned(c, id, request);
    var s1 := RunFrom(cfg, s0, a);
    ThreeSteps(cfg, s1, Crash, Restart, place);
    var s4 := RunFrom(cfg, s1, b);
    ThreeSteps(cfg, s4, EnterEgress(c), Plan(c), PublishOne(c));
    HaltThenOrder(cfg, id, request);
    Forgets(cfg, s1, c, id, request);
    var s := RunFrom(cfg, s4, d);
    var halt, p := SequencedCommand(1, 0, SetStatus(Halted)), SequencedCommand(2, 0, Place(id, request));
    assert s.journal == [halt, p];
    NotAPrefix(Out(cfg, s), s.stream[0], s.stream[1]);
  }

  lemma NoneAbandoned(c: Client, id: OrderId, request: OrderRequest)
    ensures forall a :: a in ForgottenRun(c, id, request) ==> !a.Abandon?
  {
  }

  /** The order as the restarted engine answers it, and as a replay does. */
  lemma HaltThenOrder(cfg: Config, id: OrderId, request: OrderRequest)
    requires cfg.market.status == Open && Validate(cfg.market, None, request).None? && !request.postOnly
    ensures var halt, p := SequencedCommand(1, 0, SetStatus(Halted)), SequencedCommand(2, 0, Place(id, request));
      var bs, events := Batches(cfg.market, [halt, p]), Apply(EngineState(cfg.market, EMPTY_BOOK, 1), p).events;
      && |events| == 1 && !events[0].Rejected? && |bs[0]| == 1 && |bs[1]| == 1 && bs[1][0].Rejected?
  {
    var halt, p := SequencedCommand(1, 0, SetStatus(Halted)), SequencedCommand(2, 0, Place(id, request));
    ForgottenHalt(cfg.market, halt, p);
    FirstBatch(cfg.market, [halt, p]);
    SecondBatch(cfg.market, halt, p);
    assert [halt][..0] == [] && Run(Initial(cfg.market), [halt]).book == EMPTY_BOOK;
    hide Validate, Match, Fillable, FillCount, Batches, PlaceOrder;
    assert Recovered(cfg.market, [halt], []) == EngineState(cfg.market, EMPTY_BOOK, 1);
  }

  lemma SecondBatch(market: MarketConfig, a: SequencedCommand, b: SequencedCommand)
    ensures Batches(market, [a, b])[1] == Apply(Run(Initial(market), [a]), b).events
  {
    ResultAt(Initial(market), [a, b], 1);
    assert [a, b][..1] == [a];
    hide Results, Apply;
  }

  /** What the restarted engine publishes. */
  lemma Forgets(cfg: Config, s: State, c: Client, id: OrderId, request: OrderRequest)
    requires s.mode == Up && s.disk == 1 && s.saved == Some(Saved(1, EMPTY_BOOK)) && |s.stream| == 1
    requires |s.journal| == 1 && s.stream[0].seqNo == 1
    requires var e := EngineState(cfg.market, EMPTY_BOOK, 1);
      |Apply(e, SequencedCommand(2, 0, Place(id, request))).events| == 1
    ensures var p := SequencedCommand(2, 0, Place(id, request));
      var events := Apply(EngineState(cfg.market, EMPTY_BOOK, 1), p).events;
      var s4 := Next(cfg, Next(cfg, Next(cfg, s, Crash), Restart), Submit(c, 0, Place(id, request), false));
      var s' := Next(cfg, Next(cfg, Next(cfg, s4, EnterEgress(c)), Plan(c)), PublishOne(c));
      && s'.journal == s.journal + [p] && s'.stream == [s.stream[0], Entry(2, 0, events[0])]
  {
    var e, p := EngineState(cfg.market, EMPTY_BOOK, 1), SequencedCommand(2, 0, Place(id, request));
    CommandSpeaks(e, p);
    hide Apply, LevelsOf;
    var s1 := Next(cfg, s, Crash);
    var s2 := Next(cfg, s1, Restart);
    assert s1.journal[1..] == [];
    assert Rebuilt(cfg, s1) == e;
    assert s2.live == e && s2.mode == Up && s2.watermark == 1;
    var s3 := Next(cfg, s2, Submit(c, 0, Place(id, request), false));
    assert s3 == Append(s2, c, p, false);
    var x := s3.PcOf(c).output.events[0];
    assert s3.PcOf(c).output.events == [x];
    ShotEnters(cfg, s3, c, x);
    hide Next;
    var s5 := Next(cfg, Next(cfg, s3, EnterEgress(c)), Plan(c));
    PublishesOne(cfg, s5, c, Entry(2, 0, x));
  }

  lemma PublishesOne(cfg: Config, s: State, c: Client, x: Entry)
    requires s.mode == Up && s.PcOf(c).Own? && s.PcOf(c).todo == [x]
    ensures var s' := Next(cfg, s, PublishOne(c)); s'.stream == s.stream + [x] && s'.journal == s.journal
  {
    hide Rides;
  }
}
