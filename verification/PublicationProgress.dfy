/** The protocol can always go on: a submission nobody interferes with is published whole and acknowledged, and a
    restart that nothing interrupts brings the stream up to the journal. */
module PublicationProgress {
  import opened MatchingTypes
  import opened ReferenceMatcher
  import opened EventStream
  import opened StreamOffsets
  import opened Replay
  import opened Publication

  lemma {:induction false} RunsOn(cfg: Config, s: State, a: seq<Action>, b: seq<Action>)
    ensures RunFrom(cfg, s, a + b) == RunFrom(cfg, RunFrom(cfg, s, a), b)
  {
    hide Next;
    if b == [] {
      assert a + b == a;
    } else {
      assert (a + b)[..|a + b| - 1] == a + b[..|b| - 1];
      RunsOn(cfg, s, a, b[..|b| - 1]);
    }
  }

  lemma OneStep(cfg: Config, s: State, a: Action)
    ensures RunFrom(cfg, s, [a]) == Next(cfg, s, a)
  {
    hide Next;
    assert [a][..0] == [];
  }

  lemma Then(cfg: Config, s: State, a: Action, b: seq<Action>)
    ensures RunFrom(cfg, s, [a] + b) == RunFrom(cfg, Next(cfg, s, a), b)
  {
    hide Next, RunFrom;
    RunsOn(cfg, s, [a], b);
    OneStep(cfg, s, a);
  }

  /** Everything journaled is in the stream, once repeats are dropped. */
  ghost predicate Complete(cfg: Config, s: State) { Dedup(s.stream) == Entries(Out(cfg, s)) }

  // ------------------------------------------------------------------ a submission on its own

  /** What a submitter is in the middle of publishing. */
  function Todo(pc: Pc): seq<Entry> { if pc.Gap? || pc.Own? then pc.todo else [] }

  /** Only the stream moved, and what the submitter has left to publish. */
  ghost predicate Along(s: State, s': State, c: Client) {
    && s'.mode == s.mode && s'.journal == s.journal && s'.runtimeLock == s.runtimeLock && s'.egressLock == s.egressLock
    && s'.acked == s.acked && s'.PcOf(c).Gap? == s.PcOf(c).Gap? && s'.PcOf(c).Own? == s.PcOf(c).Own?
    && (s.PcOf(c).Gap? || s.PcOf(c).Own? ==> s'.PcOf(c).seqNo == s.PcOf(c).seqNo)
  }

  lemma SameFits(cfg: Config, s: State, s': State)
    requires Fits(cfg, s) && s'.journal == s.journal
    ensures Fits(cfg, s')
  {
    hide Batches;
    assert Out(cfg, s') == Out(cfg, s);
  }

  lemma {:induction false} Drains(cfg: Config, s: State, c: Client) returns (actions: seq<Action>)
    requires Inv(cfg, s) && Fits(cfg, s) && s.mode == Up
    ensures var s' := RunFrom(cfg, s, actions);
      Inv(cfg, s') && Fits(cfg, s') && Along(s, s', c) && Todo(s'.PcOf(c)) == []
    decreases |Todo(s.PcOf(c))|
  {
    hide Inv, Fits, RunFrom;
    actions := [];
    if Todo(s.PcOf(c)) == [] {
      NoStep(cfg, s);
    } else {
      var s1 := Next(cfg, s, PublishOne(c));
      StepKeeps(cfg, s, PublishOne(c));
      SameFits(cfg, s, s1);
      assert Along(s, s1, c) && |Todo(s1.PcOf(c))| < |Todo(s.PcOf(c))|;
      var rest := Drains(cfg, s1, c);
      actions := [PublishOne(c)] + rest;
      Then(cfg, s, PublishOne(c), rest);
    }
  }

  lemma NoStep(cfg: Config, s: State)
    ensures RunFrom(cfg, s, []) == s
  {
  }

  /** From egress on: the gap, if there is one, then the submission's own events, then the acknowledgement. */
  lemma {:induction false} Finishes(cfg: Config, s: State, c: Client, n: nat) returns (actions: seq<Action>)
    requires Inv(cfg, s) && Fits(cfg, s) && s.mode == Up && s.runtimeLock == None
    requires (s.PcOf(c).Gap? || s.PcOf(c).Own?) && s.PcOf(c).seqNo == n
    ensures var s' := RunFrom(cfg, s, actions);
      && Inv(cfg, s') && Fits(cfg, s') && s'.mode == Up && s'.journal == s.journal && s'.runtimeLock == None
      && n in s'.acked && s'.PcOf(c) == Idle && s'.egressLock == None && s'.watermark >= n
    decreases s.PcOf(c).Gap?
  {
    hide Inv, Fits, RunFrom;
    var first := Drains(cfg, s, c);
    var s1 := RunFrom(cfg, s, first);
    var confirm := Confirm(c, true, false);
    var s2 := Next(cfg, s1, confirm);
    StepKeeps(cfg, s1, confirm);
    SameFits(cfg, s1, s2);
    if s.PcOf(c).Gap? {
      HolderIsPositive(cfg, s1, c);
      var rest := Finishes(cfg, s2, c, n);
      actions := first + ([confirm] + rest);
      RunsOn(cfg, s, first, [confirm] + rest);
      Then(cfg, s1, confirm, rest);
    } else {
      actions := first + [confirm];
      RunsOn(cfg, s, first, [confirm]);
      OneStep(cfg, s1, confirm);
    }
  }

  lemma HolderIsPositive(cfg: Config, s: State, c: Client)
    requires Inv(cfg, s) && s.mode == Up && s.PcOf(c).Gap?
    ensures s.PcOf(c).seqNo > 0
  {
    hide Published, Pending, Dedup, EntriesFrom, RingOk, Run, Results, LateOk;
    assert OutputOk(cfg, s, s.PcOf(c));
  }

  /** The watermark at the journal's end means the stream is the replay. */
  lemma AtTheEnd(cfg: Config, s: State)
    requires Inv(cfg, s) && s.mode == Up && s.watermark >= |s.journal|
    ensures Complete(cfg, s) && s.watermark == |s.journal|
  {
    hide Dedup, EntriesFrom, RingOk, Run, Results, LateOk, Entries;
    CaughtUpIsComplete(Out(cfg, s), s.stream);
  }

  /** With nobody else inside and nothing failing, a submission goes all the way: it is journaled next, everything
      up to and including its events is in the stream, and it is acknowledged. */
  lemma {:induction false} SubmitGoesThrough(cfg: Config, s: State, c: Client, ts: int, command: Command,
                                             snapshot: bool)
    returns (actions: seq<Action>)
    requires Inv(cfg, s) && Fits(cfg, s) && s.mode == Up && s.runtimeLock == None && s.egressLock == None
    requires s.PcOf(c) == Idle && Fits(cfg, Next(cfg, s, Submit(c, ts, command, snapshot)))
    ensures var s', n := RunFrom(cfg, s, actions), |s.journal| + 1;
      && s'.journal == s.journal + [SequencedCommand(n, ts, command)] && n in s'.acked && s'.PcOf(c) == Idle
      && Inv(cfg, s') && s'.mode == Up && s'.watermark == n && Complete(cfg, s')
  {
    hide Inv, Fits, RunFrom;
    var submit := Submit(c, ts, command, snapshot);
    var s1 := Next(cfg, s, submit);
    StepKeeps(cfg, s, submit);
    NextIsJournaled(cfg, s);
    var s2 := Next(cfg, s1, EnterEgress(c));
    StepKeeps(cfg, s1, EnterEgress(c));
    SameFits(cfg, s1, s2);
    var s3 := Next(cfg, s2, Plan(c));
    StepKeeps(cfg, s2, Plan(c));
    SameFits(cfg, s2, s3);
    var rest := Finishes(cfg, s3, c, |s.journal| + 1);
    AtTheEnd(cfg, RunFrom(cfg, s3, rest));
    Then(cfg, s2, Plan(c), rest);
    Then(cfg, s1, EnterEgress(c), [Plan(c)] + rest);
    actions := [submit] + ([EnterEgress(c)] + ([Plan(c)] + rest));
    Then(cfg, s, submit, [EnterEgress(c)] + ([Plan(c)] + rest));
  }

  lemma NextIsJournaled(cfg: Config, s: State)
    requires Inv(cfg, s) && s.mode == Up
    ensures s.live.lastSeq == |s.journal|
  {
    hide Published, Pending, Dedup, EntriesFrom, RingOk, Results, LateOk;
    RunSeq(cfg.market, s.journal);
  }

  // ------------------------------------------------------------------ a restart on its own

  lemma {:induction false} Recovers(cfg: Config, s: State) returns (actions: seq<Action>)
    requires Inv(cfg, s) && Fits(cfg, s) && s.mode.Recovering?
    ensures var s' := RunFrom(cfg, s, actions);
      && Inv(cfg, s') && s'.mode == Up && s'.journal == s.journal && s'.acked == s.acked
      && s'.watermark >= |s.journal| && s'.disk == s'.watermark
    decreases |s.mode.todo|
  {
    hide Inv, Fits, RunFrom;
    RecoveredSeq(cfg, s);
    if s.mode.todo == [] {
      var finish := FinishRecovery(false, false);
      StepKeeps(cfg, s, finish);
      actions := [finish];
      OneStep(cfg, s, finish);
    } else {
      var s1 := Next(cfg, s, RepublishOne);
      StepKeeps(cfg, s, RepublishOne);
      SameFits(cfg, s, s1);
      var rest := Recovers(cfg, s1);
      actions := [RepublishOne] + rest;
      Then(cfg, s, RepublishOne, rest);
    }
  }

  lemma RecoveredSeq(cfg: Config, s: State)
    requires Inv(cfg, s) && s.mode.Recovering?
    ensures s.live.lastSeq == |s.journal|
  {
    hide Published, Pending, Dedup, EntriesFrom, RingOk, Results, LateOk;
    RunSeq(cfg.market, s.journal);
  }

  /** Wherever the crash fell, a restart that nothing interrupts ends up running, with every event of every journaled
      command in the stream and the watermark there, in memory and on disk. */
  lemma {:induction false} RestartCatchesUp(cfg: Config, s: State) returns (actions: seq<Action>)
    requires Inv(cfg, s) && Fits(cfg, s) && s.mode == Down && Settled(cfg, s)
    ensures var s' := RunFrom(cfg, s, actions);
      && Inv(cfg, s') && s'.mode == Up && s'.journal == s.journal
      && s'.watermark == |s.journal| && s'.disk == |s.journal| && Complete(cfg, s')
  {
    hide Inv, Fits, RunFrom;
    var s1 := Next(cfg, s, Restart);
    StepKeeps(cfg, s, Restart);
    SameFits(cfg, s, s1) by { hide Rebuilt; }
    RestartsAt(cfg, s);
    if s1.mode == Up {
      actions := [Restart];
      OneStep(cfg, s, Restart);
      AtTheEnd(cfg, s1);
    } else {
      var rest := Recovers(cfg, s1);
      actions := [Restart] + rest;
      Then(cfg, s, Restart, rest);
      AtTheEnd(cfg, RunFrom(cfg, s1, rest));
    }
  }

  lemma RestartsAt(cfg: Config, s: State)
    requires Inv(cfg, s) && s.mode == Down && Settled(cfg, s)
    ensures var s1 := Next(cfg, s, Restart);
      && (s1.mode == Up || s1.mode.Recovering?) && s1.journal == s.journal && s1.disk == s.disk == s1.watermark
      && (s1.mode == Up ==> s.disk >= |s.journal|)
  {
    hide Published, Pending, Dedup, EntriesFrom, RingOk, Results, LateOk, Rebuilt, Replayed, Run, Settled;
    RebuiltIs(cfg, s);
    RunSeq(cfg.market, s.journal);
  }
}
