/** The durable runtime: journal, then match, then snapshot on cadence; and recovery from the bytes on disk.

    The disk outlives the runtime. Whatever the cadence and at whatever byte a crash falls, recovery
    gives the engine a full replay of the complete records would. */
module Runtime {
  import opened MatchingTypes
  import opened ReferenceBook
  import opened ReferenceMatcher
  import opened MatchingRuns
  import opened OrderBook
  import opened Engine
  import opened Replay
  import opened Journal

  /** The last sequence and the book: everything but the market status. */
  datatype Snapshot = Snapshot(lastSeq: nat, shape: Shape, lastTrade: Option<u64>)

  /** What survives a crash: the journal file and the newest snapshot. */
  class Disk {
    const file: JournalFile
    var snapshot: Option<Snapshot>

    constructor ()
      ensures fresh(file) && file.bytes == None && snapshot == None
    {
      file := new JournalFile();
      snapshot := None;
    }
  }

  /** Every order id the commands introduce. */
  ghost function IdsIn(cmds: seq<SequencedCommand>): set<OrderId> {
    set i, id | 0 <= i < |cmds| && id in NamedBy(cmds[i].command) :: id
  }

  lemma IdsInPush(cmds: seq<SequencedCommand>, c: SequencedCommand)
    ensures IdsIn(cmds + [c]) == IdsIn(cmds) + NamedBy(c.command)
  {
    var all := cmds + [c];
    forall i, id | 0 <= i < |cmds| && id in NamedBy(cmds[i].command) ensures id in IdsIn(all) {
      assert all[i] == cmds[i];
    }
    forall id | id in NamedBy(c.command) ensures id in IdsIn(all) {
      assert all[|cmds|] == c;
    }
  }

  lemma FreshPush(cmds: seq<SequencedCommand>, c: SequencedCommand)
    requires FreshIds(cmds) && NamedBy(c.command) !! IdsIn(cmds)
    ensures FreshIds(cmds + [c])
  {
    var all := cmds + [c];
    forall i, j, id | 0 <= i < j < |all| && Names(all[i].command, id) ensures !Names(all[j].command, id) {
      assert all[i] == cmds[i] && id in NamedBy(cmds[i].command);
      if j < |cmds| { assert all[j] == cmds[j]; } else { assert id in IdsIn(cmds); }
    }
  }

  lemma FreshAt(cmds: seq<SequencedCommand>, i: nat)
    requires FreshIds(cmds) && i < |cmds|
    ensures NamedBy(cmds[i].command) !! IdsIn(cmds[..i])
  {
    forall id | id in IdsIn(cmds[..i]) ensures id !in NamedBy(cmds[i].command) {
      var j :| 0 <= j < i && id in NamedBy(cmds[..i][j].command);
      assert Names(cmds[j].command, id);
    }
  }

  /** A snapshot on disk is the book as the journal stood at its sequence. */
  ghost predicate SnapshotIs(s: Snapshot, market: MarketConfig, journal: seq<SequencedCommand>) {
    && s.lastSeq <= |journal|
    && var b := Run(Initial(market), journal[..s.lastSeq]).book;
       Is(s.shape, b) && b.lastTrade == s.lastTrade && s.shape.QueuedIds() <= IdsIn(journal[..s.lastSeq])
  }

  ghost predicate DiskOk(journal: seq<SequencedCommand>, snapshot: Option<Snapshot>, market: MarketConfig) {
    && Numbered(journal) && FreshIds(journal)
    && (snapshot.Some? ==> SnapshotIs(snapshot.value, market, journal))
  }

  lemma SnapshotKept(s: Snapshot, market: MarketConfig, journal: seq<SequencedCommand>, c: SequencedCommand)
    requires SnapshotIs(s, market, journal)
    ensures SnapshotIs(s, market, journal + [c])
  {
    assert (journal + [c])[..s.lastSeq] == journal[..s.lastSeq];
  }

  lemma DiskPush(journal: seq<SequencedCommand>, snapshot: Option<Snapshot>, market: MarketConfig, c: SequencedCommand)
    requires DiskOk(journal, snapshot, market) && c.seqNo == |journal| + 1 && NamedBy(c.command) !! IdsIn(journal)
    ensures DiskOk(journal + [c], snapshot, market)
    ensures IdsIn(journal + [c]) == IdsIn(journal) + NamedBy(c.command)
  {
    hide SnapshotIs, FreshIds, IdsIn;
    IdsInPush(journal, c);
    FreshPush(journal, c);
    if snapshot.Some? { SnapshotKept(snapshot.value, market, journal, c); }
  }

  /** The engine's own check of its book passes after every run of the journal. */
  lemma {:induction false} BookIsSound(engine: Engine, e: EngineState, cmds: seq<SequencedCommand>)
    requires engine.Valid() && engine.Abstract() == Run(e, cmds) && StartsFrom(e, cmds)
    ensures Sound(engine.book.State())
  {
    hide Is, Queued, Sound, Run;
    RunKeepsBook(e, cmds);
    IsSound(engine.book.State(), engine.book.view, Run(e, cmds).lastSeq);
  }

  /** How a submission can end. */
  datatype Submitted = Done(result: Result) | AppendFailed | SnapshotFailed

  class Runtime {
    const codec: Codec
    const market: MarketConfig
    const disk: Disk
    const engine: Engine
    const snapshotEvery: nat
    var lastSnapshotSeq: nat
    ghost var journal: seq<SequencedCommand>

    /** The engine in memory is the full replay of the commands it was given. */
    ghost predicate Live()
      reads this, disk, disk.file, engine, engine.book
    {
      && engine.Valid()
      && DiskOk(journal, disk.snapshot, market)
      && engine.Abstract() == Run(Initial(market), journal)
      && engine.book.State().QueuedIds() <= IdsIn(journal)
      && disk.file.bytes.Some?
      && AllWritable(codec, journal)
    }

    /** And the file on disk holds exactly those commands. */
    ghost predicate Valid()
      reads this, disk, disk.file, engine, engine.book
    {
      Live() && disk.file.bytes.value == File(codec, journal)
    }

    constructor (codec: Codec, market: MarketConfig, disk: Disk, engine: Engine, snapshotEvery: nat,
                 lastSnapshotSeq: nat, ghost journal: seq<SequencedCommand>)
      ensures this.codec == codec && this.market == market && this.disk == disk && this.engine == engine
      ensures this.snapshotEvery == snapshotEvery && this.lastSnapshotSeq == lastSnapshotSeq
      ensures this.journal == journal
    {
      this.codec, this.market, this.disk, this.engine := codec, market, disk, engine;
      this.snapshotEvery, this.lastSnapshotSeq, this.journal := snapshotEvery, lastSnapshotSeq, journal;
    }

    /** Sequence, append and sync, match, snapshot when due.

        The sequence is the next number with no gap or repeat; the events and levels returned are
        the ones a replay of the journal produces for this command. A failed append changes nothing in
        memory, and leaves the disk as it was exactly when none of its bytes landed; a failed snapshot
        write loses the reply and not the command. */
    method Submit(timestampMs: int, command: Command, fault: Option<nat>, snapshotFails: bool) returns (r: Submitted)
      requires Live() && NamedBy(command) !! IdsIn(journal)
      modifies this, disk, disk.file, engine, engine.book
      ensures Live() && Sound(engine.book.State())
      ensures var c := SequencedCommand(|old(journal)| + 1, timestampMs, command);
        && (r.AppendFailed? <==> !Writable(codec, c) || fault.Some?)
        && disk.file.bytes.value == old(disk.file.bytes.value) + Written(codec, c, fault)
        && (old(Valid()) ==> (Valid() <==> r.AppendFailed? ==> Written(codec, c, fault) == []))
        && if r.AppendFailed?
           then journal == old(journal) && engine.Abstract() == old(engine.Abstract())
           else journal == old(journal) + [c]
      ensures var due := SaturatingSub(|journal|, old(lastSnapshotSeq)) >= snapshotEvery;
        && (r.SnapshotFailed? <==> !r.AppendFailed? && due && snapshotFails)
        && if r.Done? && due
           then disk.snapshot.Some? && disk.snapshot.value.lastSeq == |journal| == lastSnapshotSeq
           else disk.snapshot == old(disk.snapshot) && lastSnapshotSeq == old(lastSnapshotSeq)
      ensures r.Done? ==> r.result == Results(Initial(market), journal)[|journal| - 1]
    {
      hide Is, Queued, Run, Results, SnapshotIs, FreshIds, IdsIn, Records, Record, Sound;
      RunSeq(market, journal);
      var c := SequencedCommand(engine.lastSeq + 1, timestampMs, command);
      FileGrows(codec, journal, c);
      var ok := disk.file.Append(codec, c, fault);
      if !ok {
        SoundNow();
        NothingLanded(codec, journal, c, fault);
        return AppendFailed;
      }
      var result := Match(c);
      SoundNow();
      if SaturatingSub(c.seqNo, lastSnapshotSeq) >= snapshotEvery {
        if snapshotFails { return SnapshotFailed; }
        WriteSnapshot();
      }
      r := Done(result);
    }

    /** A live runtime's book passes the engine's own invariant. */
    lemma SoundNow()
      requires Live()
      ensures Sound(engine.book.State())
    {
      hide Sound, Is, Queued, Run, BookInv;
      NumberedIsOrdered(journal);
      EmptyBookIsOk();
      BookIsSound(engine, Initial(market), journal);
    }

    /** Match a command that is already durable. */
    method Match(c: SequencedCommand) returns (r: Result)
      requires Live() && c.seqNo == |journal| + 1 && NamedBy(c.command) !! IdsIn(journal) && Writable(codec, c)
      modifies this`journal, engine, engine.book
      ensures Live() && journal == old(journal) + [c]
      ensures r == Results(Initial(market), journal)[|journal| - 1]
    {
      hide Is, Queued, Apply, LevelsOf, IdsIn, DiskOk, Writable;
      ghost var before := journal;
      FreshCommand(engine, c.command, IdsIn(before));
      DiskPush(before, disk.snapshot, market, c);
      RunPush(market, before, c);
      journal := journal + [c];
      hide Run, Results;
      var events := engine.Apply(c);
      var levels := engine.TakeLevelChanges();
      r := Result(events, levels);
    }

    method WriteSnapshot()
      requires Live()
      modifies this`lastSnapshotSeq, disk`snapshot
      ensures Live() && lastSnapshotSeq == |journal|
      ensures disk.snapshot.Some? && disk.snapshot.value.lastSeq == |journal|
    {
      RunSeq(market, journal);
      assert journal[..|journal|] == journal;
      hide LadderIs, Queued, Run, FreshIds;
      disk.snapshot := Some(Snapshot(engine.lastSeq, engine.book.State(), engine.book.lastTradePrice));
      lastSnapshotSeq := engine.lastSeq;
    }
  }

  lemma NumberedIsOrdered(journal: seq<SequencedCommand>)
    requires Numbered(journal)
    ensures Ordered(0, journal) && Increasing(journal)
  {
  }

  lemma FileGrows(codec: Codec, journal: seq<SequencedCommand>, c: SequencedCommand)
    ensures File(codec, journal) + Record(codec, c) == File(codec, journal + [c])
  {
    hide Record;
    RecordsAppend(codec, journal, [c]);
    assert [c][1..] == [] && Records(codec, [c]) == Record(codec, c) + [];
  }

  lemma NothingLanded(codec: Codec, journal: seq<SequencedCommand>, c: SequencedCommand, fault: Option<nat>)
    ensures File(codec, journal) + Written(codec, c, fault) == File(codec, journal) <==> Written(codec, c, fault) == []
  {
    hide Written, File;
    var a, b := File(codec, journal), Written(codec, c, fault);
    assert |a + b| == |a| + |b|;
    if b == [] { assert a + b == a; }
  }

  /** Fresh against the journal is fresh against the queues. */
  lemma FreshCommand(engine: Engine, command: Command, ids: set<OrderId>)
    requires engine.Valid() && NamedBy(command) !! ids && engine.book.State().QueuedIds() <= ids
    ensures engine.FreshFor(command)
  {
    hide Is, Queued;
  }

  // ------------------------------------------------------------------ recovery

  /** How many commands of a journal survive when its file is cut after `n` bytes. */
  function Kept(codec: Codec, cmds: seq<SequencedCommand>, n: nat): (k: nat)
    ensures k <= |cmds|
  {
    if n < HEADER_LEN then 0 else Complete(codec, cmds, n - HEADER_LEN)
  }

  /** A cut that recovery refuses: inside the header, or with bytes of the torn record that happen to read as
      an intact one. */
  ghost predicate Refused(codec: Codec, cmds: seq<SequencedCommand>, n: nat)
    requires n <= |File(codec, cmds)|
  {
    n < HEADER_LEN
    || var end := |File(codec, cmds[..Kept(codec, cmds, n)])|;
       end < n && IntactAfter(codec, File(codec, cmds)[..n], end)
  }

  /** The file holds the first `n` bytes of a journal of these commands; a journal never begun has no file. */
  ghost predicate CutOf(file: Option<Bytes>, codec: Codec, cmds: seq<SequencedCommand>, n: nat) {
    match file
    case None => cmds == [] && n == HEADER_LEN
    case Some(bytes) => n <= |File(codec, cmds)| && bytes == File(codec, cmds)[..n]
  }

  function FromSeq(snapshot: Option<Snapshot>): nat { if snapshot.Some? then snapshot.value.lastSeq else 0 }

  lemma {:induction false} SkippedNumbered(cmds: seq<SequencedCommand>, base: nat, afterSeq: nat)
    requires forall i :: 0 <= i < |cmds| ==> cmds[i].seqNo == base + i + 1
    requires base <= afterSeq <= base + |cmds|
    ensures Skipped(cmds, afterSeq) == afterSeq - base
    decreases |cmds|
  {
    if cmds == [] || cmds[0].seqNo > afterSeq {
    } else {
      SkippedNumbered(cmds[1..], base + 1, afterSeq);
    }
  }

  /** What the file answers when it is cut at any byte and replayed after the snapshot. */
  lemma {:induction false} CutAnswers(codec: Codec, cmds: seq<SequencedCommand>, n: nat, from: nat, r: Outcome)
    requires Lawful(codec) && AllWritable(codec, cmds) && Numbered(cmds) && n <= |File(codec, cmds)|
    requires from <= Kept(codec, cmds, n) && Answers(codec, File(codec, cmds)[..n], from, r)
    ensures var k := Kept(codec, cmds, n);
      var end := |File(codec, cmds[..k])|;
      && (Refused(codec, cmds, n) <==> r.Err?)
      && (r.Ok? ==> && r.value.commands == cmds[from..k] && HEADER_LEN <= end <= n
                    && r.value.truncatedAt == (if end < n then Some(end) else None)
                    && File(codec, cmds)[..n][..end] == File(codec, cmds[..k]))
  {
    hide Record, Records, Complete, Lawful, Writable, IntactAfter, Scan;
    var k := Kept(codec, cmds, n);
    if n < HEADER_LEN {
      assert !Sits(File(codec, cmds)[..n], 0, HEADER);
    } else {
      NumberedIsOrdered(cmds);
      CutReplaysToPrefix(codec, cmds, n, from, r);
      RepairedCut(codec, cmds, n);
      SkippedNumbered(cmds[..k], 0, from);
      assert cmds[..k][from..] == cmds[from..k];
    }
  }

  /** Restart: newest snapshot, then the journal after it as the file still has it, with the configured market.

      For a crash at ANY byte of an append, and any snapshot taken before it: recovery is refused exactly when
      the cut is inside the header or the torn bytes read as a record. Otherwise the torn tail is gone
      from disk, sequencing resumes after the complete records, the book is sound, and, given that the
      status at the snapshot is the configured one, the engine is the full replay. */
  method Recover(codec: Codec, market: MarketConfig, disk: Disk, snapshotEvery: nat,
                 ghost cmds: seq<SequencedCommand>, ghost n: nat) returns (r: Option<Runtime>)
    requires Lawful(codec) && AllWritable(codec, cmds) && CutOf(disk.file.bytes, codec, cmds, n)
    requires DiskOk(cmds[..Kept(codec, cmds, n)], disk.snapshot, market)
    requires Numbered(cmds)
    modifies disk.file
    ensures r.None? <==> Refused(codec, cmds, n)
    ensures r.None? ==> disk.file.bytes == old(disk.file.bytes)
    ensures r.Some? ==>
      var rt, kept, from := r.value, cmds[..Kept(codec, cmds, n)], FromSeq(disk.snapshot);
      && fresh(rt) && fresh(rt.engine) && fresh(rt.engine.book)
      && rt.codec == codec && rt.market == market && rt.disk == disk && rt.snapshotEvery == snapshotEvery
      && rt.journal == kept && disk.file.bytes == Some(File(codec, kept))
      && rt.engine.lastSeq == |kept| && Sound(rt.engine.book.State())
      && from <= |kept| && rt.engine.Abstract() == Recovered(market, kept[..from], kept[from..])
      && (Status(market, kept[..from]) == market.status ==> rt.Valid())
  {
    hide Is, Queued, Run, Fold, IdsIn, SnapshotIs, FreshIds, Records, Record, Complete, Lawful, Writable, Sound,
      IntactAfter;
    hide Answers;
    ghost var kept := cmds[..Kept(codec, cmds, n)];
    var engine, from := Load(market, disk, kept);
    var replayed := disk.file.ReplayFile(codec, from, true);
    if disk.file.bytes.None? {
      assert kept == [] && n == HEADER_LEN;
      NoFile(codec);
    } else {
      CutAnswers(codec, cmds, n, from, replayed);
    }
    if replayed.Err? { return None; }
    assert disk.file.bytes.Some? ==>
        |disk.file.bytes.value| >= HEADER_LEN && disk.file.bytes.value == File(codec, kept);
    assert replayed.value.commands == kept[from..];
    ghost var start := engine.Abstract();
    ReplayTail(engine, replayed.value.commands, kept, from);
    var _ := engine.TakeLevelChanges();
    FoldIsRun(start, kept[from..]);
    var refusal := disk.file.Open();
    RecoveredIs(engine, market, kept, from);
    var rt := new Runtime(codec, market, disk, engine, snapshotEvery, from, kept);
    r := Some(rt);
  }

  lemma NoFile(codec: Codec)
    ensures !Refused(codec, [], HEADER_LEN) && File(codec, []) == HEADER && HEADER != []
  {
  }

  /** The recovered engine: sound in any case, and the full replay when the statuses agree. */
  lemma RecoveredIs(engine: Engine, market: MarketConfig, kept: seq<SequencedCommand>, from: nat)
    requires Numbered(kept) && from <= |kept| && engine.Valid()
    requires engine.Abstract() == Recovered(market, kept[..from], kept[from..])
    ensures engine.lastSeq == |kept| && Sound(engine.book.State())
    ensures Status(market, kept[..from]) == market.status ==> engine.Abstract() == Run(Initial(market), kept)
  {
    hide Is, Queued, Sound, Run, BookInv, Recovered;
    RecoveredRuns(market, kept, from);
    var at := Run(Initial(market), kept[..from]);
    BookIsSound(engine, EngineState(market, at.book, at.lastSeq), kept[from..]);
  }

  lemma RecoveredRuns(market: MarketConfig, kept: seq<SequencedCommand>, from: nat)
    requires Numbered(kept) && from <= |kept|
    ensures var at := Run(Initial(market), kept[..from]);
      var start := EngineState(market, at.book, at.lastSeq);
      && StartsFrom(start, kept[from..]) && Recovered(market, kept[..from], kept[from..]) == Run(start, kept[from..])
      && Run(start, kept[from..]).lastSeq == |kept|
    ensures Status(market, kept[..from]) == market.status ==>
      Recovered(market, kept[..from], kept[from..]) == Run(Initial(market), kept)
  {
    hide Run, BookInv, Ordered, Numbered;
    OrderedParts(kept, from);
    RunSeq(market, kept[..from]);
    EmptyBookIsOk();
    RunKeepsBook(Initial(market), kept[..from]);
    var at := Run(Initial(market), kept[..from]);
    RunKeepsBook(EngineState(market, at.book, at.lastSeq), kept[from..]);
    SnapshotRecoveryExact(market, kept[..from]);
    assert Recovered(market, kept[..from], kept[from..]) == Run(EngineState(market, at.book, at.lastSeq), kept[from..]);
  }

  lemma OrderedParts(kept: seq<SequencedCommand>, from: nat)
    requires Numbered(kept) && from <= |kept|
    ensures Numbered(kept[..from]) && Ordered(0, kept[..from]) && Ordered(from, kept[from..])
    ensures kept[from..] != [] ==> kept[from..][|kept[from..]| - 1].seqNo == |kept|
    ensures kept[..from] + kept[from..] == kept
  {
  }

  lemma FoldNone(e: EngineState)
    ensures Fold(e, []) == e
  {
  }

  lemma TailStep(start: EngineState, journal: seq<SequencedCommand>, from: nat, i: nat)
    requires from <= i < |journal| && FreshIds(journal)
    ensures Fold(start, journal[from..i + 1]) == Apply(Fold(start, journal[from..i]), journal[i]).state
    ensures IdsIn(journal[..i + 1]) == IdsIn(journal[..i]) + NamedBy(journal[i].command)
    ensures NamedBy(journal[i].command) !! IdsIn(journal[..i])
  {
    hide Apply, IdsIn;
    assert journal[from..i + 1][..i - from] == journal[from..i];
    assert journal[..i + 1] == journal[..i] + [journal[i]];
    IdsInPush(journal[..i], journal[i]);
    FreshAt(journal, i);
  }

  /** Apply every replayed command, discarding the events. */
  method ReplayTail(engine: Engine, commands: seq<SequencedCommand>, ghost journal: seq<SequencedCommand>,
                    ghost from: nat)
    requires engine.Valid() && from <= |journal| && FreshIds(journal) && commands == journal[from..]
    requires engine.book.State().QueuedIds() <= IdsIn(journal[..from])
    modifies engine, engine.book
    ensures engine.Valid() && engine.Abstract() == Fold(old(engine.Abstract()), journal[from..])
    ensures engine.book.State().QueuedIds() <= IdsIn(journal)
  {
    ghost var start := engine.Abstract();
    hide Is, Queued, Apply, IdsIn, FreshIds, Fold;
    assert journal[from..from] == [] && Fold(start, []) == start by { FoldNone(start); }
    ghost var k := from;
    for i := 0 to |commands|
      invariant k == from + i && engine.Valid() && engine.Abstract() == Fold(start, journal[from..k])
      invariant engine.book.State().QueuedIds() <= IdsIn(journal[..k])
    {
      var c := commands[i];
      assert c == journal[k];
      TailStep(start, journal, from, k);
      FreshCommand(engine, c.command, IdsIn(journal[..k]));
      var _ := engine.Apply(c);
      k := k + 1;
    }
    assert journal[..k] == journal && journal[from..k] == journal[from..];
  }

  /** The starting engine: the snapshotted book under the configured market, or an empty one. */
  method Load(market: MarketConfig, disk: Disk, ghost journal: seq<SequencedCommand>)
    returns (engine: Engine, from: nat)
    requires DiskOk(journal, disk.snapshot, market)
    ensures fresh(engine) && fresh(engine.book) && engine.Valid() && from == FromSeq(disk.snapshot) <= |journal|
    ensures var at := Run(Initial(market), journal[..from]);
      engine.Abstract() == EngineState(market, at.book, at.lastSeq)
    ensures engine.Abstract().book.touched == {}
    ensures engine.book.State().QueuedIds() <= IdsIn(journal[..from])
  {
    if disk.snapshot.Some? {
      var s := disk.snapshot.value;
      ghost var at := Run(Initial(market), journal[..s.lastSeq]);
      RunSeq(market, journal[..s.lastSeq]);
      hide Is, Queued, Run, IdsIn;
      engine := new Engine.WithBook(market, s.shape, s.lastTrade, s.lastSeq, at.book);
      from := s.lastSeq;
    } else {
      engine := new Engine(market);
      from := 0;
      NothingQueued(engine.book.State());
    }
  }

  lemma NothingQueued(s: Shape)
    requires Is(s, EMPTY_BOOK)
    ensures s.QueuedIds() == {}
  {
    EmptyLadder(s.bids, s.orders, []);
    EmptyLadder(s.asks, s.orders, []);
  }
}
