/** Publication: submitters, two locks, partial failures, crashes and recovery, as a state machine.

    Any number of submitters run at once. Each step is one thing the code does without giving up a
    lock; steps of different submitters interleave freely, a publish may fail after any event, an entry
    whose publish timed out may still arrive at any later time, and the process may crash between any
    two steps. What is published is what the live engine produced: that it is also what a replay of the
    journal produces is proved, not assumed. */
module Publication {
  import opened MatchingTypes
  import opened ReferenceBook
  import opened ReferenceMatcher
  import opened MatchingRuns
  import opened Replay
  import opened EventContract
  import opened EventStream
  import opened Egress
  import opened StreamOffsets

  /** The events of each journaled command: what a full replay of the journal produces. */
  function Batches(market: MarketConfig, journal: seq<SequencedCommand>): (bs: seq<seq<Event>>)
    ensures |bs| == |journal|
  {
    var results := Results(Initial(market), journal);
    seq(|journal|, i requires 0 <= i < |journal| => results[i].events)
  }

  lemma BatchesAreBatched(market: MarketConfig, journal: seq<SequencedCommand>)
    requires Numbered(journal)
    ensures Batched(Batches(market, journal))
  {
    var bs := Batches(market, journal);
    forall i | 0 <= i < |bs| ensures bs[i] != [] && AllOf(i + 1, bs[i]) {
      ResultAt(Initial(market), journal, i);
      CommandSpeaks(Run(Initial(market), journal[..i]), journal[i]);
    }
  }

  /** Replay is deterministic: journaling one more command adds one result and changes none. */
  lemma ResultsPush(market: MarketConfig, journal: seq<SequencedCommand>, c: SequencedCommand)
    ensures var results := Results(Initial(market), journal + [c]);
      results == Results(Initial(market), journal) + [results[|journal|]]
  {
    assert (journal + [c])[..|journal|] == journal;
    hide Apply, Run;
  }

  lemma BatchesPush(market: MarketConfig, journal: seq<SequencedCommand>, c: SequencedCommand)
    ensures var bs' := Batches(market, journal + [c]); bs' == Batches(market, journal) + [bs'[|journal|]]
  {
    ResultsPush(market, journal, c);
    hide Results;
  }

  type Client = nat

  /** Where a submitter stands, and what its command produced. */
  datatype Pc =
    | Idle
    | Matched(seqNo: nat, output: Result)       // runtime lock held: journaled and matched
    | Entered(seqNo: nat, output: Result)       // egress lock held: recorded in the ring
    | Gap(seqNo: nat, output: Result, todo: seq<Entry>, riding: map<nat, Levels>)
                                                // egress lock held: republishing what came before
    | Own(seqNo: nat, todo: seq<Entry>, riding: map<nat, Levels>)
                                                // egress lock held: publishing its own events

  predicate InEgress(pc: Pc) { pc.Entered? || pc.Gap? || pc.Own? }

  datatype Mode = Up | Down | Recovering(todo: seq<Entry>, riding: map<nat, Levels>)

  /** A snapshot: the last sequence and the book, and not the market's status. */
  datatype Saved = Saved(lastSeq: nat, book: Book)

  datatype State = State(
    journal: seq<SequencedCommand>,             // durable
    saved: Option<Saved>,                       // durable: the newest snapshot
    disk: nat,                                  // durable: the persisted watermark
    stream: seq<Entry>,                         // durable, append-only
    rides: seq<Option<Levels>>,                 // durable: the levels each stream entry carries
    late: seq<Entry>,                           // on their way to the stream when their publish timed out
    lateRides: seq<Option<Levels>>,
    mode: Mode,
    runtimeLock: Option<Client>, egressLock: Option<Client>, pcs: map<Client, Pc>,
    live: EngineState,                          // lost in a crash, like all below
    ring: seq<Event>, ringLevels: map<nat, Levels>, watermark: nat,
    booted: nat, entered: seq<nat>,             // history: sequences that entered egress since boot
    acked: set<nat>)                            // history: sequences a caller was told succeeded
  {
    function PcOf(c: Client): Pc { if c in pcs then pcs[c] else Idle }

    function At(c: Client, pc: Pc): State { this.(pcs := pcs[c := pc]) }
  }

  datatype Config = Config(market: MarketConfig, capacity: nat)

  function Out(cfg: Config, s: State): seq<seq<Event>> { Batches(cfg.market, s.journal) }

  datatype Action =
    | Submit(client: Client, timestampMs: int, command: Command, snapshot: bool)
    | EnterEgress(client: Client)
    | Plan(client: Client)
    | PublishOne(client: Client)
    | Confirm(client: Client, flush: bool, fails: bool)
    | Fail(client: Client)
    | TimeOut(client: Client)
    | TimeOutRecovery
    | Arrive(n: nat)
    | Abandon(client: Client)
    | FlushWatermark
    | Crash
    | Restart
    | RepublishOne
    | FinishRecovery(fails: bool, synced: bool)

  /** Nothing journaled, nothing published, not yet started. */
  function Start(cfg: Config): State {
    State([], None, 0, [], [], [], [], Down, None, None, map[], Initial(cfg.market), [], map[], 0, 0, [], {})
  }

  function Max(a: nat, b: nat): nat { if a >= b then a else b }

  /** The engine a restart builds: the configured market, the snapshotted book, then the tail. */
  function Rebuilt(cfg: Config, s: State): EngineState {
    match s.saved
    case None => Run(Initial(cfg.market), s.journal)
    case Some(at) => Run(EngineState(cfg.market, at.book, at.lastSeq), s.journal[Min(at.lastSeq, |s.journal|)..])
  }

  /** Every event after `w` and each sequence's levels, re-derived from the journal. */
  function Replayed(cfg: Config, s: State, w: nat): (seq<Event>, map<nat, Levels>) {
    (After(Flat(Out(cfg, s)), w), LevelsOver(Results(Initial(cfg.market), s.journal), w))
  }

  /** The levels of each result after the first `w`, by sequence. */
  function LevelsOver(results: seq<Result>, w: nat): map<nat, Levels> {
    if |results| <= w then map[]
    else LevelsOver(results[..|results| - 1], w)[|results| := results[|results| - 1].levels]
  }

  /** Egress's answer to "everything after the watermark": the ring if it reaches, else a replay. */
  function OutputsFrom(cfg: Config, s: State): (seq<Event>, map<nat, Levels>) {
    match RingAfter(s.ring, s.watermark)
    case Some(events) => (events, LevelsAfter(s.ringLevels, s.watermark))
    case None => Replayed(cfg, s, s.watermark)
  }

  /** Levels ride on the LAST entry of their sequence among those being published. */
  function Rides(todo: seq<Entry>, riding: map<nat, Levels>): Option<Levels>
    requires todo != []
  {
    if (|todo| == 1 || todo[1].seqNo != todo[0].seqNo) && todo[0].seqNo in riding
    then Some(riding[todo[0].seqNo]) else None
  }

  function Publish(s: State, todo: seq<Entry>, riding: map<nat, Levels>): State
    requires todo != []
  {
    s.(stream := s.stream + [todo[0]], rides := s.rides + [Rides(todo, riding)])
  }

  /** One step. An action whose guard does not hold changes nothing. */
  function Next(cfg: Config, s: State, a: Action): State {
    match a
    case Submit(c, ts, command, snapshot) =>
      if s.mode != Up || s.runtimeLock.Some? || s.PcOf(c) != Idle then s
      else Append(s, c, SequencedCommand(s.live.lastSeq + 1, ts, command), snapshot)
    case EnterEgress(c) =>
      // Hand over hand: egress is taken before runtime is dropped.
      if s.mode != Up || s.egressLock.Some? || !s.PcOf(c).Matched? then s
      else
        var pc := s.PcOf(c);
        var ring := RecordAll(s.ring, pc.output.events, cfg.capacity);
        s.(egressLock := Some(c), runtimeLock := None, ring := ring,
           ringLevels := KeepLevels(s.ringLevels, ring, pc.output.events, pc.output.levels),
           entered := s.entered + [pc.seqNo]).At(c, Entered(pc.seqNo, pc.output))
    case Plan(c) =>
      if s.mode != Up || !s.PcOf(c).Entered? then s
      else
        var pc := s.PcOf(c);
        var (events, riding) := OutputsFrom(cfg, s);
        var gap := if s.watermark + 1 < pc.seqNo then Before(events, pc.seqNo) else [];
        if gap != [] then s.At(c, Gap(pc.seqNo, pc.output, Keyed(gap), riding))
        else StartOwn(s, c, pc.seqNo, pc.output)
    case PublishOne(c) =>
      if s.mode != Up then s
      else
        (match s.PcOf(c)
         case Gap(n, output, todo, riding) =>
           if todo == [] then s else Publish(s, todo, riding).At(c, Gap(n, output, todo[1..], riding))
         case Own(n, todo, riding) =>
           if todo == [] then s else Publish(s, todo, riding).At(c, Own(n, todo[1..], riding))
         case _ => s)
    case Confirm(c, flush, fails) =>
      if s.mode != Up then s
      else
        (match s.PcOf(c)
         case Gap(n, output, todo, _) =>
           if todo != [] || n == 0 then s
           else
             var s' := Advance(s, n - 1, flush);
             if fails then s'.(egressLock := None).At(c, Idle) else StartOwn(s', c, n, output)
         case Own(n, todo, _) =>
           if todo != [] then s
           else
             var s' := Advance(s, n, flush).(egressLock := None).At(c, Idle);
             if fails then s' else s'.(acked := s.acked + {n})
         case _ => s)
    case Fail(c) =>
      if s.mode == Up && InEgress(s.PcOf(c))
      then s.(egressLock := None).At(c, Idle) else s
    case TimeOut(c) =>
      // The publish is given up with its next entry sent and unanswered: it may still arrive.
      if s.mode != Up then s
      else
        (match s.PcOf(c)
         case Gap(_, _, todo, riding) =>
           if todo == [] then s else SendLate(s, todo, riding).(egressLock := None).At(c, Idle)
         case Own(_, todo, riding) =>
           if todo == [] then s else SendLate(s, todo, riding).(egressLock := None).At(c, Idle)
         case _ => s)
    case TimeOutRecovery =>
      if !s.mode.Recovering? || s.mode.todo == [] then s
      else SendLate(s, s.mode.todo, s.mode.riding).(mode := Down)
    case Arrive(n) =>
      if n >= |s.late| || |s.lateRides| != |s.late| then s
      else s.(stream := s.stream + [s.late[n]], rides := s.rides + [s.lateRides[n]],
              late := s.late[..n] + s.late[n + 1..], lateRides := s.lateRides[..n] + s.lateRides[n + 1..])
    case Abandon(c) =>
      // A submission that ends between matching and egress, as a failed snapshot write ends one.
      if s.mode == Up && s.PcOf(c).Matched? then s.(runtimeLock := None).At(c, Idle) else s
    case FlushWatermark => if s.mode == Up then s.(disk := s.watermark) else s
    case Crash =>
      s.(mode := Down, runtimeLock := None, egressLock := None, pcs := map[], live := Initial(cfg.market),
         ring := [], ringLevels := map[], watermark := 0)
    case Restart =>
      if s.mode != Down then s
      else
        var live := Rebuilt(cfg, s);
        var s' := s.(live := live, watermark := s.disk, booted := live.lastSeq, entered := [],
                     ring := [], ringLevels := map[]);
        if s.disk >= live.lastSeq then s'.(mode := Up)
        else
          var (events, riding) := Replayed(cfg, s, s.disk);
          s'.(mode := Recovering(Keyed(events), riding))
    case RepublishOne =>
      if !s.mode.Recovering? || s.mode.todo == [] then s
      else Publish(s, s.mode.todo, s.mode.riding).(mode := Recovering(s.mode.todo[1..], s.mode.riding))
    case FinishRecovery(fails, synced) =>
      // The advance may sync the watermark on its cadence; then it is synced in any case. Either may fail.
      if !s.mode.Recovering? then s
      else if s.mode.todo != [] then s.(mode := Down)
      else
        var w := Max(s.watermark, s.live.lastSeq);
        if fails then s.(mode := Down, disk := if synced then w else s.disk)
        else s.(mode := Up, watermark := w, disk := w)
  }

  /** The next entry leaves for the stream and does not come back confirmed. */
  function SendLate(s: State, todo: seq<Entry>, riding: map<nat, Levels>): State
    requires todo != []
  {
    s.(late := s.late + [todo[0]], lateRides := s.lateRides + [Rides(todo, riding)])
  }

  /** Journal, match with the LIVE engine, and snapshot its book when one is due. */
  function Append(s: State, client: Client, c: SequencedCommand, snapshot: bool): State {
    var out := Apply(s.live, c);
    var live := ClearTouched(out.state);
    s.(journal := s.journal + [c], live := live, runtimeLock := Some(client),
       saved := if snapshot then Some(Saved(c.seqNo, live.book)) else s.saved)
     .At(client, Matched(c.seqNo, Result(out.events, LevelsOf(out.state.book))))
  }

  function StartOwn(s: State, c: Client, n: nat, output: Result): State {
    s.At(c, Own(n, Keyed(output.events), map[n := output.levels]))
  }

  /** Publish first, then advance: the watermark never leads the stream. */
  function Advance(s: State, n: nat, flush: bool): State {
    var w := Max(s.watermark, n);
    s.(watermark := w, disk := if flush then w else s.disk)
  }

  function RunFrom(cfg: Config, s: State, actions: seq<Action>): State {
    if actions == [] then s
    else Next(cfg, RunFrom(cfg, s, actions[..|actions| - 1]), actions[|actions| - 1])
  }

  function RunAll(cfg: Config, actions: seq<Action>): State { RunFrom(cfg, Start(cfg), actions) }

  // ------------------------------------------------------------------ the invariant

  function LastEntered(s: State): nat { s.booted + |s.entered| }

  /** Every event of sequences up to `w` is in the stream. */
  ghost predicate Published(bs: seq<seq<Event>>, stream: seq<Entry>, w: nat) {
    w <= |bs| && Offset(bs, w) <= |Dedup(stream)|
  }

  /** What is still to publish ends at sequence `to`, and everything before it has been published. */
  ghost predicate Pending(bs: seq<seq<Event>>, stream: seq<Entry>, todo: seq<Entry>, to: nat) {
    && to <= |bs| && |todo| <= Offset(bs, to) <= |Entries(bs)|
    && todo == Entries(bs)[Offset(bs, to) - |todo|..Offset(bs, to)]
    && Offset(bs, to) - |todo| <= |Dedup(stream)|
  }

  /** Everything before an entry that may still arrive has already been published. */
  ghost predicate Behind(bs: seq<seq<Event>>, stream: seq<Entry>, e: Entry) {
    exists p: nat :: p < |Entries(bs)| && p <= |Dedup(stream)| && Entries(bs)[p] == e
  }

  ghost predicate LateOk(bs: seq<seq<Event>>, stream: seq<Entry>, late: seq<Entry>) {
    forall e :: e in late ==> Behind(bs, stream, e)
  }

  /** A snapshot is the replayed book at its sequence. */
  ghost predicate SavedOk(cfg: Config, s: State) {
    s.saved.Some? ==>
      && s.saved.value.lastSeq <= |s.journal|
      && s.saved.value.book == Run(Initial(cfg.market), s.journal[..s.saved.value.lastSeq]).book
  }

  /** The journal, the snapshot, the stream and what is on disk: what a crash leaves behind. */
  ghost predicate Durable(cfg: Config, s: State) {
    && Numbered(s.journal) && SavedOk(cfg, s)
    && Dedup(s.stream) <= Entries(Out(cfg, s))
    && LateOk(Out(cfg, s), s.stream, s.late)
    && Published(Out(cfg, s), s.stream, s.disk)
    && forall n :: n in s.acked ==> Published(Out(cfg, s), s.stream, n)
  }

  /** The live engine is the full replay of the journal. */
  ghost predicate LiveOk(cfg: Config, s: State) { s.live == Run(Initial(cfg.market), s.journal) }

  /** What a submitter carries is what a replay of its command produces. */
  ghost predicate OutputOk(cfg: Config, s: State, pc: Pc) {
    pc.Matched? || pc.Entered? || pc.Gap? ==>
      0 < pc.seqNo <= |s.journal| && pc.output == Results(Initial(cfg.market), s.journal)[pc.seqNo - 1]
  }

  ghost predicate OutputsOk(cfg: Config, s: State) { forall c: Client :: OutputOk(cfg, s, s.PcOf(c)) }

  /** Locks: a lock's holder is exactly where holding it puts one, and nobody else is there. */
  ghost predicate Locks(s: State) {
    forall c: Client ::
      && (s.PcOf(c).Matched? <==> s.runtimeLock == Some(c))
      && (InEgress(s.PcOf(c)) <==> s.egressLock == Some(c))
  }

  /** Egress is entered in exact sequence order: one after the other, none skipped, none twice. */
  ghost predicate InOrder(s: State) {
    && (forall i :: 0 <= i < |s.entered| ==> s.entered[i] == s.booted + i + 1)
    && (if s.runtimeLock.Some?
        then s.PcOf(s.runtimeLock.value).Matched? && s.PcOf(s.runtimeLock.value).seqNo == |s.journal|
             && LastEntered(s) == |s.journal| - 1
        else LastEntered(s) == |s.journal|)
    && (s.egressLock.Some? ==> |s.entered| > 0)
  }

  /** The submitter holding egress is the last to enter, and the watermark is behind it. */
  ghost predicate Holder(bs: seq<seq<Event>>, s: State, pc: Pc) {
    match pc
    case Entered(n, _) => n == LastEntered(s) && s.watermark < n
    case Gap(n, _, todo, _) => n == LastEntered(s) && s.watermark < n && Pending(bs, s.stream, todo, n - 1)
    case Own(n, todo, _) => n == LastEntered(s) && s.watermark < n && Pending(bs, s.stream, todo, n)
    case _ => true
  }

  ghost predicate RingOk(bs: seq<seq<Event>>, s: State) {
    LastEntered(s) <= |bs| && HoldsWhole(s.ring, bs[..LastEntered(s)])
  }

  ghost predicate Running(cfg: Config, s: State) {
    && Locks(s) && InOrder(s) && OutputsOk(cfg, s) && LiveOk(cfg, s)
    && s.disk <= s.watermark <= LastEntered(s)
    && Published(Out(cfg, s), s.stream, s.watermark)
    && RingOk(Out(cfg, s), s)
    && (s.egressLock.Some? ==> Holder(Out(cfg, s), s, s.PcOf(s.egressLock.value)))
  }

  ghost predicate Quiet(s: State) { s.runtimeLock == None && s.egressLock == None && s.pcs == map[] }

  ghost predicate Inv(cfg: Config, s: State) {
    && Durable(cfg, s)
    && match s.mode
       case Up => Running(cfg, s)
       case Down => Quiet(s)
       case Recovering(todo, _) =>
         Quiet(s) && LiveOk(cfg, s) && Pending(Out(cfg, s), s.stream, todo, |s.journal|) && s.watermark == s.disk
         && s.booted == |s.journal| && s.entered == [] && s.ring == []
  }

  // ------------------------------------------------------------------ what growing the journal or the stream keeps

  lemma PublishedLater(bs: seq<seq<Event>>, batch: seq<Event>, stream: seq<Entry>, w: nat)
    requires Published(bs, stream, w)
    ensures Published(bs + [batch], stream, w)
  {
    OffsetGrows(bs, batch, w);
  }

  lemma PendingLater(bs: seq<seq<Event>>, batch: seq<Event>, stream: seq<Entry>, todo: seq<Entry>, to: nat)
    requires Pending(bs, stream, todo, to)
    ensures Pending(bs + [batch], stream, todo, to)
  {
    OffsetGrows(bs, batch, to);
  }

  /** Publishing the next pending entry keeps everything and leaves one less to do. */
  lemma PublishNext(bs: seq<seq<Event>>, stream: seq<Entry>, todo: seq<Entry>, to: nat)
    requires Dedup(stream) <= Entries(bs) && Pending(bs, stream, todo, to) && todo != []
    ensures var stream' := stream + [todo[0]];
      && Dedup(stream') <= Entries(bs) && |Dedup(stream')| >= |Dedup(stream)|
      && Pending(bs, stream', todo[1..], to)
  {
    var p := Offset(bs, to) - |todo|;
    assert todo[0] == Entries(bs)[p];
    hide Offset, Entries, Dedup;
    PublishKeepsPrefix(bs, stream, p);
  }

  /** A longer run and a longer stream leave a late entry behind. */
  lemma LateGrows(bs: seq<seq<Event>>, bs': seq<seq<Event>>, stream: seq<Entry>, stream': seq<Entry>, late: seq<Entry>)
    requires LateOk(bs, stream, late) && Entries(bs) <= Entries(bs') && |Dedup(stream)| <= |Dedup(stream')|
    ensures LateOk(bs', stream', late)
  {
    hide Dedup, EntriesFrom;
    forall e | e in late ensures Behind(bs', stream', e) {
      assert Behind(bs, stream, e);
      var p: nat :| p < |Entries(bs)| && p <= |Dedup(stream)| && Entries(bs)[p] == e;
      assert Entries(bs')[p] == e;
    }
  }

  /** The next pending entry may be published at any later time. */
  lemma NextIsBehind(bs: seq<seq<Event>>, stream: seq<Entry>, todo: seq<Entry>, to: nat, late: seq<Entry>)
    requires Pending(bs, stream, todo, to) && todo != [] && LateOk(bs, stream, late)
    ensures LateOk(bs, stream, late + [todo[0]])
  {
    hide Dedup, EntriesFrom, Offset;
    var p := Offset(bs, to) - |todo|;
    assert todo[0] == Entries(bs)[p];
    assert Behind(bs, stream, todo[0]);
    forall e | e in late + [todo[0]] ensures Behind(bs, stream, e) {
      assert e in late || e == todo[0];
    }
  }

  /** Whenever a late entry arrives, the stream stays a prefix and only grows. */
  lemma ArriveGrows(bs: seq<seq<Event>>, stream: seq<Entry>, late: seq<Entry>, n: nat)
    requires Dedup(stream) <= Entries(bs) && LateOk(bs, stream, late) && n < |late|
    ensures var stream' := stream + [late[n]];
      && Dedup(stream') <= Entries(bs) && |Dedup(stream)| <= |Dedup(stream')|
      && LateOk(bs, stream', late[..n] + late[n + 1..])
  {
    hide Dedup, EntriesFrom;
    assert late[n] in late && Behind(bs, stream, late[n]);
    var p: nat :| p < |Entries(bs)| && p <= |Dedup(stream)| && Entries(bs)[p] == late[n];
    PublishKeepsPrefix(bs, stream, p);
    LateGrows(bs, bs, stream, stream + [late[n]], late);
    assert forall e :: e in late[..n] + late[n + 1..] ==> e in late;
  }

  /** Nothing left to do up to `to` means everything up to `to` is published. */
  lemma PendingDone(bs: seq<seq<Event>>, stream: seq<Entry>, to: nat)
    requires Pending(bs, stream, [], to)
    ensures Published(bs, stream, to)
  {
  }

  // ------------------------------------------------------------------ every step keeps the invariant

  lemma HolderFrame(bs: seq<seq<Event>>, s: State, s': State, pc: Pc)
    requires s'.stream == s.stream && LastEntered(s') == LastEntered(s) && s'.watermark == s.watermark
    requires Holder(bs, s, pc)
    ensures Holder(bs, s', pc)
  {
  }

  lemma JournalGrows(bs: seq<seq<Event>>, batch: seq<Event>, s: State)
    ensures Dedup(s.stream) <= Entries(bs) ==> Dedup(s.stream) <= Entries(bs + [batch])
    ensures Entries(bs) <= Entries(bs + [batch])
    ensures forall n :: Published(bs, s.stream, n) ==> Published(bs + [batch], s.stream, n)
    ensures forall pc :: Holder(bs, s, pc) ==> Holder(bs + [batch], s, pc)
    ensures RingOk(bs, s) ==> RingOk(bs + [batch], s)
  {
    OffsetGrows(bs, batch, 0);
    forall n | Published(bs, s.stream, n) ensures Published(bs + [batch], s.stream, n) {
      PublishedLater(bs, batch, s.stream, n);
    }
    forall pc | Holder(bs, s, pc) ensures Holder(bs + [batch], s, pc) {
      match pc {
        case Gap(n, _, todo, _) => PendingLater(bs, batch, s.stream, todo, n - 1);
        case Own(n, todo, _) => PendingLater(bs, batch, s.stream, todo, n);
        case _ =>
      }
    }
    if RingOk(bs, s) { assert (bs + [batch])[..LastEntered(s)] == bs[..LastEntered(s)]; }
  }

  lemma SubmitKeeps(cfg: Config, s: State, a: Action)
    requires Inv(cfg, s) && a.Submit?
    ensures Inv(cfg, Next(cfg, s, a))
  {
    hide Published, Pending, Dedup, EntriesFrom, RingOk, Holder, Batches, Run, Results, Apply, LevelsOf;
    var s' := Next(cfg, s, a);
    if s' != s {
      var bs, bs', c := Out(cfg, s), Out(cfg, s'), s'.journal[|s.journal|];
      RunSeq(cfg.market, s.journal);
      AppendIsReplay(cfg, s, s', c);
      BatchesPush(cfg.market, s.journal, c);
      assert bs' == bs + [bs'[|bs|]];
      JournalGrows(bs, bs'[|bs|], s);
      LateGrows(bs, bs', s.stream, s'.stream, s.late);
      assert Durable(cfg, s');
      Moved(s, s', a.client, s'.PcOf(a.client));
      if s.egressLock.Some? {
        HolderFrame(bs', s, s', s.PcOf(s.egressLock.value));
        assert s'.PcOf(s.egressLock.value) == s.PcOf(s.egressLock.value);
      }
      RingFrame(bs', s, s');
      OutputsMoved(cfg, s, s', a.client);
    }
  }

  /** What the live engine produces for a command is what a replay of the grown journal produces for it, and
      its snapshot is the replayed book. */
  lemma {:induction false} AppendIsReplay(cfg: Config, s: State, s': State, c: SequencedCommand)
    requires LiveOk(cfg, s) && SavedOk(cfg, s) && s.live.lastSeq == |s.journal| && c.seqNo == |s.journal| + 1
    requires exists client, snapshot :: s' == Append(s, client, c, snapshot)
    ensures LiveOk(cfg, s') && SavedOk(cfg, s') && s'.journal == s.journal + [c]
    ensures var out := Apply(s.live, c);
      Results(Initial(cfg.market), s'.journal) == Results(Initial(cfg.market), s.journal)
                                                  + [Result(out.events, LevelsOf(out.state.book))]
  {
    hide Run, Results, Apply, LevelsOf;
    RunPush(cfg.market, s.journal, c);
    ResultsPush(cfg.market, s.journal, c);
    assert s'.journal[..|s'.journal|] == s'.journal;
    if s.saved.Some? { assert s'.journal[..s.saved.value.lastSeq] == s.journal[..s.saved.value.lastSeq]; }
  }

  /** Moving one submitter leaves what the others carry, and a longer journal leaves what commands produced. */
  lemma OutputsMoved(cfg: Config, s: State, s': State, c: Client)
    requires OutputsOk(cfg, s) && OutputOk(cfg, s', s'.PcOf(c)) && s'.pcs == s.pcs[c := s'.PcOf(c)]
    requires Results(Initial(cfg.market), s.journal) <= Results(Initial(cfg.market), s'.journal)
    ensures OutputsOk(cfg, s')
  {
    hide Results;
    forall c': Client ensures OutputOk(cfg, s', s'.PcOf(c')) {
      assert OutputOk(cfg, s, s.PcOf(c'));
      assert s'.PcOf(c') == if c' == c then s'.PcOf(c) else s.PcOf(c');
    }
  }

  lemma RingFrame(bs: seq<seq<Event>>, s: State, s': State)
    requires RingOk(bs, s) && s'.ring == s.ring && LastEntered(s') == LastEntered(s)
    ensures RingOk(bs, s')
  {
  }

  /** One submitter moves, taking or dropping the lock its new place calls for. */
  lemma Moved(s: State, s': State, c: Client, pc: Pc)
    requires Locks(s) && s'.pcs == s.pcs[c := pc]
    requires s'.runtimeLock == if pc.Matched? then Some(c) else if s.runtimeLock == Some(c) then None else s.runtimeLock
    requires s'.egressLock == if InEgress(pc) then Some(c) else if s.egressLock == Some(c) then None else s.egressLock
    requires pc.Matched? && s.runtimeLock.Some? ==> s.runtimeLock == Some(c)
    requires InEgress(pc) && s.egressLock.Some? ==> s.egressLock == Some(c)
    ensures Locks(s')
  {
    forall c': Client
      ensures s'.PcOf(c').Matched? <==> s'.runtimeLock == Some(c')
      ensures InEgress(s'.PcOf(c')) <==> s'.egressLock == Some(c')
    {
      assert s'.PcOf(c') == if c' == c then pc else s.PcOf(c');
    }
  }

  lemma EnterKeeps(cfg: Config, s: State, a: Action)
    requires Inv(cfg, s) && a.EnterEgress? && Fits(cfg, s)
    ensures Inv(cfg, Next(cfg, s, a))
  {
    hide Published, Pending, Dedup, EntriesFrom, RecordAll, RingOk, KeepLevels, Run, Results;
    var s' := Next(cfg, s, a);
    if s' != s {
      var pc, bs := s.PcOf(a.client), Out(cfg, s);
      assert OutputOk(cfg, s, pc);
      assert s.runtimeLock == Some(a.client) && pc.seqNo == |s.journal| == LastEntered(s) + 1;
      Moved(s, s', a.client, Entered(pc.seqNo, pc.output));
      OutputsMoved(cfg, s, s', a.client);
      BatchesAreBatched(cfg.market, s.journal);
      RingRecords(cfg, bs, s, s');
    }
  }

  lemma RingRecords(cfg: Config, bs: seq<seq<Event>>, s: State, s': State)
    requires Batched(bs) && RingOk(bs, s) && LastEntered(s) < |bs|
    requires LastEntered(s') == LastEntered(s) + 1
    requires s'.ring == RecordAll(s.ring, bs[LastEntered(s)], cfg.capacity)
    requires cfg.capacity == 0 || |bs[LastEntered(s)]| <= cfg.capacity
    ensures RingOk(bs, s')
  {
    var m := LastEntered(s);
    var k :| Holds(s.ring, bs[..m], k);
    SliceBatched(0, bs, 0, m);
    assert bs[0..m] == bs[..m];
    var k' := RecordKeepsWhole(s.ring, bs[..m], k, bs[m], cfg.capacity);
    assert bs[..m] + [bs[m]] == bs[..m + 1];
  }

  /** The gap before the holder's sequence is exact, whether the ring answers or the journal does. */
  lemma {:induction false} GapIsExact(cfg: Config, s: State, n: nat)
    requires Inv(cfg, s) && s.mode == Up && n == LastEntered(s) && s.watermark < n
    ensures n <= |Out(cfg, s)|
    ensures Before(OutputsFrom(cfg, s).0, n) == Before(After(Flat(Out(cfg, s)), s.watermark), n)
  {
    hide Batches, Published, Pending, Dedup, EntriesFrom, Locks, InOrder, Holder, Results, Run, OutputsOk, SavedOk;
    var bs := Out(cfg, s);
    BatchesAreBatched(cfg.market, s.journal);
    GapIsFlat(bs, s.watermark, n);
    if RingAfter(s.ring, s.watermark).Some? {
      var k :| Holds(s.ring, bs[..n], k);
      SliceBatched(0, bs, 0, n);
      assert bs[0..n] == bs[..n];
      RingAnswersAsJournal(s.ring, bs[..n], k, s.watermark);
      GapIsFlat(bs[..n], s.watermark, n);
      assert bs[..n][s.watermark..n - 1] == bs[s.watermark..n - 1];
    }
  }

  /** Publishing a command's own events may begin once everything before it is published. */
  lemma OwnPending(bs: seq<seq<Event>>, stream: seq<Entry>, n: nat)
    requires Batched(bs) && 0 < n <= |bs| && Published(bs, stream, n - 1)
    ensures Pending(bs, stream, Keyed(bs[n - 1]), n)
  {
    OwnEntries(bs, n);
  }

  lemma GapPending(bs: seq<seq<Event>>, stream: seq<Entry>, w: nat, n: nat)
    requires Batched(bs) && w < n <= |bs| + 1 && Published(bs, stream, w)
    ensures Pending(bs, stream, Keyed(Before(After(Flat(bs), w), n)), n - 1)
    ensures Before(After(Flat(bs), w), n) == [] <==> w == n - 1
  {
    GapEntries(bs, w, n);
  }

  lemma PlanKeeps(cfg: Config, s: State, a: Action)
    requires Inv(cfg, s) && a.Plan?
    ensures Inv(cfg, Next(cfg, s, a))
  {
    hide Published, Pending, Dedup, EntriesFrom, OutputsFrom, RingOk, Keyed, Before, After, Run, Results;
    var s' := Next(cfg, s, a);
    if s' != s {
      var pc, bs := s.PcOf(a.client), Out(cfg, s);
      var n := pc.seqNo;
      assert OutputOk(cfg, s, pc) && pc.output.events == bs[n - 1];
      BatchesAreBatched(cfg.market, s.journal);
      GapIsExact(cfg, s, n);
      GapPending(bs, s.stream, s.watermark, n);
      if s.watermark == n - 1 { OwnPending(bs, s.stream, n); }
      Moved(s, s', a.client, s'.PcOf(a.client));
      OutputsMoved(cfg, s, s', a.client);
      RingFrame(bs, s, s');
    }
  }

  lemma PublishKeeps(cfg: Config, s: State, a: Action)
    requires Inv(cfg, s) && a.PublishOne?
    ensures Inv(cfg, Next(cfg, s, a))
  {
    hide Pending, Dedup, EntriesFrom, Batches, RingOk, Run, Results, Rides;
    var s' := Next(cfg, s, a);
    if s' != s {
      var pc, bs := s.PcOf(a.client), Out(cfg, s);
      assert OutputOk(cfg, s, pc);
      PublishNext(bs, s.stream, pc.todo, if pc.Gap? then pc.seqNo - 1 else pc.seqNo);
      LateGrows(bs, bs, s.stream, s'.stream, s.late);
      Moved(s, s', a.client, s'.PcOf(a.client));
      OutputsMoved(cfg, s, s', a.client);
      RingFrame(bs, s, s');
    }
  }

  lemma ConfirmKeeps(cfg: Config, s: State, a: Action)
    requires Inv(cfg, s) && a.Confirm?
    ensures Inv(cfg, Next(cfg, s, a))
  {
    hide Inv, Advance, StartOwn, Rides;
    if Next(cfg, s, a) != s {
      if s.PcOf(a.client).Gap? { ConfirmGapKeeps(cfg, s, a); } else { ConfirmOwnKeeps(cfg, s, a); }
    }
  }

  lemma ConfirmGapKeeps(cfg: Config, s: State, a: Action)
    requires Inv(cfg, s) && a.Confirm? && s.PcOf(a.client).Gap? && Next(cfg, s, a) != s
    ensures Inv(cfg, Next(cfg, s, a))
  {
    hide Published, Pending, Dedup, EntriesFrom, RingOk, Keyed, Run, Results, LateOk;
    var s', pc, bs := Next(cfg, s, a), s.PcOf(a.client), Out(cfg, s);
    assert OutputOk(cfg, s, pc);
    BatchesAreBatched(cfg.market, s.journal);
    PendingDone(bs, s.stream, pc.seqNo - 1);
    OwnPending(bs, s.stream, pc.seqNo);
    Moved(s, s', a.client, s'.PcOf(a.client));
    OutputsMoved(cfg, s, s', a.client);
    RingFrame(bs, s, s');
  }

  lemma ConfirmOwnKeeps(cfg: Config, s: State, a: Action)
    requires Inv(cfg, s) && a.Confirm? && !s.PcOf(a.client).Gap? && Next(cfg, s, a) != s
    ensures Inv(cfg, Next(cfg, s, a))
  {
    hide Published, Pending, Dedup, EntriesFrom, RingOk, Keyed, Run, Results, LateOk;
    var s', pc, bs := Next(cfg, s, a), s.PcOf(a.client), Out(cfg, s);
    BatchesAreBatched(cfg.market, s.journal);
    PendingDone(bs, s.stream, pc.seqNo);
    Moved(s, s', a.client, s'.PcOf(a.client));
    OutputsMoved(cfg, s, s', a.client);
    RingFrame(bs, s, s');
  }

  lemma FailKeeps(cfg: Config, s: State, a: Action)
    requires Inv(cfg, s) && (a.Fail? || a.FlushWatermark? || a.Crash?)
    ensures Inv(cfg, Next(cfg, s, a))
  {
    hide Published, Pending, Dedup, EntriesFrom, Batches, RingOk, Run, Results;
    var s' := Next(cfg, s, a);
    if s' != s && a.Fail? {
      Moved(s, s', a.client, Idle);
      OutputsMoved(cfg, s, s', a.client);
    }
    if a.FlushWatermark? && s.mode == Up { StillMoved(cfg, s, s'); }
    if s.mode == Up && s'.mode == Up {
      RingFrame(Out(cfg, s), s, s');
      if s'.egressLock.Some? { HolderFrame(Out(cfg, s), s, s', s'.PcOf(s'.egressLock.value)); }
    }
  }

  lemma TimeOutKeeps(cfg: Config, s: State, a: Action)
    requires Inv(cfg, s) && (a.TimeOut? || a.TimeOutRecovery?)
    ensures Inv(cfg, Next(cfg, s, a))
  {
    hide Published, Pending, Dedup, EntriesFrom, Batches, RingOk, Run, Results, Rides, LateOk;
    var s' := Next(cfg, s, a);
    if s' != s {
      var bs := Out(cfg, s);
      if a.TimeOut? {
        var pc := s.PcOf(a.client);
        assert s.egressLock == Some(a.client);
        NextIsBehind(bs, s.stream, pc.todo, if pc.Gap? then pc.seqNo - 1 else pc.seqNo, s.late);
        Moved(s, s', a.client, Idle);
        OutputsMoved(cfg, s, s', a.client);
        RingFrame(bs, s, s');
      } else {
        NextIsBehind(bs, s.stream, s.mode.todo, |s.journal|, s.late);
      }
    }
  }

  /** A longer stream leaves what was published and what is pending as it was. */
  lemma StreamGrows(bs: seq<seq<Event>>, stream: seq<Entry>, stream': seq<Entry>)
    requires |Dedup(stream)| <= |Dedup(stream')|
    ensures forall w :: Published(bs, stream, w) ==> Published(bs, stream', w)
    ensures forall todo, to :: Pending(bs, stream, todo, to) ==> Pending(bs, stream', todo, to)
  {
  }

  lemma ArriveKeeps(cfg: Config, s: State, a: Action)
    requires Inv(cfg, s) && a.Arrive?
    ensures Inv(cfg, Next(cfg, s, a))
  {
    hide Published, Pending, Dedup, EntriesFrom, Batches, RingOk, Run, Results, LateOk;
    var s' := Next(cfg, s, a);
    if s' != s {
      var bs := Out(cfg, s);
      ArriveGrows(bs, s.stream, s.late, a.n);
      StreamGrows(bs, s.stream, s'.stream);
      if s.mode == Up {
        StillMoved(cfg, s, s');
        RingFrame(bs, s, s');
      }
    }
  }

  /** Nothing of the process changes when an entry arrives. */
  lemma StillMoved(cfg: Config, s: State, s': State)
    requires OutputsOk(cfg, s) && Locks(s) && s'.pcs == s.pcs && s'.journal == s.journal
    requires s'.runtimeLock == s.runtimeLock && s'.egressLock == s.egressLock
    ensures OutputsOk(cfg, s') && Locks(s')
  {
    hide Results;
    forall c: Client
      ensures OutputOk(cfg, s', s'.PcOf(c))
      ensures s'.PcOf(c).Matched? <==> s'.runtimeLock == Some(c)
      ensures InEgress(s'.PcOf(c)) <==> s'.egressLock == Some(c)
    {
      assert s'.PcOf(c) == s.PcOf(c) && OutputOk(cfg, s, s.PcOf(c));
    }
  }

  /** The status in force at the newest snapshot is the configured one, so a restart rebuilds the replay. */
  ghost predicate Settled(cfg: Config, s: State) {
    s.saved.Some? && s.saved.value.lastSeq <= |s.journal| ==>
      Status(cfg.market, s.journal[..s.saved.value.lastSeq]) == cfg.market.status
  }

  /** What a restart rebuilds from a snapshot that is the replayed book. */
  lemma {:induction false} RebuiltIs(cfg: Config, s: State)
    requires Numbered(s.journal) && SavedOk(cfg, s)
    ensures s.saved.Some? ==>
      var k := s.saved.value.lastSeq; Rebuilt(cfg, s) == Recovered(cfg.market, s.journal[..k], s.journal[k..])
    ensures Settled(cfg, s) ==> Rebuilt(cfg, s) == Run(Initial(cfg.market), s.journal)
  {
    hide Run;
    if s.saved.Some? {
      var k := s.saved.value.lastSeq;
      assert Numbered(s.journal[..k]);
      RunSeq(cfg.market, s.journal[..k]);
      SnapshotRecoveryExact(cfg.market, s.journal[..k]);
      assert s.journal[..k] + s.journal[k..] == s.journal;
      assert Settled(cfg, s) ==>
          Recovered(cfg.market, s.journal[..k], s.journal[k..]) == Run(Initial(cfg.market), s.journal);
    }
  }

  lemma RestartKeeps(cfg: Config, s: State, a: Action)
    requires Inv(cfg, s) && a.Restart? && Settled(cfg, s)
    ensures Inv(cfg, Next(cfg, s, a))
  {
    hide Published, Dedup, EntriesFrom, Batches, Keyed, After, Flat, Run, Results, Rebuilt, Settled;
    var s' := Next(cfg, s, a);
    if s' != s {
      var bs := Out(cfg, s);
      RebuiltIs(cfg, s);
      RunSeq(cfg.market, s.journal);
      BatchesAreBatched(cfg.market, s.journal);
      EmptyRing(bs, s');
      assert s.disk <= |bs| by { PublishedBound(bs, s.stream, s.disk); }
      if s.disk < |bs| { RecoveryPending(bs, s.stream, s.disk); }
    }
  }

  lemma PublishedBound(bs: seq<seq<Event>>, stream: seq<Entry>, w: nat)
    requires Published(bs, stream, w)
    ensures w <= |bs|
  {
  }

  lemma EmptyRing(bs: seq<seq<Event>>, s: State)
    requires s.ring == [] && LastEntered(s) == |bs|
    ensures RingOk(bs, s)
  {
    assert bs[..|bs|] == bs && bs[|bs|..] == [];
    assert Holds(s.ring, bs[..|bs|], |bs|);
  }

  /** On restart everything after the persisted watermark is pending, and nothing before it is missing. */
  lemma RecoveryPending(bs: seq<seq<Event>>, stream: seq<Entry>, w: nat)
    requires Batched(bs) && w <= |bs| && Published(bs, stream, w)
    ensures Pending(bs, stream, Keyed(After(Flat(bs), w)), |bs|)
  {
    AfterIsSuffix(0, bs, w);
    SliceBatched(0, bs, w, |bs|);
    assert bs[w..|bs|] == bs[w..];
    KeyedFlat(w, bs[w..]);
    EntriesSlice(bs, w, |bs|);
    OffsetFull(bs);
  }

  lemma RecoveryKeeps(cfg: Config, s: State, a: Action)
    requires Inv(cfg, s) && (a.RepublishOne? || a.FinishRecovery?)
    ensures Inv(cfg, Next(cfg, s, a))
  {
    hide Pending, Dedup, EntriesFrom, Batches, Run, Results, Rides;
    var s' := Next(cfg, s, a);
    if s' != s {
      var bs := Out(cfg, s);
      RunSeq(cfg.market, s.journal);
      if a.RepublishOne? {
        PublishNext(bs, s.stream, s.mode.todo, |bs|);
        LateGrows(bs, bs, s.stream, s'.stream, s.late);
      } else if s.mode.todo == [] {
        PendingDone(bs, s.stream, |bs|);
        EmptyRing(bs, s');
      }
    }
  }

  /** No command emits more events than the ring can hold. */
  ghost predicate Fits(cfg: Config, s: State) {
    forall i :: 0 <= i < |Out(cfg, s)| ==> cfg.capacity == 0 || |Out(cfg, s)[i]| <= cfg.capacity
  }

  lemma {:induction false} StepKeeps(cfg: Config, s: State, a: Action)
    requires Inv(cfg, s) && Fits(cfg, s) && !a.Abandon? && (a.Restart? ==> Settled(cfg, s))
    ensures Inv(cfg, Next(cfg, s, a))
  {
    hide Inv, Next, Settled;
    match a {
      case Submit(_, _, _, _) => SubmitKeeps(cfg, s, a);
      case EnterEgress(_) => EnterKeeps(cfg, s, a);
      case Plan(_) => PlanKeeps(cfg, s, a);
      case PublishOne(_) => PublishKeeps(cfg, s, a);
      case Confirm(_, _, _) => ConfirmKeeps(cfg, s, a);
      case Restart => RestartKeeps(cfg, s, a);
      case RepublishOne => RecoveryKeeps(cfg, s, a);
      case FinishRecovery(_, _) => RecoveryKeeps(cfg, s, a);
      case TimeOut(_) => TimeOutKeeps(cfg, s, a);
      case TimeOutRecovery => TimeOutKeeps(cfg, s, a);
      case Arrive(_) => ArriveKeeps(cfg, s, a);
      case _ => FailKeeps(cfg, s, a);
    }
  }

  /** The three hypotheses on a run: every command fits the ring, no submission is abandoned between matching
      and egress - every snapshot write succeeds - and every restart finds a snapshot, if any, taken under
      the configured market status. */
  ghost predicate Assumed(cfg: Config, actions: seq<Action>) {
    && (forall k :: 0 <= k <= |actions| ==> Fits(cfg, RunAll(cfg, actions[..k])))
    && (forall a :: a in actions ==> !a.Abandon?)
    && (forall k :: 0 <= k < |actions| && actions[k].Restart? ==> Settled(cfg, RunAll(cfg, actions[..k])))
  }

  lemma {:induction false} RunKeeps(cfg: Config, actions: seq<Action>)
    requires Assumed(cfg, actions)
    ensures Inv(cfg, RunAll(cfg, actions))
  {
    hide Inv, Next, Fits, Settled;
    if actions == [] {
      StartOk(cfg);
    } else {
      var last := |actions| - 1;
      assert forall k :: 0 <= k <= last ==> actions[..last][..k] == actions[..k];
      RunKeeps(cfg, actions[..last]);
      assert actions[..last][..last] == actions[..last] && actions[last] in actions;
      StepKeeps(cfg, RunAll(cfg, actions[..last]), actions[last]);
    }
  }

  lemma StartOk(cfg: Config)
    ensures Inv(cfg, Start(cfg))
  {
    assert Out(cfg, Start(cfg)) == [];
  }

  /** In every run of submits, partial publish failures, crashes and recoveries: the live engine is the full
      replay of the journal; the stream with repeats dropped by key is a prefix of what that replay
      produces; every event at or below the watermark, in memory or on disk, is in it; so is every event
      of every command reported successful; and egress is entered in exact sequence order. */
  lemma {:induction false} StreamIsReplayPrefix(cfg: Config, actions: seq<Action>)
    requires Assumed(cfg, actions)
    ensures var s := RunAll(cfg, actions); var bs := Batches(cfg.market, s.journal);
      && (s.mode != Down ==> s.live == Run(Initial(cfg.market), s.journal))
      && Dedup(s.stream) <= Entries(bs)
      && Published(bs, s.stream, s.disk)
      && (s.mode == Up ==> s.disk <= s.watermark && Published(bs, s.stream, s.watermark))
      && (forall n :: n in s.acked ==> Published(bs, s.stream, n))
      && (s.mode == Up ==> forall i :: 0 <= i < |s.entered| ==> s.entered[i] == s.booted + i + 1)
  {
    hide Published, Dedup, EntriesFrom, Batches, RingOk, Holder, Locks, Next, Fits, Run, Results, SavedOk, OutputsOk,
      Settled;
    RunKeeps(cfg, actions);
  }

  /** Once the watermark reaches the last command, the deduplicated stream IS the replay. */
  lemma {:induction false} CaughtUpIsComplete(bs: seq<seq<Event>>, stream: seq<Entry>)
    requires Dedup(stream) <= Entries(bs) && Published(bs, stream, |bs|)
    ensures Dedup(stream) == Entries(bs)
  {
    OffsetFull(bs);
  }
}
