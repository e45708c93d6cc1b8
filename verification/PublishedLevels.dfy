/** The levels that ride on stream entries, and the mirror a consumer of the stream keeps. */
module PublishedLevels {
  import opened MatchingTypes
  import opened ReferenceBook
  import opened ReferenceMatcher
  import opened MatchingRuns
  import opened DepthMirror
  import opened Replay
  import opened EventStream
  import opened Egress
  import opened StreamOffsets
  import opened Publication

  function ResultsOf(cfg: Config, s: State): seq<Result> { Results(Initial(cfg.market), s.journal) }

  /** An entry of the run: the event a replay produces under that key. */
  predicate EntryOf(results: seq<Result>, e: Entry) {
    1 <= e.seqNo <= |results| && e.idx < |results[e.seqNo - 1].events| && e.event == results[e.seqNo - 1].events[e.idx]
  }

  /** What an entry ought to carry: its command's levels, if it is the command's last. */
  function Due(results: seq<Result>, e: Entry): Option<Levels>
    requires EntryOf(results, e)
  {
    if e.idx + 1 == |results[e.seqNo - 1].events| then Some(results[e.seqNo - 1].levels) else None
  }

  /** Every entry in the stream is the run's and carries exactly what it ought to. */
  ghost predicate StreamCarries(results: seq<Result>, stream: seq<Entry>, rides: seq<Option<Levels>>) {
    && |rides| == |stream|
    && forall i :: 0 <= i < |stream| ==> EntryOf(results, stream[i]) && rides[i] == Due(results, stream[i])
  }

  /** The levels at hand for what is to be published. */
  ghost predicate RidingOk(results: seq<Result>, todo: seq<Entry>, riding: map<nat, Levels>) {
    forall e :: e in todo ==>
      1 <= e.seqNo <= |results| && e.seqNo in riding && riding[e.seqNo] == results[e.seqNo - 1].levels
  }

  ghost predicate PcRides(results: seq<Result>, pc: Pc) {
    match pc
    case Gap(_, _, todo, riding) => RidingOk(results, todo, riding)
    case Own(_, todo, riding) => RidingOk(results, todo, riding)
    case _ => true
  }

  /** The ring's levels are the ones of the sequences it holds. */
  ghost predicate RingLevelsOk(cfg: Config, s: State) {
    var n := LastEntered(s);
    n <= |s.journal|
    && exists k: nat ::
         Holds(s.ring, Out(cfg, s)[..n], k) && HoldsLevels(s.ringLevels, LevelsIn(ResultsOf(cfg, s)[..n]), k)
  }

  function LevelsIn(results: seq<Result>): seq<Levels> {
    seq(|results|, i requires 0 <= i < |results| => results[i].levels)
  }

  ghost predicate LevelsInv(cfg: Config, s: State) {
    && StreamCarries(ResultsOf(cfg, s), s.stream, s.rides)
    && StreamCarries(ResultsOf(cfg, s), s.late, s.lateRides)
    && match s.mode
       case Up => RingLevelsOk(cfg, s) && forall c: Client :: PcRides(ResultsOf(cfg, s), s.PcOf(c))
       case Down => true
       case Recovering(todo, riding) => RidingOk(ResultsOf(cfg, s), todo, riding) && s.ringLevels == map[]
  }

  // ------------------------------------------------------------------ publishing one entry

  lemma {:induction false} EntriesAreTheRuns(results: seq<Result>, bs: seq<seq<Event>>, p: nat)
    requires |bs| == |results| && (forall i :: 0 <= i < |bs| ==> bs[i] == results[i].events) && p < |Entries(bs)|
    ensures EntryOf(results, Entries(bs)[p])
  {
    EntryInBounds(0, bs, p);
  }

  /** Whether an entry is the last of its sequence among what is to be published is whether it is the last
      of its sequence at all: what is published always ends where a sequence does. */
  lemma {:induction false} RidesIsDue(results: seq<Result>, bs: seq<seq<Event>>, stream: seq<Entry>, todo: seq<Entry>,
                                      to: nat, riding: map<nat, Levels>)
    requires Batched(bs) && |bs| == |results| && (forall i :: 0 <= i < |bs| ==> bs[i] == results[i].events)
    requires Pending(bs, stream, todo, to) && todo != [] && RidingOk(results, todo, riding)
    ensures EntryOf(results, todo[0]) && Rides(todo, riding) == Due(results, todo[0])
  {
    hide EntriesFrom, BatchedFrom, Dedup;
    var p := Offset(bs, to) - |todo|;
    assert todo[0] == Entries(bs)[p] && todo[0] in todo;
    EntriesAreTheRuns(results, bs, p);
    if |todo| > 1 {
      assert todo[1] == Entries(bs)[p + 1];
      EntryNext(0, bs, p);
    } else {
      LastOfSequence(bs, to);
    }
  }

  /** The last entry of the first `to` sequences is the last of its own. */
  lemma LastOfSequence(bs: seq<seq<Event>>, to: nat)
    requires Batched(bs) && to <= |bs| && 0 < Offset(bs, to) <= |Entries(bs)|
    ensures var e := Entries(bs)[Offset(bs, to) - 1]; e.seqNo == to && e.idx + 1 == |bs[to - 1]|
  {
    hide EntriesFrom;
    SliceBatched(0, bs, 0, to);
    assert bs[0..to] == bs[..to];
    EntriesSlice(bs, 0, to);
    OffsetFull(bs);
    EntryLast(0, bs[..to]);
  }

  // ------------------------------------------------------------------ every step keeps the levels

  lemma GrownCarries(results: seq<Result>, more: seq<Result>, stream: seq<Entry>, rides: seq<Option<Levels>>)
    requires results <= more
    ensures StreamCarries(results, stream, rides) ==> StreamCarries(more, stream, rides)
    ensures forall pc :: PcRides(results, pc) ==> PcRides(more, pc)
  {
    forall pc | PcRides(results, pc) ensures PcRides(more, pc) {
      if pc.Gap? || pc.Own? {
        forall e | e in pc.todo
          ensures 1 <= e.seqNo <= |more| && e.seqNo in pc.riding && pc.riding[e.seqNo] == more[e.seqNo - 1].levels
        {
        }
      }
    }
  }

  /** One submitter moves to a place with the right levels at hand. */
  lemma PcsRide(results: seq<Result>, s: State, s': State, c: Client)
    requires (forall c': Client :: PcRides(results, s.PcOf(c'))) && s'.pcs == s.pcs[c := s'.PcOf(c)]
    requires PcRides(results, s'.PcOf(c))
    ensures forall c': Client :: PcRides(results, s'.PcOf(c'))
  {
    hide PcRides;
    forall c': Client ensures PcRides(results, s'.PcOf(c')) {
      assert s'.PcOf(c') == if c' == c then s'.PcOf(c) else s.PcOf(c');
    }
  }

  lemma RingLevelsFrame(cfg: Config, s: State, s': State)
    requires RingLevelsOk(cfg, s) && s'.ring == s.ring && s'.ringLevels == s.ringLevels
      && LastEntered(s') == LastEntered(s)
    requires ResultsOf(cfg, s) <= ResultsOf(cfg, s')
    ensures RingLevelsOk(cfg, s')
  {
    hide Results, HoldsLevels;
    var n := LastEntered(s);
    assert Out(cfg, s)[..n] == Out(cfg, s')[..n] && ResultsOf(cfg, s)[..n] == ResultsOf(cfg, s')[..n];
  }

  lemma SubmitRides(cfg: Config, s: State, a: Action)
    requires Inv(cfg, s) && LevelsInv(cfg, s) && a.Submit?
    ensures LevelsInv(cfg, Next(cfg, s, a))
  {
    hide Run, Results, Apply, LevelsOf, StreamCarries, PcRides, RingLevelsOk;
    var s' := Next(cfg, s, a);
    if s' != s {
      var c := s'.journal[|s.journal|];
      ResultsPush(cfg.market, s.journal, c);
      var results, more := ResultsOf(cfg, s), ResultsOf(cfg, s');
      GrownCarries(results, more, s.stream, s.rides);
      GrownCarries(results, more, s.late, s.lateRides);
      assert PcRides(more, s'.PcOf(a.client)) by { Carefree(more, s'.PcOf(a.client)); }
      PcsRide(more, s, s', a.client);
      RingLevelsFrame(cfg, s, s');
    }
  }

  lemma Carefree(results: seq<Result>, pc: Pc)
    requires !pc.Gap? && !pc.Own?
    ensures PcRides(results, pc)
  {
  }

  lemma EnterRides(cfg: Config, s: State, a: Action)
    requires Inv(cfg, s) && LevelsInv(cfg, s) && a.EnterEgress? && Fits(cfg, s)
    ensures LevelsInv(cfg, Next(cfg, s, a))
  {
    hide Run, Results, StreamCarries, PcRides, RecordAll, KeepLevels, HoldsLevels, Published, Holder, RingOk;
    var s' := Next(cfg, s, a);
    if s' != s {
      var pc, n, bs, results := s.PcOf(a.client), LastEntered(s), Out(cfg, s), ResultsOf(cfg, s);
      assert OutputOk(cfg, s, pc) && pc.seqNo == n + 1 == |s.journal|;
      BatchesAreBatched(cfg.market, s.journal);
      SliceBatched(0, bs, 0, n);
      assert bs[0..n] == bs[..n] && bs[..n] + [bs[n]] == bs[..n + 1];
      assert LevelsIn(results[..n]) + [results[n].levels] == LevelsIn(results[..n + 1]);
      var k: nat :| Holds(s.ring, bs[..n], k) && HoldsLevels(s.ringLevels, LevelsIn(results[..n]), k);
      var k' := RecordKeepsBoth(s.ring, s.ringLevels, bs[..n], LevelsIn(results[..n]), k, bs[n], results[n].levels,
                                cfg.capacity);
      assert pc.output == results[n] && results[n].events == bs[n];
      RingLevelsWitness(cfg, s', k');
      Carefree(results, s'.PcOf(a.client));
      PcsRide(results, s, s', a.client);
    }
  }

  lemma RingLevelsWitness(cfg: Config, s: State, k: nat)
    requires LastEntered(s) <= |s.journal| && Holds(s.ring, Out(cfg, s)[..LastEntered(s)], k)
    requires HoldsLevels(s.ringLevels, LevelsIn(ResultsOf(cfg, s)[..LastEntered(s)]), k)
    ensures RingLevelsOk(cfg, s)
  {
  }

  lemma {:induction false} LevelsOverIs(results: seq<Result>, w: nat)
    ensures forall q: nat :: (q in LevelsOver(results, w) <==> w < q <= |results|)
                             && (q in LevelsOver(results, w) ==> LevelsOver(results, w)[q] == results[q - 1].levels)
  {
    if |results| <= w {
    } else {
      LevelsOverIs(results[..|results| - 1], w);
    }
  }

  /** Whichever serves the gap, ring or replay, it serves every command's levels with its events. */
  lemma {:induction false} GapLevels(cfg: Config, s: State, n: nat)
    requires Inv(cfg, s) && s.mode == Up && RingLevelsOk(cfg, s) && n == LastEntered(s)
    ensures forall q: nat :: s.watermark < q <= n ==>
      q in OutputsFrom(cfg, s).1 && q <= |ResultsOf(cfg, s)|
        && OutputsFrom(cfg, s).1[q] == ResultsOf(cfg, s)[q - 1].levels
  {
    hide Run, Results, Published, Holder, RingOk, Locks, InOrder, OutputsOk, SavedOk, After, Flat, Dedup, EntriesFrom;
    var bs, results, w := Out(cfg, s), ResultsOf(cfg, s), s.watermark;
    LevelsOverIs(results, w);
    if RingAfter(s.ring, w).Some? {
      var k: nat :| Holds(s.ring, bs[..n], k) && HoldsLevels(s.ringLevels, LevelsIn(results[..n]), k);
      BatchesAreBatched(cfg.market, s.journal);
      HeldFrom(bs, s.ring, k, n);
      forall q: nat | w < q <= n
        ensures q in LevelsAfter(s.ringLevels, w) && LevelsAfter(s.ringLevels, w)[q] == results[q - 1].levels
      {
        assert LevelsIn(results[..n])[q - 1] == results[q - 1].levels;
      }
    }
  }

  lemma HeldFrom(bs: seq<seq<Event>>, ring: seq<Event>, k: nat, n: nat)
    requires Batched(bs) && n <= |bs| && Holds(ring, bs[..n], k) && ring != []
    ensures ring[0].Seq() == k + 1
  {
    var held := bs[..n][k..];
    assert held == bs[k..n];
    SliceBatched(0, bs, k, n);
    TailBatched(k, held);
    assert Flat(held)[0] == held[0][0];
  }

  /** The keys of a gap lie between the watermark and the sequence it stops before. */
  lemma GapKeys(bs: seq<seq<Event>>, w: nat, n: nat)
    requires Batched(bs) && w < n <= |bs| + 1
    ensures forall e :: e in Keyed(Before(After(Flat(bs), w), n)) ==> w < e.seqNo < n
  {
    GapEntries(bs, w, n);
    EntriesSlice(bs, w, n - 1);
    var gap := EntriesFrom(w, bs[w..n - 1]);
    assert Keyed(Before(After(Flat(bs), w), n)) == gap;
    forall e | e in gap ensures w < e.seqNo < n {
      var j :| 0 <= j < |gap| && gap[j] == e;
      EntryInBounds(w, bs[w..n - 1], j);
    }
  }

  lemma PlanRides(cfg: Config, s: State, a: Action)
    requires Inv(cfg, s) && LevelsInv(cfg, s) && a.Plan?
    ensures LevelsInv(cfg, Next(cfg, s, a))
  {
    hide Run, Results, StreamCarries, RingLevelsOk, Published, RingOk, Pending, OutputsFrom, Keyed, Before, After, Flat;
    var s' := Next(cfg, s, a);
    if s' != s {
      var pc, bs, results := s.PcOf(a.client), Out(cfg, s), ResultsOf(cfg, s);
      var n := pc.seqNo;
      assert OutputOk(cfg, s, pc) && n == LastEntered(s) && s.watermark < n;
      BatchesAreBatched(cfg.market, s.journal);
      GapIsExact(cfg, s, n);
      GapKeys(bs, s.watermark, n);
      GapLevels(cfg, s, n);
      OwnKeys(bs, n);
      assert pc.output == results[n - 1] && bs[n - 1] == pc.output.events;
      assert PcRides(results, s'.PcOf(a.client));
      PcsRide(results, s, s', a.client);
      RingLevelsFrame(cfg, s, s');
    }
  }

  lemma OwnKeys(bs: seq<seq<Event>>, n: nat)
    requires Batched(bs) && 0 < n <= |bs|
    ensures forall e :: e in Keyed(bs[n - 1]) ==> e.seqNo == n
  {
    var own := bs[n - 1];
    forall e | e in Keyed(own) ensures e.seqNo == n {
      var j :| 0 <= j < |own| && Keyed(own)[j] == e;
      assert own[j] in own && AllOf(n, own);
    }
  }

  lemma CarriesPush(results: seq<Result>, stream: seq<Entry>, rides: seq<Option<Levels>>, e: Entry,
                    ride: Option<Levels>)
    requires StreamCarries(results, stream, rides) && EntryOf(results, e) && ride == Due(results, e)
    ensures StreamCarries(results, stream + [e], rides + [ride])
  {
  }

  lemma LessRides(results: seq<Result>, todo: seq<Entry>, riding: map<nat, Levels>)
    requires todo != [] && RidingOk(results, todo, riding)
    ensures RidingOk(results, todo[1..], riding)
  {
    assert forall e :: e in todo[1..] ==> e in todo;
  }

  lemma PublishRides(cfg: Config, s: State, a: Action)
    requires Inv(cfg, s) && LevelsInv(cfg, s) && a.PublishOne?
    ensures LevelsInv(cfg, Next(cfg, s, a))
  {
    hide Run, Results, StreamCarries, RingLevelsOk, Published, RingOk, Pending, RidingOk, Rides;
    var s' := Next(cfg, s, a);
    if s' != s {
      var pc, bs, results := s.PcOf(a.client), Out(cfg, s), ResultsOf(cfg, s);
      assert PcRides(results, pc);
      BatchesAreBatched(cfg.market, s.journal);
      RidesIsDue(results, bs, s.stream, pc.todo, if pc.Gap? then pc.seqNo - 1 else pc.seqNo, pc.riding);
      CarriesPush(results, s.stream, s.rides, pc.todo[0], Rides(pc.todo, pc.riding));
      LessRides(results, pc.todo, pc.riding);
      PcsRide(results, s, s', a.client);
      RingLevelsFrame(cfg, s, s');
    }
  }

  lemma ConfirmRides(cfg: Config, s: State, a: Action)
    requires Inv(cfg, s) && LevelsInv(cfg, s) && a.Confirm?
    ensures LevelsInv(cfg, Next(cfg, s, a))
  {
    hide Run, Results, StreamCarries, RingLevelsOk, Published, RingOk, Pending, Keyed;
    var s' := Next(cfg, s, a);
    if s' != s {
      var pc, bs, results := s.PcOf(a.client), Out(cfg, s), ResultsOf(cfg, s);
      assert OutputOk(cfg, s, pc);
      if pc.Gap? {
        BatchesAreBatched(cfg.market, s.journal);
        OwnKeys(bs, pc.seqNo);
        assert pc.output == results[pc.seqNo - 1] && bs[pc.seqNo - 1] == pc.output.events;
      }
      assert PcRides(results, s'.PcOf(a.client));
      PcsRide(results, s, s', a.client);
      RingLevelsFrame(cfg, s, s');
    }
  }

  lemma OtherRides(cfg: Config, s: State, a: Action)
    requires Inv(cfg, s) && LevelsInv(cfg, s) && (a.Fail? || a.Abandon? || a.FlushWatermark? || a.Crash?)
    ensures LevelsInv(cfg, Next(cfg, s, a))
  {
    hide Run, Results, StreamCarries, RingLevelsOk, Published, RingOk, Pending, RidingOk, Holder;
    var s' := Next(cfg, s, a);
    var results := ResultsOf(cfg, s);
    if s' != s && s'.mode == Up {
      RingLevelsFrame(cfg, s, s');
      if a.FlushWatermark? {
        forall c: Client ensures PcRides(results, s'.PcOf(c)) {
          assert s'.PcOf(c) == s.PcOf(c);
        }
      } else {
        PcsRide(results, s, s', a.client);
      }
    }
  }

  lemma TimeOutRides(cfg: Config, s: State, a: Action)
    requires Inv(cfg, s) && LevelsInv(cfg, s) && (a.TimeOut? || a.TimeOutRecovery?)
    ensures LevelsInv(cfg, Next(cfg, s, a))
  {
    hide Run, Results, StreamCarries, RingLevelsOk, Published, RingOk, Pending, RidingOk, Rides;
    var s' := Next(cfg, s, a);
    if s' != s {
      var bs, results := Out(cfg, s), ResultsOf(cfg, s);
      BatchesAreBatched(cfg.market, s.journal);
      if a.TimeOut? {
        var pc := s.PcOf(a.client);
        assert PcRides(results, pc);
        RidesIsDue(results, bs, s.stream, pc.todo, if pc.Gap? then pc.seqNo - 1 else pc.seqNo, pc.riding);
        CarriesPush(results, s.late, s.lateRides, pc.todo[0], Rides(pc.todo, pc.riding));
        PcsRide(results, s, s', a.client);
        RingLevelsFrame(cfg, s, s');
      } else {
        RidesIsDue(results, bs, s.stream, s.mode.todo, |s.journal|, s.mode.riding);
        CarriesPush(results, s.late, s.lateRides, s.mode.todo[0], Rides(s.mode.todo, s.mode.riding));
      }
    }
  }

  lemma ArriveRides(cfg: Config, s: State, a: Action)
    requires Inv(cfg, s) && LevelsInv(cfg, s) && a.Arrive?
    ensures LevelsInv(cfg, Next(cfg, s, a))
  {
    hide Run, Results, RingLevelsOk, Published, RingOk, Pending, RidingOk, EntryOf, Due;
    var s' := Next(cfg, s, a);
    if s' != s {
      var results := ResultsOf(cfg, s);
      assert EntryOf(results, s.late[a.n]) && s.lateRides[a.n] == Due(results, s.late[a.n]);
      CarriesPush(results, s.stream, s.rides, s.late[a.n], s.lateRides[a.n]);
      if s.mode == Up {
        RingLevelsFrame(cfg, s, s');
        forall c: Client ensures PcRides(results, s'.PcOf(c)) {
          assert s'.PcOf(c) == s.PcOf(c);
        }
      }
    }
  }

  lemma RecoveryRides(cfg: Config, s: State, a: Action)
    requires Inv(cfg, s) && LevelsInv(cfg, s) && (a.RepublishOne? || a.FinishRecovery?)
    ensures LevelsInv(cfg, Next(cfg, s, a))
  {
    hide Run, Results, StreamCarries, Published, Pending, RidingOk, Rides;
    var s' := Next(cfg, s, a);
    if s' != s {
      var results, bs := ResultsOf(cfg, s), Out(cfg, s);
      if a.RepublishOne? {
        BatchesAreBatched(cfg.market, s.journal);
        RidesIsDue(results, bs, s.stream, s.mode.todo, |s.journal|, s.mode.riding);
        CarriesPush(results, s.stream, s.rides, s.mode.todo[0], Rides(s.mode.todo, s.mode.riding));
        LessRides(results, s.mode.todo, s.mode.riding);
      } else if s'.mode == Up {
        NoRingLevels(cfg, s');
      }
    }
  }

  /** A ring that starts empty has no levels. */
  lemma NoRingLevels(cfg: Config, s: State)
    requires s.ring == [] && s.ringLevels == map[] && LastEntered(s) == |s.journal| && s.pcs == map[]
    ensures RingLevelsOk(cfg, s) && forall c: Client :: PcRides(ResultsOf(cfg, s), s.PcOf(c))
  {
    var n := |s.journal|;
    assert Out(cfg, s)[..n][n..] == [] && Holds(s.ring, Out(cfg, s)[..n], n);
    assert HoldsLevels(s.ringLevels, LevelsIn(ResultsOf(cfg, s)[..n]), n);
  }

  lemma RestartRides(cfg: Config, s: State, a: Action)
    requires Inv(cfg, s) && LevelsInv(cfg, s) && a.Restart? && Settled(cfg, s)
    ensures LevelsInv(cfg, Next(cfg, s, a))
  {
    hide Run, Results, StreamCarries, Published, Keyed, After, Flat, Rebuilt, Settled, Dedup, EntriesFrom;
    var s' := Next(cfg, s, a);
    if s' != s {
      var results, bs := ResultsOf(cfg, s), Out(cfg, s);
      RebuiltIs(cfg, s);
      RunSeq(cfg.market, s.journal);
      if s'.mode == Up {
        NoRingLevels(cfg, s');
      } else {
        BatchesAreBatched(cfg.market, s.journal);
        LevelsOverIs(results, s.disk);
        RecoveryKeys(bs, s.disk);
      }
    }
  }

  lemma RecoveryKeys(bs: seq<seq<Event>>, w: nat)
    requires Batched(bs) && w <= |bs|
    ensures forall e :: e in Keyed(After(Flat(bs), w)) ==> w < e.seqNo <= |bs|
  {
    AfterIsSuffix(0, bs, w);
    SliceBatched(0, bs, w, |bs|);
    assert bs[w..|bs|] == bs[w..];
    KeyedFlat(w, bs[w..]);
    var all := EntriesFrom(w, bs[w..]);
    forall e | e in all ensures w < e.seqNo <= |bs| {
      var j :| 0 <= j < |all| && all[j] == e;
      EntryInBounds(w, bs[w..], j);
    }
  }

  lemma {:induction false} StepRides(cfg: Config, s: State, a: Action)
    requires Inv(cfg, s) && LevelsInv(cfg, s) && Fits(cfg, s) && !a.Abandon? && (a.Restart? ==> Settled(cfg, s))
    ensures LevelsInv(cfg, Next(cfg, s, a))
  {
    hide Inv, LevelsInv, Next, Settled;
    match a {
      case Submit(_, _, _, _) => SubmitRides(cfg, s, a);
      case EnterEgress(_) => EnterRides(cfg, s, a);
      case Plan(_) => PlanRides(cfg, s, a);
      case PublishOne(_) => PublishRides(cfg, s, a);
      case Confirm(_, _, _) => ConfirmRides(cfg, s, a);
      case Restart => RestartRides(cfg, s, a);
      case RepublishOne => RecoveryRides(cfg, s, a);
      case FinishRecovery(_, _) => RecoveryRides(cfg, s, a);
      case TimeOut(_) => TimeOutRides(cfg, s, a);
      case TimeOutRecovery => TimeOutRides(cfg, s, a);
      case Arrive(_) => ArriveRides(cfg, s, a);
      case _ => OtherRides(cfg, s, a);
    }
  }

  lemma StartRides(cfg: Config)
    ensures LevelsInv(cfg, Start(cfg))
  {
  }

  lemma {:induction false} RunRides(cfg: Config, actions: seq<Action>)
    requires Assumed(cfg, actions)
    ensures LevelsInv(cfg, RunAll(cfg, actions))
  {
    hide Inv, LevelsInv, Next, Fits, Settled;
    if actions == [] {
      StartRides(cfg);
    } else {
      var last := |actions| - 1;
      assert forall k :: 0 <= k <= last ==> actions[..last][..k] == actions[..k];
      RunRides(cfg, actions[..last]);
      RunKeeps(cfg, actions[..last]);
      assert actions[..last][..last] == actions[..last] && actions[last] in actions;
      StepRides(cfg, RunAll(cfg, actions[..last]), actions[last]);
    }
  }

  // ------------------------------------------------------------------ the mirror of the stream

  /** The mirror of a consumer that reads entries and applies the levels they carry. */
  function Followed(mirror: Mirror, entries: seq<Entry>, rides: seq<Option<Levels>>): Mirror
    requires |rides| == |entries|
  {
    if entries == [] then mirror
    else
      var n := |entries| - 1;
      var before := Followed(mirror, entries[..n], rides[..n]);
      if rides[n].Some? then ApplyLevels(before, rides[n].value) else before
  }

  /** What the entries of a run carry, one by one. */
  function DueAll(results: seq<Result>, entries: seq<Entry>): seq<Option<Levels>>
    requires forall e :: e in entries ==> EntryOf(results, e)
  {
    seq(|entries|, i requires 0 <= i < |entries| => assert entries[i] in entries; Due(results, entries[i]))
  }

  /** How many sequences the first `p` entries complete: those before the next entry's own. */
  function Reached(bs: seq<seq<Event>>, p: nat): nat {
    if p < |Entries(bs)| then SaturatingSub(Entries(bs)[p].seqNo, 1) else |bs|
  }

  lemma {:induction false} FollowedIs(results: seq<Result>, bs: seq<seq<Event>>, mirror: Mirror, p: nat)
    requires Batched(bs) && |bs| == |results| && (forall i :: 0 <= i < |bs| ==> bs[i] == results[i].events)
    requires p <= |Entries(bs)| && forall e :: e in Entries(bs) ==> EntryOf(results, e)
    ensures Reached(bs, p) <= |bs|
    ensures var entries := Entries(bs)[..p];
      Followed(mirror, entries, DueAll(results, entries)) == Mirrored(mirror, results[..Reached(bs, p)])
  {
    hide EntriesFrom, Reached;
    ReachedStep(bs, p);
    if p == 0 {
      assert Entries(bs)[..0] == [];
    } else {
      var all := Entries(bs);
      FollowedIs(results, bs, mirror, p - 1);
      assert all[p - 1] in all;
      FollowOne(results, mirror, all[..p - 1], all[p - 1]);
      assert all[..p] == all[..p - 1] + [all[p - 1]];
      MirrorOne(results, mirror, all[p - 1].seqNo);
    }
  }

  lemma ReachedStep(bs: seq<seq<Event>>, p: nat)
    requires Batched(bs) && p <= |Entries(bs)|
    ensures Reached(bs, 0) == 0
    ensures p > 0 ==>
      var d := Entries(bs)[p - 1];
      && 1 <= d.seqNo <= |bs| && Reached(bs, p - 1) == d.seqNo - 1
      && Reached(bs, p) == if d.idx + 1 == |bs[d.seqNo - 1]| then d.seqNo else d.seqNo - 1
  {
    var all := Entries(bs);
    if bs == [] {
    } else {
      TailBatched(0, bs);
      assert all[0] == BatchEntries(1, bs[0])[0];
    }
    if p > 0 {
      EntryInBounds(0, bs, p - 1);
      if p < |all| { EntryNext(0, bs, p - 1); } else { EntryLast(0, bs); }
    }
  }

  lemma FollowOne(results: seq<Result>, mirror: Mirror, before: seq<Entry>, d: Entry)
    requires (forall e :: e in before ==> EntryOf(results, e)) && EntryOf(results, d)
    ensures forall e :: e in before + [d] ==> EntryOf(results, e)
    ensures var was := Followed(mirror, before, DueAll(results, before));
      Followed(mirror, before + [d], DueAll(results, before + [d]))
        == if Due(results, d).Some? then ApplyLevels(was, Due(results, d).value) else was
  {
    hide EntryOf, Due;
    var entries := before + [d];
    assert entries[..|before|] == before && DueAll(results, entries)[..|before|] == DueAll(results, before);
  }

  lemma MirrorOne(results: seq<Result>, mirror: Mirror, q: nat)
    requires 0 < q <= |results|
    ensures Mirrored(mirror, results[..q]) == ApplyLevels(Mirrored(mirror, results[..q - 1]), results[q - 1].levels)
  {
    assert results[..q][..q - 1] == results[..q - 1];
  }

  /** The mirror of a consumer of the stream itself, repeats and all: an entry whose key it has seen is passed over. */
  function FollowStream(mirror: Mirror, stream: seq<Entry>, rides: seq<Option<Levels>>): Mirror
    requires |rides| == |stream|
  {
    if stream == [] then mirror
    else
      var n := |stream| - 1;
      var before := FollowStream(mirror, stream[..n], rides[..n]);
      if HasKey(Dedup(stream[..n]), stream[n]) || rides[n].None? then before else ApplyLevels(before, rides[n].value)
  }

  lemma {:induction false} RepeatsPassedOver(results: seq<Result>, mirror: Mirror, stream: seq<Entry>,
                                             rides: seq<Option<Levels>>)
    requires StreamCarries(results, stream, rides)
    ensures forall e :: e in Dedup(stream) ==> EntryOf(results, e)
    ensures FollowStream(mirror, stream, rides) == Followed(mirror, Dedup(stream), DueAll(results, Dedup(stream)))
  {
    hide EntryOf, Due, HasKey, ApplyLevels, DueAll, Followed;
    if stream == [] {
      FollowedNone(results, mirror);
    } else {
      var n := |stream| - 1;
      RepeatsPassedOver(results, mirror, stream[..n], rides[..n]);
      var kept := Dedup(stream[..n]);
      if !HasKey(kept, stream[n]) { FollowedPush(results, mirror, kept, stream[n]); }
    }
  }

  lemma FollowedNone(results: seq<Result>, mirror: Mirror)
    ensures Followed(mirror, [], DueAll(results, [])) == mirror
  {
  }

  lemma FollowedPush(results: seq<Result>, mirror: Mirror, kept: seq<Entry>, e: Entry)
    requires EntryOf(results, e) && forall x :: x in kept ==> EntryOf(results, x)
    ensures forall x :: x in kept + [e] ==> EntryOf(results, x)
    ensures var before := Followed(mirror, kept, DueAll(results, kept));
      Followed(mirror, kept + [e], DueAll(results, kept + [e]))
      == if Due(results, e).Some? then ApplyLevels(before, Due(results, e).value) else before
  {
    hide EntryOf, Due, ApplyLevels;
    var more := kept + [e];
    assert more[..|kept|] == kept && DueAll(results, more)[..|kept|] == DueAll(results, kept);
  }

  /** In every run of submits, partial publish failures, crashes and recoveries: a mirror kept from nothing but
      the levels riding on the stream, repeats passed over, holds exactly the depth of the book as it
      stood after the last command whose events are all in the stream. */
  lemma {:induction false} StreamMirrorFollowsBook(cfg: Config, actions: seq<Action>)
    requires Assumed(cfg, actions)
    ensures var s := RunAll(cfg, actions);
      var c := Reached(Out(cfg, s), |Dedup(s.stream)|);
      && |s.rides| == |s.stream| && c <= |s.journal|
      && Agrees(FollowStream(map[], s.stream, s.rides), Run(Initial(cfg.market), s.journal[..c]).book)
  {
    var s := RunAll(cfg, actions);
    RunKeeps(cfg, actions);
    RunRides(cfg, actions);
    CarriedMirror(cfg, s);
  }

  lemma CarriedMirror(cfg: Config, s: State)
    requires Inv(cfg, s) && LevelsInv(cfg, s)
    ensures var c := Reached(Out(cfg, s), |Dedup(s.stream)|);
      && |s.rides| == |s.stream| && c <= |s.journal|
      && Agrees(FollowStream(map[], s.stream, s.rides), Run(Initial(cfg.market), s.journal[..c]).book)
  {
    hide Run, Results, FollowStream, Followed, Agrees, Mirrored, Running, EntriesFrom, Dedup, SavedOk, Published;
    var bs, results, kept := Out(cfg, s), ResultsOf(cfg, s), Dedup(s.stream);
    BatchesAreBatched(cfg.market, s.journal);
    RepeatsPassedOver(results, map[], s.stream, s.rides);
    forall e | e in Entries(bs) ensures EntryOf(results, e) {
      var j :| 0 <= j < |Entries(bs)| && Entries(bs)[j] == e;
      EntriesAreTheRuns(results, bs, j);
    }
    assert kept == Entries(bs)[..|kept|];
    FollowedIs(results, bs, map[], |kept|);
    var c := Reached(bs, |kept|);
    ResultsPrefix(Initial(cfg.market), s.journal, c);
    StartsEmpty(cfg.market, s.journal[..c]);
    MirrorFollowsBook(Initial(cfg.market), s.journal[..c], map[]);
  }

  lemma StartsEmpty(market: MarketConfig, cmds: seq<SequencedCommand>)
    requires Numbered(cmds)
    ensures StartsFrom(Initial(market), cmds) && Agrees(map[], EMPTY_BOOK) && EMPTY_BOOK.touched == {}
  {
  }
}
