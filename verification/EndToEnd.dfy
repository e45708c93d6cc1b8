/** From the journal to the settlement worker: whatever the engine journals, publishes, repeats, crashes
    and recovers on one side, the worker on the other applies each event of the replay once, in order. */
module EndToEnd {
  import opened MatchingTypes
  import opened ReferenceMatcher
  import opened EventStream
  import opened StreamOffsets
  import opened Consumer
  import opened Delivery
  import Publication

  /** The journal and the stream are append-only. */
  lemma StepGrows(cfg: Publication.Config, s: Publication.State, a: Publication.Action)
    ensures var s' := Publication.Next(cfg, s, a); s.stream <= s'.stream && s.journal <= s'.journal
  {
    hide Publication.Rebuilt, Publication.Replayed, Publication.OutputsFrom, Publication.Rides, Apply;
    match a
    case Submit(_, _, _, _) =>
    case EnterEgress(_) =>
    case Plan(_) =>
    case PublishOne(_) =>
    case Confirm(_, _, _) =>
    case Fail(_) =>
    case Abandon(_) =>
    case FlushWatermark =>
    case Crash =>
    case Restart =>
    case RepublishOne =>
    case FinishRecovery(_, _) =>
    case TimeOut(_) =>
    case TimeOutRecovery =>
    case Arrive(_) =>
  }

  lemma {:induction false} RunGrows(cfg: Publication.Config, actions: seq<Publication.Action>, i: nat, j: nat)
    requires i <= j <= |actions|
    ensures var s, s' := Publication.RunAll(cfg, actions[..i]), Publication.RunAll(cfg, actions[..j]);
      s.stream <= s'.stream && s.journal <= s'.journal
    decreases j
  {
    hide Publication.Next;
    if i == j {
    } else {
      RunGrows(cfg, actions, i, j - 1);
      assert actions[..j][..j - 1] == actions[..j - 1];
      StepGrows(cfg, Publication.RunAll(cfg, actions[..j - 1]), actions[j - 1]);
    }
  }

  lemma {:induction false} BatchesGrow(market: MarketConfig, journal: seq<SequencedCommand>,
                                       more: seq<SequencedCommand>)
    requires journal <= more
    ensures Publication.Batches(market, journal) <= Publication.Batches(market, more)
  {
    hide Publication.Batches;
    if journal == more {
    } else {
      var last := |more| - 1;
      BatchesGrow(market, journal, more[..last]);
      assert more[..last] + [more[last]] == more;
      Publication.BatchesPush(market, more[..last], more[last]);
    }
  }

  /** A pass of the worker that meets the system as it stands after some of its actions. */
  ghost predicate Meets(pass: Pass, cfg: Publication.Config, s: Publication.State) {
    pass.bs == Publication.Batches(cfg.market, s.journal) && pass.stream == s.stream && pass.count >= 1
  }

  ghost predicate Observe(passes: seq<Pass>, cfg: Publication.Config, actions: seq<Publication.Action>,
                          cuts: seq<nat>) {
    && |cuts| == |passes|
    && (forall i :: 0 <= i < |cuts| ==> cuts[i] <= |actions|)
    && (forall i :: 0 <= i < |cuts| ==> Meets(passes[i], cfg, Publication.RunAll(cfg, actions[..cuts[i]])))
    && (forall i :: 0 < i < |cuts| ==> cuts[i - 1] <= cuts[i])
  }

  lemma AssumedPrefix(cfg: Publication.Config, actions: seq<Publication.Action>, n: nat)
    requires Publication.Assumed(cfg, actions) && n <= |actions|
    ensures Publication.Assumed(cfg, actions[..n])
  {
    hide Publication.Fits, Publication.Settled, Publication.RunFrom;
    assert forall k :: 0 <= k <= n ==> actions[..n][..k] == actions[..k];
    assert forall k :: 0 <= k < n ==> actions[..n][k] == actions[k];
  }

  /** At every point of every such run the stream is what the worker requires it to be. */
  lemma ReachedIsDeliverable(cfg: Publication.Config, actions: seq<Publication.Action>)
    requires Publication.Assumed(cfg, actions)
    ensures var s := Publication.RunAll(cfg, actions); var bs := Publication.Batches(cfg.market, s.journal);
      Batched(bs) && Dedup(s.stream) <= Entries(bs)
  {
    Publication.StreamIsReplayPrefix(cfg, actions);
    Publication.RunKeeps(cfg, actions);
    hide Publication.RunFrom, Publication.Batches;
    Publication.BatchesAreBatched(cfg.market, Publication.RunAll(cfg, actions).journal);
  }

  lemma PassesUnfold(cfg: Publication.Config, actions: seq<Publication.Action>, cuts: seq<nat>, passes: seq<Pass>)
    requires Publication.Assumed(cfg, actions) && Observe(passes, cfg, actions, cuts)
    ensures Unfolds(passes)
  {
    hide Publication.Assumed, Publication.RunFrom, Publication.Batches, Dedup, EntriesFrom, BatchedFrom;
    forall i | 0 <= i < |passes| ensures passes[i].Valid() {
      AssumedPrefix(cfg, actions, cuts[i]);
      ReachedIsDeliverable(cfg, actions[..cuts[i]]);
      assert Meets(passes[i], cfg, Publication.RunAll(cfg, actions[..cuts[i]]));
    }
    forall i | 0 < i < |passes|
      ensures passes[i - 1].bs <= passes[i].bs && passes[i - 1].stream <= passes[i].stream
    {
      RunGrows(cfg, actions, cuts[i - 1], cuts[i]);
      var s, s' := Publication.RunAll(cfg, actions[..cuts[i - 1]]), Publication.RunAll(cfg, actions[..cuts[i]]);
      assert Meets(passes[i - 1], cfg, s) && Meets(passes[i], cfg, s');
      BatchesGrow(cfg.market, s.journal, s'.journal);
    }
  }

  /** Every event of the journal's replay, once and in order. Over any run of the engine's side and any run
      of the worker's passes over it, a worker that makes a new connection after a pass that left something
      unacknowledged has applied exactly the replay's events up to its offset, and all of them once it is
      caught up. */
  method ReplayAppliedOnce(ghost cfg: Publication.Config, ghost actions: seq<Publication.Action>, ghost cuts: seq<nat>,
                           passes: seq<Pass>, reconnects: seq<bool>, pageSize: nat)
    returns (consumer: SequencedConsumer, complete: seq<bool>)
    requires Publication.Assumed(cfg, actions) && Observe(passes, cfg, actions, cuts)
    requires passes != [] && |reconnects| == |passes| && pageSize >= 1
    ensures |complete| == |passes|
    ensures var last := |passes| - 1;
      var bs := Publication.Batches(cfg.market, Publication.RunAll(cfg, actions[..cuts[last]]).journal);
      && consumer.IsSound(bs)
      && ((forall i :: 0 < i <= last && !complete[i - 1] ==> reconnects[i]) ==>
            consumer.IsLossless(bs)
            && (AllCovered(bs, consumer.offset) ==> consumer.log == AllKeys(Entries(bs))))
  {
    hide *;
    PassesUnfold(cfg, actions, cuts, passes);
    consumer := new SequencedConsumer(Key(0, 0), passes[0].bs);
    var source := new GroupSource(passes[0].stream, Key(0, 0));
    complete := Work(source, consumer, passes, reconnects, pageSize);
    MeetsLast(cfg, actions, cuts, passes);
    if consumer.IsLossless(passes[|passes| - 1].bs) && AllCovered(passes[|passes| - 1].bs, consumer.offset) {
      AppliedAll(consumer, passes[|passes| - 1].bs);
    }
  }

  lemma MeetsLast(cfg: Publication.Config, actions: seq<Publication.Action>, cuts: seq<nat>, passes: seq<Pass>)
    requires Observe(passes, cfg, actions, cuts) && passes != []
    ensures var last := |passes| - 1;
      |cuts| == |passes| && cuts[last] <= |actions|
      && passes[last].bs == Publication.Batches(cfg.market, Publication.RunAll(cfg, actions[..cuts[last]]).journal)
  {
    hide Publication.RunFrom, Publication.Batches;
    var last := |passes| - 1;
    assert Meets(passes[last], cfg, Publication.RunAll(cfg, actions[..cuts[last]]));
  }

  lemma AppliedAll(consumer: SequencedConsumer, bs: seq<seq<Event>>)
    requires consumer.start == Key(0, 0) && consumer.IsLossless(bs) && AllCovered(bs, consumer.offset)
    ensures consumer.log == AllKeys(Entries(bs))
  {
    ExactlyOnce(bs, consumer.offset, consumer.log);
  }
}
