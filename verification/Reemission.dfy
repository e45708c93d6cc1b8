/** Re-emission: pages of events after a sequence, from the ring or from a replay of the journal. */
module Reemission {
  import opened MatchingTypes
  import opened ReferenceMatcher
  import opened MatchingRuns
  import opened Replay
  import opened EventStream
  import opened Egress
  import opened Publication

  /** The events of a whole journal, replayed into a fresh engine. */
  method ReplayFromScratch(market: MarketConfig, journal: seq<SequencedCommand>) returns (events: seq<Event>)
    ensures events == Flat(Batches(market, journal))
  {
    hide Apply, Flat;
    var engine := Initial(market);
    events := [];
    assert Flat(Batches(market, journal)[..0]) == [] by { FlatNone(); }
    for i := 0 to |journal|
      invariant ClearTouched(engine) == Run(Initial(market), journal[..i])
      invariant events == Flat(Batches(market, journal)[..i])
    {
      ReplayStep(market, journal, i, engine);
      var out := Apply(engine, journal[i]);
      engine, events := out.state, events + out.events;
    }
    assert Batches(market, journal)[..|journal|] == Batches(market, journal);
  }

  lemma FlatNone()
    ensures Flat([]) == []
  {
  }

  /** One more command, with the touched record taken or not. */
  lemma ReplayStep(market: MarketConfig, journal: seq<SequencedCommand>, i: nat, engine: EngineState)
    requires i < |journal| && ClearTouched(engine) == Run(Initial(market), journal[..i])
    ensures ClearTouched(Apply(engine, journal[i]).state) == Run(Initial(market), journal[..i + 1])
    ensures Flat(Batches(market, journal)[..i + 1]) == Flat(Batches(market, journal)[..i])
      + Apply(engine, journal[i]).events
  {
    hide Apply, Results, Run;
    ResultAt(Initial(market), journal, i);
    ApplyIgnoresTouched(engine, journal[i]);
    assert ClearTouched(engine) == ClearTouched(ClearTouched(engine));
    RunPush(market, journal[..i], journal[i]);
    assert journal[..i] + [journal[i]] == journal[..i + 1];
    var bs := Batches(market, journal);
    assert bs[..i + 1] == bs[..i] + [bs[i]];
    FlatAppend(bs[..i], [bs[i]]);
    assert [bs[i]][1..] == [] && Flat([bs[i]]) == bs[i] + [];
  }

  /** Events after `s`: a page of the run, the same from the ring as from the journal. The ring may be one
      command behind the journal, while a submission is between the two locks; a page from it is then
      the page of the run up to what it has recorded. */
  method EventsSince(ring: EventRing, market: MarketConfig, journal: seq<SequencedCommand>, s: nat, limit: nat,
                     ghost m: nat)
    returns (page: seq<Event>)
    requires Numbered(journal) && m <= |journal| && HoldsWhole(ring.events, Batches(market, journal)[..m])
    ensures page == Page(Batches(market, journal)[..m], s, limit) || page == Page(Batches(market, journal), s, limit)
    ensures m == |journal| ==> page == Page(Batches(market, journal), s, limit)
  {
    hide Batches, Page;
    ghost var bs := Batches(market, journal);
    BatchesAreBatched(market, journal);
    SliceBatched(0, bs, 0, m);
    assert bs[0..m] == bs[..m] && bs[..|bs|] == bs;
    var recent := ring.Since(s, limit, bs[..m]);
    if recent.Some? { return recent.value; }
    var events := ReplayFromScratch(market, journal);
    page := TakeWholeSequences(After(events, s), limit);
    PageIs(bs, s, limit);
  }

  lemma PageIs(bs: seq<seq<Event>>, s: nat, limit: nat)
    ensures Page(bs, s, limit) == TakeWhole(After(Flat(bs), s), limit)
  {
  }
}
