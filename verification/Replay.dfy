/** Replaying a journal: determinism, snapshots and what they leave out. */
module Replay {
  import opened MatchingTypes
  import opened PriceTimeList
  import opened ReferenceBook
  import opened ReferenceMatcher
  import opened MatchingRuns

  /** The commands of a journal carry 1, 2, 3, ... */
  ghost predicate Numbered(cmds: seq<SequencedCommand>) {
    forall i :: 0 <= i < |cmds| ==> cmds[i].seqNo == i + 1
  }

  lemma {:induction false} RunSeq(market: MarketConfig, journal: seq<SequencedCommand>)
    requires Numbered(journal)
    ensures Run(Initial(market), journal).lastSeq == |journal| && Run(Initial(market), journal).book.touched == {}
  {
    if journal == [] {
    } else {
      var last := |journal| - 1;
      RunSeq(market, journal[..last]);
      ApplySeq(Run(Initial(market), journal[..last]), journal[last]);
      hide Apply;
    }
  }

  lemma ApplySeq(e: EngineState, c: SequencedCommand)
    ensures Apply(e, c).state.lastSeq == c.seqNo
  {
    hide Validate, Match, Fillable, FillCount, Find;
  }

  lemma RunPush(market: MarketConfig, journal: seq<SequencedCommand>, c: SequencedCommand)
    ensures var out := Apply(Run(Initial(market), journal), c);
      && Run(Initial(market), journal + [c]) == ClearTouched(out.state)
      && Results(Initial(market), journal + [c])[|journal|] == Result(out.events, LevelsOf(out.state.book))
  {
    hide Apply, LevelsOf, ClearTouched;
    assert (journal + [c])[..|journal|] == journal;
  }

  // ------------------------------------------------------------------ when levels are taken does not matter

  function Untouched(b: Book): Book { b.(touched := {}) }

  /** Two matchings that differ only in which levels they have touched. */
  ghost predicate SameMatching(m: Matching, m': Matching) {
    Untouched(m.book) == Untouched(m'.book) && m == m'.(book := m.book)
  }

  lemma {:induction false} MatchIgnoresTouched(t: Taker, m: Matching, m': Matching)
    requires SameMatching(m, m')
    ensures SameMatching(Match(t, m), Match(t, m'))
    decreases !m.stopped, |Makers(t, m)|, m.remaining
  {
    if Done(t, m) {
    } else {
      MatchIgnoresTouched(t, Step(t, m), Step(t, m'));
    }
  }

  ghost predicate SameOutput(o: Output, o': Output) {
    o.events == o'.events && ClearTouched(o.state) == ClearTouched(o'.state)
  }

  lemma PlaceIgnoresTouched(e: EngineState, seqNo: nat, ts: int, id: OrderId, request: OrderRequest)
    ensures SameOutput(PlaceOrder(e, seqNo, ts, id, request), PlaceOrder(ClearTouched(e), seqNo, ts, id, request))
  {
    hide Validate, Match, Fillable, FillCount, Dispose;
    var t := TakerOf(e, seqNo, ts, id, request);
    var m0, m0' := Matching(e.book, request.qty, [], false), Matching(Untouched(e.book), request.qty, [], false);
    MatchIgnoresTouched(t, m0, m0');
    DisposeSame(e, id, request, t, Match(t, m0), Match(t, m0'));
  }

  lemma DisposeSame(e: EngineState, id: OrderId, request: OrderRequest, t: Taker, m: Matching, m': Matching)
    requires SameMatching(m, m')
    ensures SameOutput(Dispose(e, id, request, t, m), Dispose(ClearTouched(e), id, request, t, m'))
  {
    hide FillCount, Insert;
  }

  lemma PlaceSame(e: EngineState, e': EngineState, seqNo: nat, ts: int, id: OrderId, request: OrderRequest)
    requires ClearTouched(e) == ClearTouched(e')
    ensures SameOutput(PlaceOrder(e, seqNo, ts, id, request), PlaceOrder(e', seqNo, ts, id, request))
  {
    PlaceIgnoresTouched(e, seqNo, ts, id, request);
    PlaceIgnoresTouched(e', seqNo, ts, id, request);
    hide PlaceOrder;
  }

  /** Whether the record of touched levels was taken changes neither events nor book. */
  lemma {:induction false} ApplyIgnoresTouched(e: EngineState, c: SequencedCommand)
    ensures SameOutput(Apply(e, c), Apply(ClearTouched(e), c))
  {
    hide PlaceOrder, Find;
    var e0 := e.(lastSeq := c.seqNo);
    match c.command {
      case Place(id, request) =>
        PlaceSame(e0, ClearTouched(e0), c.seqNo, c.timestampMs, id, request);
      case Cancel(_) =>
      case Amend(id, newId, price, qty) =>
        if Lookup(e.book, id).Some? {
          var o := Lookup(e.book, id).value;
          PlaceSame(e0.(book := e.book.Remove(o)), ClearTouched(e0).(book := ClearTouched(e0).book.Remove(o)),
                    c.seqNo, c.timestampMs, newId, Replacement(o, newId, price, qty));
        }
      case SetStatus(_) =>
    }
  }

  /** A replay that never asks for level changes. */
  function Fold(e: EngineState, cmds: seq<SequencedCommand>): EngineState {
    if cmds == [] then e else Apply(Fold(e, cmds[..|cmds| - 1]), cmds[|cmds| - 1]).state
  }

  lemma {:induction false} FoldIsRun(e: EngineState, cmds: seq<SequencedCommand>)
    requires e.book.touched == {}
    ensures ClearTouched(Fold(e, cmds)) == Run(e, cmds)
  {
    if cmds != [] {
      hide Apply;
      var last := |cmds| - 1;
      FoldIsRun(e, cmds[..last]);
      ApplyIgnoresTouched(Fold(e, cmds[..last]), cmds[last]);
    } else {
      assert e.book.(touched := {}) == e.book;
    }
  }

  // ------------------------------------------------------------------ snapshot plus tail

  /** The engine a restart builds: the configured market, the snapshotted book, then the tail. */
  function Recovered(market: MarketConfig, before: seq<SequencedCommand>, tail: seq<SequencedCommand>): EngineState {
    var at := Run(Initial(market), before);
    Run(EngineState(market, at.book, at.lastSeq), tail)
  }

  function Status(market: MarketConfig, cmds: seq<SequencedCommand>): MarketStatus {
    Run(Initial(market), cmds).market.status
  }

  /** Only the status of a market ever changes. */
  lemma {:induction false} MarketKept(e: EngineState, cmds: seq<SequencedCommand>)
    ensures Run(e, cmds).market == e.market.(status := Run(e, cmds).market.status)
  {
    if cmds == [] {
    } else {
      var last := |cmds| - 1;
      MarketKept(e, cmds[..last]);
      CommandKeepsMarket(Run(e, cmds[..last]), cmds[last]);
      hide Apply;
    }
  }

  lemma CommandKeepsMarket(e: EngineState, c: SequencedCommand)
    ensures var e' := Apply(e, c).state; e'.market == e.market.(status := e'.market.status)
  {
    hide Validate, Match, Fillable, FillCount, Find;
  }

  /** Snapshot plus tail is the full replay for EVERY tail, exactly when the status in force at the
      snapshot is the configured one: a snapshot does not carry the status. */
  lemma {:induction false} SnapshotRecoveryExact(market: MarketConfig, before: seq<SequencedCommand>)
    ensures (forall tail :: Recovered(market, before, tail) == Run(Initial(market), before + tail))
       <==> Status(market, before) == market.status
  {
    var at := Run(Initial(market), before);
    MarketKept(Initial(market), before);
    if at.market.status == market.status {
      forall tail ensures Recovered(market, before, tail) == Run(Initial(market), before + tail) {
        RunSplits(Initial(market), before, tail);
        assert at == EngineState(market, at.book, at.lastSeq);
      }
    } else {
      assert before + [] == before;
      assert Recovered(market, before, []) != Run(Initial(market), before + []);
    }
  }

  /** The family that diverges, seen by a trader: a halt before the snapshot is forgotten, and any
      order the open market admits is then accepted by the recovered engine and refused by a replay. */
  lemma {:induction false} ForgottenHalt(market: MarketConfig, c: SequencedCommand, placement: SequencedCommand)
    requires market.status == Open && c.command == SetStatus(Halted)
    requires placement.command.Place?
    requires Validate(market, None, placement.command.request).None? && !placement.command.request.postOnly
    ensures var id := placement.command.orderId;
      && Apply(Run(Initial(market), [c]), placement).events == [Rejected(placement.seqNo, id, MarketNotOpen)]
      && var events := Apply(Recovered(market, [c], []), placement).events; |events| == 1 && !events[0].Rejected?
  {
    assert [c][..0] == [];
    assert Run(Initial(market), []) == Initial(market);
    var halted := Run(Initial(market), [c]);
    assert halted == EngineState(market.(status := Halted), EMPTY_BOOK, c.seqNo);
    hide Match, Fillable, FillCount;
    var id, request := placement.command.orderId, placement.command.request;
    var e := EngineState(market, EMPTY_BOOK, placement.seqNo);
    var t := TakerOf(e, placement.seqNo, placement.timestampMs, id, request);
    NothingToMatch(t, Matching(EMPTY_BOOK, request.qty, [], false));
  }
}
