/** Everything a run has said up to a point, as one list: what the settlement worker has been given so far. */
module EventHistory {
  import opened MatchingTypes
  import opened ReferenceBook
  import opened ReferenceMatcher
  import opened MatchingTheorems
  import opened MatchingRuns
  import opened SettlementFeed
  import opened MatchedFills

  function AllEvents(results: seq<Result>): seq<Event> {
    if results == [] then [] else AllEvents(results[..|results| - 1]) + results[|results| - 1].events
  }

  /** The events of the first `i` commands, and the first `p` of the next one's. */
  function History(results: seq<Result>, i: nat, p: nat): seq<Event>
    requires i <= |results| && (i < |results| ==> p <= |results[i].events|)
  {
    AllEvents(results[..i]) + if i < |results| then results[i].events[..p] else []
  }

  lemma {:induction false} SumsAppend(a: seq<Event>, b: seq<Event>, id: OrderId)
    ensures FilledQty(a + b, id) == FilledQty(a, id) + FilledQty(b, id)
    ensures ReleasedQty(a + b, id) == ReleasedQty(a, id) + ReleasedQty(b, id)
  {
    if b == [] {
      assert a + b == a;
    } else {
      var last := |b| - 1;
      assert (a + b)[..|a + b| - 1] == a + b[..last];
      SumsAppend(a, b[..last], id);
    }
  }

  lemma {:induction false} SumsOver(results: seq<Result>, id: OrderId)
    ensures FilledQty(AllEvents(results), id) == FilledOver(results, id)
    ensures ReleasedQty(AllEvents(results), id) == ReleasedOver(results, id)
  {
    hide FilledQty, ReleasedQty;
    if results == [] {
      EmptySums(id);
    } else {
      var last := |results| - 1;
      SumsOver(results[..last], id);
      SumsAppend(AllEvents(results[..last]), results[last].events, id);
    }
  }

  lemma {:induction false} HistorySums(results: seq<Result>, i: nat, p: nat, id: OrderId)
    requires i < |results| && p <= |results[i].events|
    ensures FilledQty(History(results, i, p), id) == FilledBefore(results, i, p, id)
    ensures ReleasedQty(History(results, i, p), id) == ReleasedBefore(results, i, p, id)
  {
    hide FilledQty, ReleasedQty, FilledOver, ReleasedOver, AllEvents;
    SumsOver(results[..i], id);
    SumsAppend(AllEvents(results[..i]), results[i].events[..p], id);
  }

  /** One event more. */
  lemma {:induction false} HistoryNext(results: seq<Result>, i: nat, p: nat)
    requires i < |results| && p < |results[i].events|
    ensures History(results, i, p + 1) == History(results, i, p) + [results[i].events[p]]
  {
    assert results[i].events[..p + 1] == results[i].events[..p] + [results[i].events[p]];
  }

  /** The end of one command is the start of the next. */
  lemma {:induction false} HistoryTurn(results: seq<Result>, i: nat)
    requires i < |results|
    ensures History(results, i, |results[i].events|) == History(results, i + 1, 0)
  {
    assert results[..i + 1][..i] == results[..i] && results[..i + 1][i] == results[i];
    assert results[i].events[..|results[i].events|] == results[i].events;
  }

  // ------------------------------------------------------------------ rejections

  /** The event tells an order's gateway that it was refused. */
  predicate Rejects(e: Event, id: OrderId) { e.Rejected? && e.orderId == id && e.reason != UnknownOrder }

  lemma {:induction false} MatchSaysNoRejection(t: Taker, m: Matching)
    requires forall e :: e in m.events ==> !e.Rejected?
    ensures forall e :: e in Match(t, m).events ==> !e.Rejected?
    decreases !m.stopped, |Makers(t, m)|, m.remaining
  {
    if Done(t, m) {
    } else {
      hide FillCount;
      MatchSaysNoRejection(t, Step(t, m));
    }
  }

  /** A command refuses in its last event if anywhere. */
  lemma {:induction false} RejectedIsLast(e: EngineState, c: SequencedCommand, q: nat)
    requires q < |Apply(e, c).events| && Apply(e, c).events[q].Rejected?
    ensures q == |Apply(e, c).events| - 1
  {
    hide PlaceOrder, Find;
    var e0 := e.(lastSeq := c.seqNo);
    match c.command
    case Place(id, request) => PlaceRejectsLast(e0, c.seqNo, c.timestampMs, id, request, q);
    case Amend(id, newId, price, qty) =>
      if Lookup(e.book, id).Some? {
        var o := Lookup(e.book, id).value;
        var e1 := e0.(book := e.book.Remove(o));
        if q > 0 {
          PlaceRejectsLast(e1, c.seqNo, c.timestampMs, newId, Replacement(o, newId, price, qty), q - 1);
        }
      }
    case _ =>
  }

  lemma {:induction false} PlaceRejectsLast(e: EngineState, seqNo: nat, ts: int, id: OrderId, request: OrderRequest,
                                            q: nat)
    requires var events := PlaceOrder(e, seqNo, ts, id, request).events; q < |events| && events[q].Rejected?
    ensures q == |PlaceOrder(e, seqNo, ts, id, request).events| - 1
  {
    var t := TakerOf(e, seqNo, ts, id, request);
    var m := Match(t, Matching(e.book, request.qty, [], false));
    MatchSaysNoRejection(t, Matching(e.book, request.qty, [], false));
    PlaceShape(e, seqNo, ts, id, request);
    hide PlaceOrder, Match, Dispose;
    var events := PlaceOrder(e, seqNo, ts, id, request).events;
    assert events == m.events + [Last(events)] ==> forall j :: 0 <= j < |events| - 1 ==> events[j] == m.events[j];
  }

  lemma {:induction false} RejectedGrows(e: EngineState, cmds: seq<SequencedCommand>, k: nat, id: OrderId)
    requires k < |cmds|
    ensures var before := Run(e, cmds[..k]);
      RejectedBy(before, cmds[k].command, Apply(before, cmds[k]).events, id) <= RejectedOver(e, cmds, id)
  {
    hide Run, Apply, RejectedBy;
    var last := |cmds| - 1;
    if k == last {
    } else {
      RejectedGrows(e, cmds[..last], k, id);
      assert cmds[..last][..k] == cmds[..k];
    }
  }

  /** Whatever is said of an order, it is said before the order is refused. */
  lemma {:induction false} NothingAfterRejection(market: MarketConfig, cmds: seq<SequencedCommand>, k: nat, j: nat,
                                                 q: nat, i: nat, p: nat, id: OrderId)
    requires k < |cmds| && FreshIds(cmds) && Ordered(0, cmds) && Names(cmds[k].command, id)
    requires PlacedBy(Run(Initial(market), cmds[..k]), cmds[k].command, id) > 0 && j < |cmds| && i < |cmds|
    requires var results := Results(Initial(market), cmds);
      && q < |results[j].events| && Rejects(results[j].events[q], id)
      && p < |results[i].events| && Concerns(results[i].events[p], id)
    ensures i < j || (i == j && p <= q)
  {
    hide Run, Results, Apply, PlacedBy, Agrees, FilledBefore, ReleasedBefore, RejectedOver;
    var e := Initial(market);
    RefusedAtOnce(market, cmds, k, j, q, id);
    RunAgrees(market, cmds, k, i, p, id);
    ResultAt(e, cmds, j);
    RejectedIsLast(Run(e, cmds[..j]), cmds[j], q);
    if j < i { RejectionCounts(market, cmds, k, q, i, id); }
  }

  lemma {:induction false} RejectionCounts(market: MarketConfig, cmds: seq<SequencedCommand>, k: nat, q: nat, i: nat,
                                           id: OrderId)
    requires k < i <= |cmds| && PlacedBy(Run(Initial(market), cmds[..k]), cmds[k].command, id) > 0
    requires q < |Results(Initial(market), cmds)[k].events| && Rejects(Results(Initial(market), cmds)[k].events[q], id)
    ensures RejectedOver(Initial(market), cmds[..i], id) > 0
  {
    hide Run, Results, Apply, PlacedBy, RejectedOver;
    var e := Initial(market);
    ResultAt(e, cmds, k);
    RejectedIsLast(Run(e, cmds[..k]), cmds[k], q);
    assert cmds[..i][..k] == cmds[..k] && cmds[..i][k] == cmds[k];
    RejectedGrows(e, cmds[..i], k, id);
  }

  /** An order is refused by the command that brought it in, before it traded. */
  lemma {:induction false} RefusedAtOnce(market: MarketConfig, cmds: seq<SequencedCommand>, k: nat, j: nat, q: nat,
                                         id: OrderId)
    requires k < |cmds| && j < |cmds| && FreshIds(cmds) && Ordered(0, cmds) && Names(cmds[k].command, id)
    requires q < |Results(Initial(market), cmds)[j].events| && Rejects(Results(Initial(market), cmds)[j].events[q], id)
    ensures k == j && FilledBefore(Results(Initial(market), cmds), j, q, id) == 0
  {
    hide Run, Results, PlacedBy, FilledBefore, ReleasedBefore;
    RunAgrees(market, cmds, k, j, q, id);
  }

  // ------------------------------------------------------------------ orders that never trade

  predicate Trades(e: Event, id: OrderId) { e.Filled? && (e.fill.takerOrderId == id || e.fill.makerOrderId == id) }

  /** No event of the run is a fill of the order. */
  ghost predicate NeverTrades(results: seq<Result>, id: OrderId) {
    forall i, p :: 0 <= i < |results| && 0 <= p < |results[i].events| ==> !Trades(results[i].events[p], id)
  }

  lemma {:induction false} AllEventsPrefix(results: seq<Result>, i: nat)
    requires i <= |results|
    ensures AllEvents(results[..i]) <= AllEvents(results)
  {
    if i == |results| {
      assert results[..i] == results;
    } else {
      AllEventsPrefix(results[..|results| - 1], i);
      assert results[..|results| - 1][..i] == results[..i];
    }
  }

  lemma {:induction false} HistoryPrefix(results: seq<Result>, i: nat, p: nat, j: nat, q: nat)
    requires i < |results| && p <= |results[i].events| && j < |results| && q <= |results[j].events|
    requires i < j || (i == j && p <= q)
    ensures History(results, i, p) <= History(results, j, q)
  {
    hide AllEvents;
    var all := results[i].events;
    if i < j {
      HistoryTurn(results, i);
      assert all[..p] <= all[..|all|];
      assert History(results, i, p) <= History(results, i, |all|);
      assert History(results, i + 1, 0) == AllEvents(results[..i + 1]) + if i + 1 < |results| then [] else [];
      AllEventsPrefix(results[..j], i + 1);
      assert results[..j][..i + 1] == results[..i + 1];
      assert AllEvents(results[..j]) <= History(results, j, q);
    } else {
      assert all[..p] <= all[..q];
    }
  }

  lemma {:induction false} SumsPrefix(a: seq<Event>, b: seq<Event>, id: OrderId)
    requires a <= b
    ensures FilledQty(a, id) <= FilledQty(b, id) && ReleasedQty(a, id) <= ReleasedQty(b, id)
  {
    assert b == a + b[|a|..];
    SumsAppend(a, b[|a|..], id);
  }

  /** What was said at one point counts at every later one. */
  lemma {:induction false} CountsLater(results: seq<Result>, i: nat, p: nat, j: nat, q: nat, id: OrderId)
    requires i < |results| && p < |results[i].events| && j < |results| && q < |results[j].events|
    requires i < j || (i == j && p < q)
    ensures FilledBefore(results, i, p, id) + FilledIn(results[i].events[p], id) <= FilledBefore(results, j, q, id)
    ensures ReleasedBefore(results, i, p, id) + ReleasedIn(results[i].events[p], id) <= ReleasedBefore(results, j, q,
        id)
  {
    hide FilledQty, ReleasedQty, FilledBefore, ReleasedBefore, AllEvents, History;
    HistorySums(results, i, p, id);
    HistorySums(results, j, q, id);
    HistoryNext(results, i, p);
    EventSumsPush(History(results, i, p), results[i].events[p], id);
    HistoryPrefix(results, i, p + 1, j, q);
    SumsPrefix(History(results, i, p + 1), History(results, j, q), id);
  }

  /** The event ends the order with nothing of it traded. */
  predicate EndsUntraded(e: Event, id: OrderId, qty: nat) {
    || Rejects(e, id)
    || ((e.Cancelled? || e.Expired?) && e.orderId == id && e.remainingQty == qty)
  }

  /** The gateway's proof that an order never fills: the engine refused it, or ended it at its full quantity. */
  lemma {:induction false} EndedUntradedNeverTrades(market: MarketConfig, cmds: seq<SequencedCommand>, k: nat, j: nat,
                                                    q: nat, id: OrderId)
    requires k < |cmds| && j < |cmds| && FreshIds(cmds) && Ordered(0, cmds) && Names(cmds[k].command, id)
    requires var results, qty := Results(Initial(market), cmds),
      PlacedBy(Run(Initial(market), cmds[..k]), cmds[k].command, id);
      qty > 0 && q < |results[j].events| && EndsUntraded(results[j].events[q], id, qty)
    ensures NeverTrades(Results(Initial(market), cmds), id)
  {
    hide Run, Results, PlacedBy, FilledBefore, ReleasedBefore;
    var results := Results(Initial(market), cmds);
    RunAgrees(market, cmds, k, j, q, id);
    forall i, p | 0 <= i < |results| && 0 <= p < |results[i].events| ensures !Trades(results[i].events[p], id) {
      if Trades(results[i].events[p], id) {
        RunAgrees(market, cmds, k, i, p, id);
        if Rejects(results[j].events[q], id) { NothingAfterRejection(market, cmds, k, j, q, i, p, id); }
        if i < j || (i == j && p < q) {
          CountsLater(results, i, p, j, q, id);
        } else if j < i || (i == j && q < p) {
          CountsLater(results, j, q, i, p, id);
        }
      }
    }
  }

  /** So is that the engine was never given a quantity for it: no command names it, or an amend of an order that
      was no longer there. */
  lemma {:induction false} NothingPlacedNeverTrades(market: MarketConfig, cmds: seq<SequencedCommand>, id: OrderId)
    requires FreshIds(cmds) && Ordered(0, cmds) && PlacedOver(Initial(market), cmds, id) == 0
    ensures NeverTrades(Results(Initial(market), cmds), id)
  {
    hide Run, Results, PlacedBy, FilledBefore, ReleasedBefore, PlacedOver;
    var results := Results(Initial(market), cmds);
    forall i, p | 0 <= i < |results| && 0 <= p < |results[i].events| ensures !Trades(results[i].events[p], id) {
      if Trades(results[i].events[p], id) {
        var k := TradedWasNamed(market, cmds, i, p, id);
        RunAgrees(market, cmds, k, i, p, id);
        PlacedFresh(Initial(market), cmds, k, id);
      }
    }
  }

  lemma {:induction false} TradedWasNamed(market: MarketConfig, cmds: seq<SequencedCommand>, i: nat, p: nat,
                                          id: OrderId) returns (k: nat)
    requires FreshIds(cmds) && Ordered(0, cmds) && i < |cmds| && p < |Results(Initial(market), cmds)[i].events|
    requires Trades(Results(Initial(market), cmds)[i].events[p], id)
    ensures k < |cmds| && Names(cmds[k].command, id)
  {
    hide Run, Results;
    var f := Results(Initial(market), cmds)[i].events[p].fill;
    var maker := FillHasTerms(market, cmds, i, f);
    k := if f.takerOrderId == id then i else maker;
  }

  // ------------------------------------------------------------------ what is said of an order

  lemma {:induction false} SaidSomewhere(results: seq<Result>, r: Event) returns (j: nat, q: nat)
    requires r in AllEvents(results)
    ensures j < |results| && q < |results[j].events| && results[j].events[q] == r
  {
    var last := |results| - 1;
    if r in results[last].events {
      j := last;
      q :| 0 <= q < |results[last].events| && results[last].events[q] == r;
    } else {
      j, q := SaidSomewhere(results[..last], r);
    }
  }

  lemma {:induction false} HeardSomewhere(results: seq<Result>, i: nat, p: nat, r: Event) returns (j: nat, q: nat)
    requires i < |results| && p <= |results[i].events| && r in History(results, i, p)
    ensures j < |results| && q < |results[j].events| && results[j].events[q] == r && (j < i || (j == i && q < p))
  {
    hide AllEvents;
    if r in AllEvents(results[..i]) {
      j, q := SaidSomewhere(results[..i], r);
    } else {
      j := i;
      q :| 0 <= q < p && results[i].events[..p][q] == r;
    }
  }

  /** An order something is said of has not been refused before. */
  lemma {:induction false} NotRefusedYet(market: MarketConfig, cmds: seq<SequencedCommand>, k: nat, i: nat, p: nat,
                                         id: OrderId)
    requires k < |cmds| && i < |cmds| && FreshIds(cmds) && Ordered(0, cmds) && Names(cmds[k].command, id)
    requires PlacedBy(Run(Initial(market), cmds[..k]), cmds[k].command, id) > 0
    requires p < |Results(Initial(market), cmds)[i].events| && Concerns(Results(Initial(market), cmds)[i].events[p], id)
    ensures forall r :: r in History(Results(Initial(market), cmds), i, p) ==> !Rejects(r, id)
  {
    hide Run, Results, PlacedBy, History;
    var results := Results(Initial(market), cmds);
    forall r | r in History(results, i, p) ensures !Rejects(r, id) {
      if Rejects(r, id) {
        var j, q := HeardSomewhere(results, i, p, r);
        NothingAfterRejection(market, cmds, k, j, q, i, p, id);
      }
    }
  }

  /** Nothing is said of an id that no command so far brought in. */
  lemma {:induction false} ConcernedWasNamed(market: MarketConfig, cmds: seq<SequencedCommand>, i: nat, p: nat,
                                             id: OrderId) returns (k: nat)
    requires i < |cmds| && FreshIds(cmds) && Ordered(0, cmds) && p < |Results(Initial(market), cmds)[i].events|
    requires Concerns(Results(Initial(market), cmds)[i].events[p], id)
    ensures k <= i && Names(cmds[k].command, id)
  {
    hide Run, Results, Apply, RestingQty, BookInv, AllAgree, FilledOver, ReleasedOver;
    k := 0;
    if exists j :: 0 <= j <= i && Names(cmds[j].command, id) {
      k :| 0 <= k <= i && Names(cmds[k].command, id);
    } else {
      var e := Initial(market);
      MeetsFresh(market, cmds, i, id);
      ResultAt(e, cmds, i);
      forall c | c in cmds[..i] ensures !Names(c.command, id) {
        var j :| 0 <= j < i && cmds[j] == c;
      }
      UnseenBefore(market, cmds[..i], id);
      NotPlaced(Run(e, cmds[..i]), cmds[i].command, id);
      CommandAgrees(Run(e, cmds[..i]), cmds[i], id);
      NoneConcern(Results(e, cmds)[i].events, id, p);
    }
  }

  /** Nothing is said of what an amend of a missing order would have brought in. */
  lemma {:induction false} ConcernedHasTerms(market: MarketConfig, cmds: seq<SequencedCommand>, i: nat, p: nat,
                                             id: OrderId)
    returns (k: nat)
    requires i < |cmds| && FreshIds(cmds) && Ordered(0, cmds) && p < |Results(Initial(market), cmds)[i].events|
    requires Concerns(Results(Initial(market), cmds)[i].events[p], id)
    ensures k <= i && Names(cmds[k].command, id) && TermsOf(Run(Initial(market), cmds[..k]), cmds[k].command).Some?
  {
    hide Run, Results, FilledBefore, ReleasedBefore;
    k := ConcernedWasNamed(market, cmds, i, p, id);
    var e := Run(Initial(market), cmds[..k]);
    if TermsOf(e, cmds[k].command).None? {
      ResultAt(Initial(market), cmds, k);
      MissingSaysNothing(e, cmds[k], id);
      RunAgrees(market, cmds, k, i, p, id);
    }
  }

  lemma {:induction false} MissingSaysNothing(e: EngineState, c: SequencedCommand, id: OrderId)
    requires Names(c.command, id) && TermsOf(e, c.command).None?
    ensures PlacedBy(e, c.command, id) == 0 && forall r :: r in Apply(e, c).events ==> !Concerns(r, id)
  {
    hide PlaceOrder, Find;
  }

  /** What the worker has heard of an id that no command so far brought in: nothing. */
  lemma {:induction false} UnnamedUnheard(market: MarketConfig, cmds: seq<SequencedCommand>, i: nat, p: nat, n: nat,
                                          id: OrderId)
    requires FreshIds(cmds) && Ordered(0, cmds) && n <= |cmds|
    requires if p == 0 then i == n else i + 1 == n && p <= |Results(Initial(market), cmds)[i].events|
    requires forall c :: c in cmds[..n] ==> !Names(c.command, id)
    ensures var h := History(Results(Initial(market), cmds), i, p);
      FilledQty(h, id) == 0 && ReleasedQty(h, id) == 0 && forall r :: r in h ==> !Rejects(r, id)
  {
    hide Run, Results, FilledOver, ReleasedOver, FilledQty, ReleasedQty, AllEvents;
    var results := Results(Initial(market), cmds);
    var h, all := History(results, i, p), AllEvents(results[..n]);
    UnseenBefore(market, cmds[..n], id);
    ResultsPrefix(Initial(market), cmds, n);
    SumsOver(results[..n], id);
    HistoryWithin(results, i, p, n);
    SumsPrefix(h, all, id);
    forall r | r in h ensures !Rejects(r, id) {
      assert r in all;
      var j, q := SaidSomewhere(results[..n], r);
      if Concerns(r, id) {
        var k := ConcernedWasNamed(market, cmds, j, q, id);
      }
    }
  }

  lemma {:induction false} HistoryWithin(results: seq<Result>, i: nat, p: nat, n: nat)
    requires n <= |results| && if p == 0 then i == n else i + 1 == n && p <= |results[i].events|
    ensures History(results, i, p) <= AllEvents(results[..n])
  {
    hide AllEvents;
    if p == 0 {
      assert History(results, i, p) == AllEvents(results[..i]) + [];
    } else {
      HistoryTurn(results, i);
      var all := results[i].events;
      assert all[..p] <= all[..|all|];
      assert History(results, i, p) <= History(results, i, |all|);
      assert History(results, i + 1, 0) == AllEvents(results[..i + 1]) + [];
    }
  }

  // ------------------------------------------------------------------ refusals, said and counted

  lemma {:induction false} RejectedFresh(e: EngineState, cmds: seq<SequencedCommand>, k: nat, id: OrderId)
    requires k < |cmds| && FreshIds(cmds) && Names(cmds[k].command, id)
    ensures var before := Run(e, cmds[..k]);
      RejectedOver(e, cmds, id) == RejectedBy(before, cmds[k].command, Apply(before, cmds[k]).events, id)
  {
    hide Run, PlacedBy, Apply;
    var last := |cmds| - 1;
    if k == last {
      OthersBefore(cmds, k, id);
      NothingRejected(e, cmds[..last], id);
    } else {
      OthersBefore(cmds, k, id);
      NotPlaced(Run(e, cmds[..last]), cmds[last].command, id);
      RejectedFresh(e, cmds[..last], k, id);
      assert cmds[..last][..k] == cmds[..k];
    }
  }

  /** A command that refuses what it brings in says so, by id and with a reason of its own. */
  lemma {:induction false} RefusalIsSaid(e: EngineState, c: SequencedCommand, id: OrderId)
    requires Names(c.command, id) && RejectedBy(e, c.command, Apply(e, c).events, id) > 0
    ensures Apply(e, c).events != [] && Rejects(Last(Apply(e, c).events), id)
  {
    hide PlaceOrder, Find;
    var e0 := e.(lastSeq := c.seqNo);
    match c.command
    case Place(oid, request) => PlaceRefuses(e0, c.seqNo, c.timestampMs, oid, request);
    case Amend(oid, newId, price, qty) =>
      var o := Lookup(e.book, oid).value;
      PlaceRefuses(e0.(book := e.book.Remove(o)), c.seqNo, c.timestampMs, newId, Replacement(o, newId, price, qty));
  }

  lemma PlaceRefuses(e: EngineState, seqNo: nat, ts: int, id: OrderId, request: OrderRequest)
    ensures var events := PlaceOrder(e, seqNo, ts, id, request).events;
      events != [] && (Last(events).Rejected? ==> Rejects(Last(events), id))
  {
    hide Match, Fillable, FillCount, TakerOf, WouldCross;
  }

  /** Refused, counted over the run, if and only if the run says so. */
  lemma {:induction false} RefusedIsSaid(market: MarketConfig, cmds: seq<SequencedCommand>, k: nat, id: OrderId)
    requires k < |cmds| && FreshIds(cmds) && Ordered(0, cmds) && Names(cmds[k].command, id)
    requires PlacedBy(Run(Initial(market), cmds[..k]), cmds[k].command, id) > 0
    ensures RejectedOver(Initial(market), cmds, id) > 0
       <==> exists r :: r in AllEvents(Results(Initial(market), cmds)) && Rejects(r, id)
  {
    hide Run, Results, Apply, PlacedBy, RejectedOver, Rejects, AllEvents;
    var e, results := Initial(market), Results(Initial(market), cmds);
    if RejectedOver(e, cmds, id) > 0 {
      RejectedFresh(e, cmds, k, id);
      RefusalIsSaid(Run(e, cmds[..k]), cmds[k], id);
      ResultAt(e, cmds, k);
      SaidIsAmong(results, k, |results[k].events| - 1);
    }
    if exists r :: r in AllEvents(results) && Rejects(r, id) {
      var r :| r in AllEvents(results) && Rejects(r, id);
      var j, q := SaidSomewhere(results, r);
      RefusedAtOnce(market, cmds, k, j, q, id);
      RejectionCounts(market, cmds, k, q, |cmds|, id);
      assert cmds[..|cmds|] == cmds;
    }
  }

  lemma {:induction false} SaidIsAmong(results: seq<Result>, k: nat, q: nat)
    requires k < |results| && q < |results[k].events|
    ensures results[k].events[q] in AllEvents(results)
  {
    var last := |results| - 1;
    if k == last {
    } else {
      SaidIsAmong(results[..last], k, q);
    }
  }
}
