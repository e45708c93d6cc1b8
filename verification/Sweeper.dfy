/** What "never seen" proves about an order, and what it does not: the sweeper's question. */
module Sweeper {
  import opened MatchingTypes
  import opened ReferenceMatcher
  import opened MatchingTheorems
  import opened MatchingRuns
  import Index = Lookup

  /** The gateway gives the engine one id for both names of an order it places. */
  ghost predicate GatewayNamed(journal: seq<SequencedCommand>) {
    forall c :: c in journal && c.command.Place? ==> c.command.request.clientOrderId == c.command.orderId
  }

  /** The engine never traded the order and does not hold it. */
  ghost predicate Untouched(market: MarketConfig, journal: seq<SequencedCommand>, id: OrderId) {
    && FilledOver(Results(Initial(market), journal), id) == 0
    && RestingQty(Run(Initial(market), journal).book, id) == 0
  }

  /** A quantity that was put forward was put forward by some command. */
  lemma {:induction false} PlacedBySome(e: EngineState, cmds: seq<SequencedCommand>, id: OrderId) returns (k: nat)
    requires PlacedOver(e, cmds, id) > 0
    ensures k < |cmds| && PlacedBy(Run(e, cmds[..k]), cmds[k].command, id) > 0
  {
    hide PlacedBy, Run;
    var n := |cmds| - 1;
    if PlacedBy(Run(e, cmds[..n]), cmds[n].command, id) > 0 {
      k := n;
    } else {
      k := PlacedBySome(e, cmds[..n], id);
      assert cmds[..n][..k] == cmds[..k];
    }
  }

  /** Whatever the engine traded or holds was introduced: by a placement, or by the amend of a resting order. */
  lemma {:induction false} TouchedWasIntroduced(market: MarketConfig, journal: seq<SequencedCommand>, id: OrderId)
    returns (k: nat)
    requires Ordered(0, journal) && !Untouched(market, journal, id)
    ensures k < |journal| && Names(journal[k].command, id)
    ensures journal[k].command.Amend? ==> Run(Initial(market), journal[..k]).book.Contains(journal[k].command.orderId)
  {
    hide Run, Results, FilledOver, ReleasedOver, RejectedOver, PlacedOver;
    RunConserves(Initial(market), journal, id);
    k := PlacedBySome(Initial(market), journal, id);
  }

  /** Command `k` amends an order that rests when it arrives, and brings `id` in for a quantity. */
  predicate AmendsResting(market: MarketConfig, journal: seq<SequencedCommand>, k: nat, id: OrderId)
    requires k < |journal|
  {
    var c := journal[k].command;
    c.Amend? && c.newOrderId == id && c.qty > 0 && Run(Initial(market), journal[..k]).book.Contains(c.orderId)
  }

  /** "Never seen" is wrong of an order the engine was given a quantity for if and only if an amend brought the
      order in while the one it replaces was resting: only placements are indexed. */
  lemma {:induction false} NeverSeenIsWrongExactly(market: MarketConfig, journal: seq<SequencedCommand>, id: OrderId)
    requires FreshIds(journal) && GatewayNamed(journal)
    ensures id !in Index.Entries(journal) && PlacedOver(Initial(market), journal, id) > 0
       <==> exists k :: 0 <= k < |journal| && AmendsResting(market, journal, k, id)
  {
    hide Run, PlacedOver;
    var e := Initial(market);
    if id !in Index.Entries(journal) && PlacedOver(e, journal, id) > 0 {
      var k := PlacedBySome(e, journal, id);
      UnseenIsAmended(journal, id, k);
      assert AmendsResting(market, journal, k, id);
    }
    if exists k :: 0 <= k < |journal| && AmendsResting(market, journal, k, id) {
      var k :| 0 <= k < |journal| && AmendsResting(market, journal, k, id);
      AmendedIsUnseen(journal, journal[k]);
      PlacedFresh(e, journal, k, id);
    }
  }

  /** And never seen IS proof of an order no amend of a resting order brought in: the engine neither traded it
      nor holds it. */
  lemma {:induction false} NeverSeenIsProof(market: MarketConfig, journal: seq<SequencedCommand>, id: OrderId)
    requires Ordered(0, journal) && FreshIds(journal) && GatewayNamed(journal) && id !in Index.Entries(journal)
    requires forall k :: 0 <= k < |journal| ==> !AmendsResting(market, journal, k, id)
    ensures Untouched(market, journal, id)
  {
    hide Run, Results, FilledOver, ReleasedOver, RejectedOver, PlacedOver, AmendsResting;
    NeverSeenIsWrongExactly(market, journal, id);
    RunConserves(Initial(market), journal, id);
    EmptyRestsNothing(id);
  }

  /** An order that came by an amend is never in the index. */
  lemma AmendedIsUnseen(journal: seq<SequencedCommand>, c: SequencedCommand)
    requires FreshIds(journal) && GatewayNamed(journal) && c in journal && c.command.Amend?
    ensures c.command.newOrderId !in Index.Entries(journal)
  {
    var id := c.command.newOrderId;
    var j :| 0 <= j < |journal| && journal[j] == c;
    assert Names(journal[j].command, id);
    Index.EntriesAnswer(journal, id);
    var last := Index.LastPlacement(journal, id);
    if last.Some? {
      assert journal[last.value] in journal && Names(journal[last.value].command, id);
      assert false;
    }
  }

  /** And an introduced order that is not in the index came by an amend. */
  lemma UnseenIsAmended(journal: seq<SequencedCommand>, id: OrderId, k: nat)
    requires GatewayNamed(journal) && k < |journal| && Names(journal[k].command, id) && id !in Index.Entries(journal)
    ensures journal[k].command.Amend? && journal[k].command.newOrderId == id && journal[k] in journal
  {
    assert journal[k] in journal;
    Index.EntriesAnswer(journal, id);
    assert !Index.Places(journal[k], id);
  }

  // ------------------------------------------------------------------ the case that fails

  const MARKET := MarketConfig("SOL-USDC", 1, 1, 0, 500, Open)
  const PLACED := OrderRequest("a", Buy, Limit, GTC, Some(1_000_000_000), 1, false, CancelTaker, "alice")

  /** An order is placed and amended, and neither crosses anything. */
  const AMENDED: seq<SequencedCommand> := [
    SequencedCommand(1, 0, Place("a", PLACED)),
    SequencedCommand(2, 0, Amend("a", "b", 1_000_000_000, 2))]

  /** The replacement rests for its whole quantity, and the index has never seen it. */
  lemma {:induction false} RestingButNeverSeen()
    ensures FreshIds(AMENDED) && GatewayNamed(AMENDED) && Ordered(0, AMENDED) && AmendsResting(MARKET, AMENDED, 1, "b")
    ensures RestingQty(Run(Initial(MARKET), AMENDED).book, "b") == 2
    ensures "b" !in Index.Entries(AMENDED)
  {
    AmendedIsUnseen(AMENDED, AMENDED[1]);
    var e0 := Initial(MARKET);
    var e1 := RestsAlone(e0, 1, "a", PLACED);
    assert AMENDED[..1] == [AMENDED[0]] && [AMENDED[0]][..0] == [];
    assert Run(e0, AMENDED[..1]) == ClearTouched(Apply(e0, AMENDED[0]).state);
    var o := RestingOrder("a", "alice", Buy, 1_000_000_000, 1, CancelTaker, 1);
    var before := Run(e0, AMENDED[..1]);
    assert before.book.bids == [o] && before.book.asks == [];
    assert Find([o], "a") == Some(o);
    assert before.book.Remove(o).bids == [] by { assert [o][1..] == []; }
    var e2 := EngineState(MARKET, before.book.Remove(o), 2);
    var e3 := RestsAlone(e2, 2, "b", Replacement(o, "b", 1_000_000_000, 2));
    hide PlaceOrder;
    assert Apply(before, AMENDED[1]).state == e3;
  }
}
