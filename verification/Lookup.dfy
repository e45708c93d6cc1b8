/** The index that answers whether the engine ever saw a client order id. */
module Lookup {
  import opened MatchingTypes

  datatype LookupOutcome = NeverSeen | SeenAt(seqNo: nat, orderId: OrderId) | Rebuilding

  datatype Placement = Placement(seqNo: nat, orderId: OrderId)

  /** What indexing one command does: a placement overwrites whatever its client id had before. */
  function Indexed(entries: map<string, Placement>, c: SequencedCommand): map<string, Placement> {
    if c.command.Place? then entries[c.command.request.clientOrderId := Placement(c.seqNo, c.command.orderId)]
    else entries
  }

  /** The index of a journal, scanned from its start. */
  function Entries(journal: seq<SequencedCommand>): map<string, Placement> {
    if journal == [] then map[] else Indexed(Entries(journal[..|journal| - 1]), journal[|journal| - 1])
  }

  predicate Places(c: SequencedCommand, client: string) {
    c.command.Place? && c.command.request.clientOrderId == client
  }

  /** The newest journaled placement under a client id. */
  function LastPlacement(journal: seq<SequencedCommand>, client: string): (k: Option<nat>)
    ensures k.Some? ==> k.value < |journal| && Places(journal[k.value], client)
    ensures k.Some? ==> forall i :: k.value < i < |journal| ==> !Places(journal[i], client)
    ensures k.None? ==> forall i :: 0 <= i < |journal| ==> !Places(journal[i], client)
  {
    if journal == [] then None
    else if Places(journal[|journal| - 1], client) then Some(|journal| - 1)
    else LastPlacement(journal[..|journal| - 1], client)
  }

  /** What the index says of a client id: its newest placement in the journal, and nothing else. */
  lemma {:induction false} EntriesAnswer(journal: seq<SequencedCommand>, client: string)
    ensures match LastPlacement(journal, client)
            case None => client !in Entries(journal)
            case Some(k) =>
              && client in Entries(journal)
              && Entries(journal)[client] == Placement(journal[k].seqNo, journal[k].command.orderId)
  {
    if journal == [] {
    } else {
      EntriesAnswer(journal[..|journal| - 1], client);
    }
  }

  class LookupIndex {
    var entries: map<string, Placement>
    var ready: bool

    /** An index that cannot answer yet. */
    constructor Unready()
      ensures !ready && entries == map[]
    {
      entries, ready := map[], false;
    }

    /** Scan the journal and index every placement in it. */
    constructor Rebuild(journal: seq<SequencedCommand>)
      ensures ready && entries == Entries(journal)
    {
      var built: map<string, Placement> := map[];
      for i := 0 to |journal|
        invariant built == Entries(journal[..i])
      {
        assert journal[..i + 1][..i] == journal[..i];
        if journal[i].command.Place? {
          built := built[journal[i].command.request.clientOrderId :=
                         Placement(journal[i].seqNo, journal[i].command.orderId)];
        }
      }
      assert journal[..|journal|] == journal;
      entries, ready := built, true;
    }

    /** Keeping the index up to date as commands are journaled gives what a rebuild would. */
    method Record(c: SequencedCommand, ghost journal: seq<SequencedCommand>)
      modifies this
      ensures ready == old(ready)
      ensures entries == Indexed(old(entries), c)
      ensures old(entries) == Entries(journal) ==> entries == Entries(journal + [c])
    {
      assert (journal + [c])[..|journal|] == journal;
      if c.command.Place? {
        entries := entries[c.command.request.clientOrderId := Placement(c.seqNo, c.command.orderId)];
      }
    }

    /** "Cannot answer" is never reported as "never seen": that needs a ready index and a journal without
        a placement under the id. */
    method Get(client: string, ghost journal: seq<SequencedCommand>) returns (r: LookupOutcome)
      requires ready ==> entries == Entries(journal)
      ensures r == Rebuilding <==> !ready
      ensures r == NeverSeen <==> ready && LastPlacement(journal, client).None?
      ensures r.SeenAt? ==>
        && LastPlacement(journal, client).Some?
        && (var c := journal[LastPlacement(journal, client).value];
            r.seqNo == c.seqNo && r.orderId == c.command.orderId)
    {
      if !ready { return Rebuilding; }
      EntriesAnswer(journal, client);
      if client in entries { return SeenAt(entries[client].seqNo, entries[client].orderId); }
      return NeverSeen;
    }
  }

  // ------------------------------------------------------------------ a command that was never recorded

  /** The index when only some journaled commands reached it: a failed snapshot write returns before recording. */
  function RecordedEntries(journal: seq<SequencedCommand>, recorded: seq<bool>): map<string, Placement>
    requires |recorded| == |journal|
  {
    if journal == [] then map[]
    else
      var n := |journal| - 1;
      var before := RecordedEntries(journal[..n], recorded[..n]);
      if recorded[n] then Indexed(before, journal[n]) else before
  }

  lemma {:induction false} RecordedCome(journal: seq<SequencedCommand>, recorded: seq<bool>, client: string)
    requires |recorded| == |journal|
    ensures client in RecordedEntries(journal, recorded) ==>
      exists k :: 0 <= k < |journal| && recorded[k] && Places(journal[k], client)
        && RecordedEntries(journal, recorded)[client] == Placement(journal[k].seqNo, journal[k].command.orderId)
  {
    if journal == [] {
    } else {
      var n := |journal| - 1;
      RecordedCome(journal[..n], recorded[..n], client);
      if client in RecordedEntries(journal, recorded) {
        if recorded[n] && Places(journal[n], client) {
          assert recorded[n] && Places(journal[n], client);
        } else {
          var k :| 0 <= k < n && recorded[..n][k] && Places(journal[..n][k], client)
            && RecordedEntries(journal[..n], recorded[..n])[client]
              == Placement(journal[..n][k].seqNo, journal[..n][k].command.orderId);
          assert recorded[k] && Places(journal[k], client);
        }
      }
    }
  }

  lemma {:induction false} RecordedLast(journal: seq<SequencedCommand>, recorded: seq<bool>, client: string)
    requires |recorded| == |journal|
    requires LastPlacement(journal, client).Some? ==> recorded[LastPlacement(journal, client).value]
    ensures match LastPlacement(journal, client)
            case None => client !in RecordedEntries(journal, recorded)
            case Some(k) =>
              && client in RecordedEntries(journal, recorded)
              && RecordedEntries(journal, recorded)[client] == Placement(journal[k].seqNo, journal[k].command.orderId)
  {
    if journal != [] && !Places(journal[|journal| - 1], client) {
      var n := |journal| - 1;
      RecordedLast(journal[..n], recorded[..n], client);
    }
  }

  ghost predicate NewestRecorded(journal: seq<SequencedCommand>, recorded: seq<bool>)
    requires |recorded| == |journal|
  {
    forall client :: LastPlacement(journal, client).Some? ==> recorded[LastPlacement(journal, client).value]
  }

  /** The live index answers as a rebuild would exactly when the newest placement under every client id
      was recorded. */
  lemma {:induction false} LiveIndexExact(journal: seq<SequencedCommand>, recorded: seq<bool>)
    requires |recorded| == |journal| && Increasing(journal)
    ensures RecordedEntries(journal, recorded) == Entries(journal) <==> NewestRecorded(journal, recorded)
  {
    var live, rebuilt := RecordedEntries(journal, recorded), Entries(journal);
    if NewestRecorded(journal, recorded) {
      forall client
        ensures client in rebuilt <==> client in live
        ensures client in rebuilt ==> rebuilt[client] == live[client]
      {
        EntriesAnswer(journal, client);
        RecordedLast(journal, recorded, client);
      }
      assert live == rebuilt;
    }
    if live == rebuilt {
      forall client | LastPlacement(journal, client).Some?
        ensures recorded[LastPlacement(journal, client).value]
      {
        EntriesAnswer(journal, client);
        RecordedCome(journal, recorded, client);
      }
    }
  }
}
