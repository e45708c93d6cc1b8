/** The event contract: what consumers may rely on about any command's events. */
module EventContract {
  import opened MatchingTypes
  import opened ReferenceMatcher
  import opened MatchingTheorems
  import opened MatchingRuns

  /** Every event carries the command's sequence, and a fill's id is the sequence and the number of
      fills before it. */
  ghost predicate WellKeyed(seqNo: nat, events: seq<Event>) {
    forall i :: 0 <= i < |events| ==>
      && events[i].Seq() == seqNo
      && (events[i].Filled? ==> events[i].fill.fillId == FillId(seqNo, FillCount(events[..i])))
  }

  lemma KeyedPush(seqNo: nat, events: seq<Event>, e: Event)
    requires WellKeyed(seqNo, events) && e.Seq() == seqNo
    requires e.Filled? ==> e.fill.fillId == FillId(seqNo, FillCount(events))
    ensures WellKeyed(seqNo, events + [e])
  {
    forall i | 0 <= i < |events + [e]|
      ensures (events + [e])[i].Seq() == seqNo
      ensures (events + [e])[i].Filled? ==>
        (events + [e])[i].fill.fillId == FillId(seqNo, FillCount((events + [e])[..i]))
    {
      assert (events + [e])[..i] == events[..i];
      assert events[..|events|] == events;
    }
  }

  lemma {:induction false} FillCountCons(e: Event, events: seq<Event>)
    requires !e.Filled?
    ensures FillCount([e] + events) == FillCount(events)
  {
    if events == [] {
      assert [e] + events == [e] && [e][..0] == [];
    } else {
      FillCountCons(e, events[..|events| - 1]);
      assert ([e] + events)[..|events|] == [e] + events[..|events| - 1];
    }
  }

  lemma KeyedCons(seqNo: nat, e: Event, events: seq<Event>)
    requires WellKeyed(seqNo, events) && e.Seq() == seqNo && !e.Filled?
    ensures WellKeyed(seqNo, [e] + events)
  {
    var s := [e] + events;
    forall i | 0 <= i < |s|
      ensures s[i].Seq() == seqNo
      ensures s[i].Filled? ==> s[i].fill.fillId == FillId(seqNo, FillCount(s[..i]))
    {
      if i > 0 {
        assert s[..i] == [e] + events[..i - 1];
        FillCountCons(e, events[..i - 1]);
      }
    }
  }

  lemma {:induction false} MatchKeyed(t: Taker, m: Matching)
    requires WellKeyed(t.seqNo, m.events)
    ensures WellKeyed(t.seqNo, Match(t, m).events)
    decreases !m.stopped, |Makers(t, m)|, m.remaining
  {
    if Done(t, m) {
    } else {
      var m' := Step(t, m);
      if m'.events != m.events { KeyedPush(t.seqNo, m.events, m'.events[|m.events|]); }
      MatchKeyed(t, m');
    }
  }

  lemma PlaceKeyed(e: EngineState, seqNo: nat, ts: int, id: OrderId, request: OrderRequest)
    ensures WellKeyed(seqNo, PlaceOrder(e, seqNo, ts, id, request).events)
  {
    var t := TakerOf(e, seqNo, ts, id, request);
    var m0 := Matching(e.book, request.qty, [], false);
    PlaceShape(e, seqNo, ts, id, request);
    MatchKeyed(t, m0);
    hide Match, WellKeyed, Validate, Fillable, FillCount;
    var last := Last(PlaceOrder(e, seqNo, ts, id, request).events);
    assert last.Seq() == seqNo;
    KeyedPush(seqNo, Match(t, m0).events, last);
    Single(seqNo, last);
  }

  lemma Single(seqNo: nat, e: Event)
    requires !e.Filled? && e.Seq() == seqNo
    ensures WellKeyed(seqNo, [e])
  {
  }

  /** No command is silent: every command emits at least one event, every event carries its sequence,
      the last is never a fill, and fill ids within a command are all different. */
  lemma {:induction false} CommandSpeaks(e: EngineState, c: SequencedCommand)
    ensures var events := Apply(e, c).events;
      && events != [] && !Last(events).Filled? && WellKeyed(c.seqNo, events)
      && forall i, j :: 0 <= i < j < |events| && events[i].Filled? && events[j].Filled?
           ==> events[i].fill.fillId != events[j].fill.fillId
  {
    var e0 := e.(lastSeq := c.seqNo);
    var events := Apply(e, c).events;
    assert events != [] && !Last(events).Filled? && WellKeyed(c.seqNo, events) by {
      hide PlaceOrder, Find, WellKeyed;
      match c.command {
        case Place(id, request) =>
          PlaceShape(e0, c.seqNo, c.timestampMs, id, request);
          PlaceKeyed(e0, c.seqNo, c.timestampMs, id, request);
        case Cancel(_) => Single(c.seqNo, events[0]);
        case Amend(id, newId, price, qty) =>
          if Lookup(e.book, id).Some? {
            var o := Lookup(e.book, id).value;
            var e1 := e0.(book := e.book.Remove(o));
            var r := Replacement(o, newId, price, qty);
            PlaceShape(e1, c.seqNo, c.timestampMs, newId, r);
            PlaceKeyed(e1, c.seqNo, c.timestampMs, newId, r);
            KeyedCons(c.seqNo, Cancelled(c.seqNo, id, o.remaining),
                      PlaceOrder(e1, c.seqNo, c.timestampMs, newId, r).events);
          } else {
            Single(c.seqNo, events[0]);
          }
        case SetStatus(_) => Single(c.seqNo, events[0]);
      }
    }
    forall i, j | 0 <= i < j < |events| && events[i].Filled? && events[j].Filled?
      ensures events[i].fill.fillId != events[j].fill.fillId
    {
      FillCountGrows(events, i, j);
    }
  }

  lemma {:induction false} FillCountGrows(events: seq<Event>, i: nat, j: nat)
    requires i < j <= |events| && events[i].Filled?
    ensures FillCount(events[..i]) < FillCount(events[..j])
    decreases j
  {
    assert events[..j][..j - 1] == events[..j - 1];
    if i >= j - 1 {
    } else {
      FillCountGrows(events, i, j - 1);
    }
  }
}
