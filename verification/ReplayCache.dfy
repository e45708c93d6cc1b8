/** The caller gate: a clock check, then a bounded cache of request ids already seen. */
module ReplayCache {

  datatype Seen = Seen(timestamp: int, id: string)

  datatype Verdict = Accepted | TimestampOutsideWindow | SignatureRejected | Replayed | ReplayCacheExhausted

  // ------------------------------------------------------------------ the cache as a value

  predicate Holds(order: seq<Seen>, id: string) { exists i :: 0 <= i < |order| && order[i].id == id }

  /** Expired entries leave from the front only: one still in its window shields those behind it. */
  function Evict(order: seq<Seen>, now: int, ttl: int): seq<Seen> {
    if order == [] || now - order[0].timestamp <= ttl then order else Evict(order[1..], now, ttl)
  }

  function Verdicts(order: seq<Seen>, id: string, capacity: nat): Verdict {
    if Holds(order, id) then Replayed else if |order| >= capacity then ReplayCacheExhausted else Accepted
  }

  function Observed(order: seq<Seen>, id: string, timestamp: int, now: int, ttl: int, capacity: nat): seq<Seen> {
    var kept := Evict(order, now, ttl);
    if Verdicts(kept, id, capacity) == Accepted then kept + [Seen(timestamp, id)] else kept
  }

  predicate DistinctIds(order: seq<Seen>) { forall i, j :: 0 <= i < j < |order| ==> order[i].id != order[j].id }

  function Ids(order: seq<Seen>): set<string> { set i | 0 <= i < |order| :: order[i].id }

  /** What eviction drops is the expired front and no more: the first entry it keeps is still in its window. */
  lemma {:induction false} EvictExactly(order: seq<Seen>, now: int, ttl: int) returns (k: nat)
    ensures k <= |order| && Evict(order, now, ttl) == order[k..]
    ensures forall i :: 0 <= i < k ==> now - order[i].timestamp > ttl
    ensures k < |order| ==> now - order[k].timestamp <= ttl
  {
    k := 0;
    if order != [] && now - order[0].timestamp > ttl {
      var k' := EvictExactly(order[1..], now, ttl);
      k := k' + 1;
      assert order[1..][k'..] == order[k..];
    } else {
      assert order[0..] == order;
    }
  }

  lemma EvictKeeps(order: seq<Seen>, now: int, ttl: int)
    ensures |Evict(order, now, ttl)| <= |order|
    ensures Evict(order, now, ttl) == order[|order| - |Evict(order, now, ttl)|..]
    ensures forall e :: e in order && now - e.timestamp <= ttl ==> e in Evict(order, now, ttl)
    ensures forall e :: e in Evict(order, now, ttl) ==> e in order
  {
    hide Evict;
    var k := EvictExactly(order, now, ttl);
    assert order == order[..k] + order[k..];
  }

  // ------------------------------------------------------------------ the cache as it is kept

  class Cache {
    var seen: set<string>
    var order: seq<Seen>
    const ttl: int
    const capacity: nat

    /** The set and the queue hold the same ids, once each, and never more than the capacity. */
    ghost predicate Valid()
      reads this
    {
      seen == Ids(order) && DistinctIds(order) && |order| <= capacity && |seen| == |order|
    }

    constructor (ttl: int, capacity: nat)
      ensures Valid() && order == [] && this.ttl == ttl && this.capacity == capacity
    {
      seen, order := {}, [];
      this.ttl, this.capacity := ttl, capacity;
    }

    method EvictExpired(now: int)
      requires Valid()
      modifies this
      ensures Valid() && order == Evict(old(order), now, ttl)
    {
      while order != [] && now - order[0].timestamp > ttl
        invariant Valid() && Evict(order, now, ttl) == Evict(old(order), now, ttl)
        decreases |order|
      {
        PopKeepsIds(order);
        seen := seen - {order[0].id};
        order := order[1..];
      }
    }

    /** Record an id, or refuse it: as a replay, or because remembering it would exceed the capacity. */
    method Observe(id: string, timestamp: int, now: int) returns (v: Verdict)
      requires Valid()
      modifies this
      ensures Valid() && v == Verdicts(Evict(old(order), now, ttl), id, capacity)
      ensures order == Observed(old(order), id, timestamp, now, ttl, capacity)
    {
      EvictExpired(now);
      if id in seen { return Replayed; }
      if |seen| >= capacity { return ReplayCacheExhausted; }
      PushKeepsIds(order, Seen(timestamp, id));
      seen := seen + {id};
      order := order + [Seen(timestamp, id)];
      return Accepted;
    }
  }

  lemma PopKeepsIds(order: seq<Seen>)
    requires order != [] && DistinctIds(order)
    ensures Ids(order[1..]) == Ids(order) - {order[0].id} && order[0].id in Ids(order)
  {
    forall id | id in Ids(order) - {order[0].id}
      ensures id in Ids(order[1..])
    {
      var i :| 0 <= i < |order| && order[i].id == id;
      assert order[1..][i - 1].id == id;
    }
  }

  lemma PushKeepsIds(order: seq<Seen>, e: Seen)
    ensures Ids(order + [e]) == Ids(order) + {e.id}
  {
    var more := order + [e];
    forall id | id in Ids(order) + {e.id}
      ensures id in Ids(more)
    {
      if id in Ids(order) {
        var i :| 0 <= i < |order| && order[i].id == id;
        assert more[i].id == id;
      } else {
        assert more[|order|].id == id;
      }
    }
  }

  // ------------------------------------------------------------------ runs

  /** A request and the one reading of the clock that both checks use. */
  datatype Request = Request(id: string, timestamp: int, signed: bool, now: int)

  datatype Gate = Gate(tolerance: int, ttl: int, capacity: nat)

  function Abs(x: int): int { if x < 0 then -x else x }

  function Check(gate: Gate, order: seq<Seen>, r: Request): Verdict {
    if Abs(r.now - r.timestamp) > gate.tolerance then TimestampOutsideWindow
    else if !r.signed then SignatureRejected
    else Verdicts(Evict(order, r.now, gate.ttl), r.id, gate.capacity)
  }

  /** Only a request that is in its window and signed reaches the cache. */
  function After(gate: Gate, order: seq<Seen>, r: Request): seq<Seen> {
    if Abs(r.now - r.timestamp) > gate.tolerance || !r.signed then order
    else Observed(order, r.id, r.timestamp, r.now, gate.ttl, gate.capacity)
  }

  function Remembered(gate: Gate, run: seq<Request>): seq<Seen> {
    if run == [] then [] else After(gate, Remembered(gate, run[..|run| - 1]), run[|run| - 1])
  }

  /** Whether the k-th request of a run was let in. */
  predicate LetIn(gate: Gate, run: seq<Request>, k: nat)
    requires k < |run|
  {
    Check(gate, Remembered(gate, run[..k]), run[k]) == Accepted
  }

  predicate ClockMovesForward(run: seq<Request>) { forall i, j :: 0 <= i < j < |run| ==> run[i].now <= run[j].now }

  /** A request is outside the window if and only if its stamp is further from the clock than the tolerance, early
      or late; only one inside is refused for its signature; and neither kind is ever remembered. */
  lemma {:induction false} ClockWindowExactly(gate: Gate, order: seq<Seen>, r: Request)
    ensures var outside := r.timestamp < r.now - gate.tolerance || r.timestamp > r.now + gate.tolerance;
      && (Check(gate, order, r) == TimestampOutsideWindow <==> outside)
      && (Check(gate, order, r) == SignatureRejected <==> !outside && !r.signed)
      && (outside || !r.signed ==> After(gate, order, r) == order)
  {
    hide Evict, Holds;
  }

  /** The request that put an entry into the cache. */
  predicate PutIn(gate: Gate, run: seq<Request>, i: nat, e: Seen) {
    i < |run| && LetIn(gate, run, i) && run[i].id == e.id && run[i].timestamp == e.timestamp
  }

  lemma {:induction false} RememberedWereLetIn(gate: Gate, run: seq<Request>, e: Seen) returns (i: nat)
    requires e in Remembered(gate, run)
    ensures PutIn(gate, run, i, e)
  {
    var n := |run| - 1;
    var before := Remembered(gate, run[..n]);
    EvictKeeps(before, run[n].now, gate.ttl);
    hide Evict, Holds;
    if e in before {
      i := RememberedWereLetIn(gate, run[..n], e);
      assert run[..n][..i] == run[..i];
    } else {
      i := n;
    }
  }

  /** Nobody is refused for another's request: a replay verdict means a request with the same id was let in before,
      and an exhausted one that the cache is full of requests let in before. */
  lemma {:induction false} RefusedForCause(gate: Gate, run: seq<Request>, k: nat)
    requires k < |run|
    ensures var verdict := Check(gate, Remembered(gate, run[..k]), run[k]);
      && (verdict == Replayed ==> exists i :: 0 <= i < k && LetIn(gate, run, i) && run[i].id == run[k].id)
      && (verdict == ReplayCacheExhausted ==>
            && |Remembered(gate, run[..k])| == gate.capacity
            && forall e :: e in Remembered(gate, run[..k]) ==> exists i :: 0 <= i < k && PutIn(gate, run, i, e))
  {
    hide Evict, Remembered, Holds, DistinctIds, PutIn;
    EvictKeeps(Remembered(gate, run[..k]), run[k].now, gate.ttl);
    Bounded(gate, run[..k]);
    AllLetIn(gate, run, k);
    if Check(gate, Remembered(gate, run[..k]), run[k]) == Replayed { ReplayedWasLetIn(gate, run, k); }
  }

  lemma AllLetIn(gate: Gate, run: seq<Request>, k: nat)
    requires k < |run|
    ensures forall e :: e in Remembered(gate, run[..k]) ==> exists i :: 0 <= i < k && PutIn(gate, run, i, e)
  {
    hide Remembered, Check;
    forall e | e in Remembered(gate, run[..k]) ensures exists i :: 0 <= i < k && PutIn(gate, run, i, e) {
      var i := RememberedWereLetIn(gate, run[..k], e);
      assert run[..k][..i] == run[..i];
      assert PutIn(gate, run, i, e);
    }
  }

  lemma ReplayedWasLetIn(gate: Gate, run: seq<Request>, k: nat)
    requires k < |run| && Check(gate, Remembered(gate, run[..k]), run[k]) == Replayed
    ensures exists i :: 0 <= i < k && LetIn(gate, run, i) && run[i].id == run[k].id
  {
    hide Evict, Remembered, Holds;
    var before := Remembered(gate, run[..k]);
    EvictKeeps(before, run[k].now, gate.ttl);
    var e := HeldEntry(Evict(before, run[k].now, gate.ttl), run[k].id);
    hide Check;
    var i := RememberedWereLetIn(gate, run[..k], e);
    assert run[..k][..i] == run[..i];
    assert LetIn(gate, run, i) && run[i].id == run[k].id;
  }

  lemma HeldEntry(order: seq<Seen>, id: string) returns (e: Seen)
    requires Holds(order, id)
    ensures e in order && e.id == id
  {
    var i :| 0 <= i < |order| && order[i].id == id;
    e := order[i];
  }

  /** While a request let in earlier could still pass the clock check, it is still remembered. */
  lemma {:induction false} StillRemembered(gate: Gate, run: seq<Request>, i: nat, now: int)
    requires ClockMovesForward(run) && i < |run| && LetIn(gate, run, i)
    requires forall j :: 0 <= j < |run| ==> run[j].now <= now
    requires now - run[i].timestamp <= gate.ttl
    ensures Seen(run[i].timestamp, run[i].id) in Remembered(gate, run)
    decreases |run|
  {
    var n := |run| - 1;
    var r, before := run[n], Remembered(gate, run[..n]);
    EvictKeeps(before, r.now, gate.ttl);
    if i >= n {
    } else {
      assert run[..n][..i] == run[..i] && LetIn(gate, run[..n], i);
      StillRemembered(gate, run[..n], i, now);
    }
  }

  /** No request is let in twice, whatever order timestamps arrive in. */
  lemma {:induction false} NoReplay(gate: Gate, run: seq<Request>, i: nat, j: nat)
    requires gate.ttl >= gate.tolerance && ClockMovesForward(run)
    requires i < j < |run| && LetIn(gate, run, i) && LetIn(gate, run, j)
    ensures (run[i].id, run[i].timestamp) != (run[j].id, run[j].timestamp)
  {
    hide Remembered, Evict, Observed;
    if run[i].timestamp == run[j].timestamp {
      var e, before := Seen(run[i].timestamp, run[i].id), Remembered(gate, run[..j]);
      assert run[..j][..i] == run[..i];
      StillRemembered(gate, run[..j], i, run[j].now);
      EvictKeeps(before, run[j].now, gate.ttl);
      assert Holds(Evict(before, run[j].now, gate.ttl), e.id);
    }
  }

  ghost predicate Safe(gate: Gate) {
    forall run: seq<Request>, i: nat, j: nat ::
      ClockMovesForward(run) && i < j < |run| && LetIn(gate, run, i) && LetIn(gate, run, j)
      ==> (run[i].id, run[i].timestamp) != (run[j].id, run[j].timestamp)
  }

  /** The cache must remember for at least as long as the clock check admits: no less will do. */
  lemma {:induction false} SafeExactly(gate: Gate)
    requires gate.capacity > 0 && gate.tolerance >= 0
    ensures Safe(gate) <==> gate.ttl >= gate.tolerance
  {
    if gate.ttl >= gate.tolerance {
      forall run: seq<Request>, i: nat, j: nat
        | ClockMovesForward(run) && i < j < |run| && LetIn(gate, run, i) && LetIn(gate, run, j)
        ensures (run[i].id, run[i].timestamp) != (run[j].id, run[j].timestamp)
      {
        NoReplay(gate, run, i, j);
      }
    } else {
      var later := if gate.ttl < 0 then 0 else gate.ttl + 1;
      var run := [Request("r", 0, true, 0), Request("r", 0, true, later)];
      assert run[..0] == [] && run[..1][..0] == [] && run[..1][0] == run[0];
      assert Remembered(gate, run[..0]) == [] && Remembered(gate, run[..1]) == [Seen(0, "r")];
      assert Evict([Seen(0, "r")], later, gate.ttl) == [] by { assert [Seen(0, "r")][1..] == []; }
      assert LetIn(gate, run, 0) && LetIn(gate, run, 1);
      assert ClockMovesForward(run);
    }
  }

  /** The cache is bounded by its capacity over every run. */
  lemma {:induction false} Bounded(gate: Gate, run: seq<Request>)
    ensures |Remembered(gate, run)| <= gate.capacity && DistinctIds(Remembered(gate, run))
  {
    if run == [] {
    } else {
      var before, r := Remembered(gate, run[..|run| - 1]), run[|run| - 1];
      Bounded(gate, run[..|run| - 1]);
      ObservedIsBounded(before, r.id, r.timestamp, r.now, gate.ttl, gate.capacity);
      hide Observed, DistinctIds;
    }
  }

  lemma ObservedIsBounded(order: seq<Seen>, id: string, timestamp: int, now: int, ttl: int, capacity: nat)
    requires |order| <= capacity && DistinctIds(order)
    ensures var after := Observed(order, id, timestamp, now, ttl, capacity); |after| <= capacity && DistinctIds(after)
  {
    EvictKeeps(order, now, ttl);
    hide Evict;
    var kept := Evict(order, now, ttl);
    assert DistinctIds(kept);
    if !Holds(kept, id) { assert forall i :: 0 <= i < |kept| ==> kept[i].id != id; }
  }
}
