/** Tier authorisation: distinct approvals for every required authority, by greedy matching. */
module Custody {
  import opened MatchingTypes

  datatype Authority = RiskEngine | Operator | Ceremony

  datatype CustodyTier = Deposit | Hot | Warm | Cold

  function RequiredAuthorities(tier: CustodyTier): seq<Authority> {
    match tier
    case Deposit => []
    case Hot => [RiskEngine]
    case Warm => [RiskEngine, Operator]
    case Cold => [Ceremony]
  }

  /** A person may stand in for automation, never the reverse, and a ceremony names no operator. */
  predicate Satisfies(held: Authority, required: Authority) {
    held == required || (required == RiskEngine && (held == Operator || held == Ceremony))
  }

  function One(b: bool): nat { if b then 1 else 0 }

  function SatisfierCount(required: Authority): nat {
    One(Satisfies(RiskEngine, required)) + One(Satisfies(Operator, required)) + One(Satisfies(Ceremony, required))
  }

  // ------------------------------------------------------------------ what the check is for

  ghost predicate Distinct(f: seq<nat>) { forall i, j :: 0 <= i < j < |f| ==> f[i] != f[j] }

  /** Each requirement gets an approval of its own that satisfies it. */
  ghost predicate Assigns(f: seq<nat>, required: seq<Authority>, held: seq<Authority>) {
    && |f| == |required|
    && Distinct(f)
    && (forall i :: 0 <= i < |f| ==> f[i] < |held| && Satisfies(held[f[i]], required[i]))
  }

  ghost predicate Satisfiable(required: seq<Authority>, held: seq<Authority>) {
    exists f :: Assigns(f, required, held)
  }

  // ------------------------------------------------------------------ the two implementations

  predicate ByCount(s: seq<Authority>) {
    forall i, j :: 0 <= i < j < |s| ==> SatisfierCount(s[i]) <= SatisfierCount(s[j])
  }

  /** Stable: an element goes after every element it ties with. */
  function InsertByCount(s: seq<Authority>, r: Authority): seq<Authority> {
    if s == [] || SatisfierCount(s[|s| - 1]) <= SatisfierCount(r) then s + [r]
    else InsertByCount(s[..|s| - 1], r) + [s[|s| - 1]]
  }

  /** The requirements, most constrained first. */
  function Ordered(required: seq<Authority>): seq<Authority> {
    if required == [] then [] else InsertByCount(Ordered(required[..|required| - 1]), required[|required| - 1])
  }

  /** The first approval that satisfies `required`, or the length when none does. */
  method Position(available: seq<Authority>, required: Authority) returns (i: nat)
    ensures i == First(available, required)
  {
    i := 0;
    while i < |available| && !Satisfies(available[i], required)
      invariant i <= |available| && First(available, required) == i + First(available[i..], required)
    {
      i := i + 1;
    }
  }

  function First(available: seq<Authority>, required: Authority): (i: nat)
    ensures i <= |available|
    ensures i < |available| ==> Satisfies(available[i], required)
    ensures forall j :: 0 <= j < i ==> !Satisfies(available[j], required)
  {
    if available == [] || Satisfies(available[0], required) then 0 else 1 + First(available[1..], required)
  }

  function Without(s: seq<Authority>, i: nat): seq<Authority>
    requires i < |s|
  {
    s[..i] + s[i + 1..]
  }

  /** The requirements left unmet when each takes the first approval that will do. */
  function Unmet(ordered: seq<Authority>, available: seq<Authority>): seq<Authority> {
    if ordered == [] then []
    else
      var i := First(available, ordered[0]);
      if i < |available| then Unmet(ordered[1..], Without(available, i))
      else [ordered[0]] + Unmet(ordered[1..], available)
  }

  /** The signing service's check: stops at the first unmet requirement. */
  method CheckAuthorization(required: seq<Authority>, held: seq<Authority>) returns (missing: Option<Authority>)
    ensures missing.None? <==> Satisfiable(required, held)
    ensures missing.Some? ==> Unmet(Ordered(required), held) != [] && missing.value == Unmet(Ordered(required), held)[0]
  {
    GreedyIsExact(required, held);
    var ordered, available := Ordered(required), held;
    for k := 0 to |ordered|
      invariant Unmet(ordered, held) == Unmet(ordered[k..], available)
    {
      var i := Position(available, ordered[k]);
      assert ordered[k..][0] == ordered[k] && ordered[k..][1..] == ordered[k + 1..];
      if i == |available| { return Some(ordered[k]); }
      available := Without(available, i);
    }
    return None;
  }

  /** The domain's check: collects every unmet requirement. */
  method CheckAuthorizationListing(required: seq<Authority>, held: seq<Authority>) returns (missing: seq<Authority>)
    ensures missing == [] <==> Satisfiable(required, held)
    ensures missing == Unmet(Ordered(required), held)
  {
    GreedyIsExact(required, held);
    var ordered, available := Ordered(required), held;
    missing := [];
    for k := 0 to |ordered|
      invariant Unmet(ordered, held) == missing + Unmet(ordered[k..], available)
    {
      var i := Position(available, ordered[k]);
      assert ordered[k..][0] == ordered[k] && ordered[k..][1..] == ordered[k + 1..];
      if i == |available| {
        assert missing + ([ordered[k]] + Unmet(ordered[k + 1..], available))
            == missing + [ordered[k]] + Unmet(ordered[k + 1..], available);
        missing := missing + [ordered[k]];
      } else {
        available := Without(available, i);
      }
    }
    assert missing + [] == missing;
  }

  // ------------------------------------------------------------------ counting

  /** Enough of each kind that only itself can satisfy, and enough approvals in all. */
  predicate Enough(required: seq<Authority>, held: seq<Authority>) {
    && multiset(required)[Operator] <= multiset(held)[Operator]
    && multiset(required)[Ceremony] <= multiset(held)[Ceremony]
    && |required| <= |held|
  }

  lemma WithoutCounts(s: seq<Authority>, i: nat)
    requires i < |s|
    ensures multiset(s) == multiset(Without(s, i)) + multiset{s[i]} && |Without(s, i)| == |s| - 1
  {
    assert s == s[..i] + [s[i]] + s[i + 1..];
  }

  lemma {:induction false} AssignedIsEnough(f: seq<nat>, required: seq<Authority>, held: seq<Authority>)
    requires Assigns(f, required, held)
    ensures Enough(required, held)
    decreases |f|
  {
    if f == [] {
    } else {
      var n := |f| - 1;
      var j, less := f[n], Without(held, f[n]);
      var f' := seq(n, (i: int) requires 0 <= i < n => if f[i] < j then f[i] else f[i] - 1);
      forall i | 0 <= i < n
        ensures f[i] != j && f'[i] < |less| && less[f'[i]] == held[f[i]]
      {
      }
      AssignedIsEnough(f', required[..n], less);
      WithoutCounts(held, j);
      assert required == required[..n] + [required[n]];
    }
  }

  /** An approval to spend on the last requirement that leaves enough for the rest. */
  lemma Spare(required: seq<Authority>, held: seq<Authority>) returns (j: nat)
    requires required != [] && Enough(required, held)
    ensures j < |held| && Satisfies(held[j], required[|required| - 1])
    ensures Enough(required[..|required| - 1], Without(held, j))
  {
    var n := |required| - 1;
    var r := required[n];
    assert required == required[..n] + [r];
    if r != RiskEngine {
      assert multiset(held)[r] > 0;
      j :| 0 <= j < |held| && held[j] == r;
    } else if RiskEngine in held {
      j :| 0 <= j < |held| && held[j] == RiskEngine;
    } else {
      Kinds(required);
      Kinds(held);
      var h := if multiset(held)[Operator] > multiset(required)[Operator] then Operator else Ceremony;
      assert multiset(held)[h] > multiset(required)[h];
      assert h in multiset(held);
      j :| 0 <= j < |held| && held[j] == h;
    }
    WithoutCounts(held, j);
  }

  lemma {:induction false} Kinds(s: seq<Authority>)
    ensures |s| == multiset(s)[RiskEngine] + multiset(s)[Operator] + multiset(s)[Ceremony]
  {
    if s == [] {
    } else {
      var most, last := s[..|s| - 1], s[|s| - 1];
      assert s == most + [last];
      Kinds(most);
      assert multiset(s) == multiset(most) + multiset{last};
      match last case RiskEngine => case Operator => case Ceremony =>
    }
  }

  lemma {:induction false} EnoughIsAssigned(required: seq<Authority>, held: seq<Authority>) returns (f: seq<nat>)
    requires Enough(required, held)
    ensures Assigns(f, required, held)
    decreases |required|
  {
    if required == [] {
      f := [];
    } else {
      var j := Spare(required, held);
      f := EnoughIsAssigned(required[..|required| - 1], Without(held, j));
      f := Lift(f, required, held, j);
    }
  }

  /** Put the spent approval back: positions at or after it shift by one, and it goes to the last requirement. */
  lemma Lift(f: seq<nat>, required: seq<Authority>, held: seq<Authority>, j: nat) returns (g: seq<nat>)
    requires required != [] && j < |held| && Satisfies(held[j], required[|required| - 1])
    requires Assigns(f, required[..|required| - 1], Without(held, j))
    ensures Assigns(g, required, held)
  {
    var less := Without(held, j);
    g := seq(|f|, (i: int) requires 0 <= i < |f| => if f[i] < j then f[i] else f[i] + 1);
    forall i | 0 <= i < |f|
      ensures g[i] < |held| && g[i] != j && held[g[i]] == less[f[i]] && Satisfies(held[g[i]], required[i])
    {
      assert Satisfies(less[f[i]], required[..|required| - 1][i]);
    }
    hide Satisfies;
    g := g + [j];
  }

  lemma {:induction false} SatisfiableIsEnough(required: seq<Authority>, held: seq<Authority>)
    ensures Satisfiable(required, held) <==> Enough(required, held)
  {
    if Satisfiable(required, held) {
      var f :| Assigns(f, required, held);
      AssignedIsEnough(f, required, held);
    }
    if Enough(required, held) {
      var f := EnoughIsAssigned(required, held);
    }
  }

  // ------------------------------------------------------------------ greedy is exact

  lemma {:induction false} InsertIsSorted(s: seq<Authority>, r: Authority)
    requires ByCount(s)
    ensures ByCount(InsertByCount(s, r)) && multiset(InsertByCount(s, r)) == multiset(s) + multiset{r}
    ensures |InsertByCount(s, r)| == |s| + 1
  {
    hide SatisfierCount;
    InsertKeepsAll(s, r);
    if s != [] && SatisfierCount(s[|s| - 1]) > SatisfierCount(r) {
      var most, last := s[..|s| - 1], s[|s| - 1];
      InsertIsSorted(most, r);
      InsertKeepsAll(most, r);
      var inserted := InsertByCount(most, r);
      forall i | 0 <= i < |inserted|
        ensures SatisfierCount(inserted[i]) <= SatisfierCount(last)
      {
        assert inserted[i] in multiset(inserted);
        assert inserted[i] in most || inserted[i] == r;
      }
      hide InsertByCount;
    }
  }

  lemma {:induction false} InsertKeepsAll(s: seq<Authority>, r: Authority)
    ensures multiset(InsertByCount(s, r)) == multiset(s) + multiset{r} && |InsertByCount(s, r)| == |s| + 1
  {
    hide SatisfierCount;
    if s != [] && SatisfierCount(s[|s| - 1]) > SatisfierCount(r) {
      assert s == s[..|s| - 1] + [s[|s| - 1]];
      InsertKeepsAll(s[..|s| - 1], r);
    }
  }

  lemma {:induction false} OrderedIsSorted(required: seq<Authority>)
    ensures ByCount(Ordered(required)) && multiset(Ordered(required)) == multiset(required)
    ensures |Ordered(required)| == |required|
  {
    if required == [] {
    } else {
      var most, last := required[..|required| - 1], required[|required| - 1];
      assert required == most + [last];
      OrderedIsSorted(most);
      InsertIsSorted(Ordered(most), last);
    }
  }

  /** Most constrained first, a requirement may take ANY approval that will do: nothing after it loses. */
  lemma {:induction false} GreedyMeetsEnough(ordered: seq<Authority>, available: seq<Authority>)
    requires ByCount(ordered)
    ensures Unmet(ordered, available) == [] <==> Enough(ordered, available)
    decreases |ordered|
  {
    if ordered == [] {
    } else {
      var i := First(available, ordered[0]);
      if i < |available| {
        GreedyMeetsEnough(ordered[1..], Without(available, i));
        TakingIsFree(ordered, available, i);
      } else {
        NothingWillDo(ordered, available);
      }
    }
  }

  lemma TakingIsFree(ordered: seq<Authority>, available: seq<Authority>, i: nat)
    requires ordered != [] && ByCount(ordered) && i < |available| && Satisfies(available[i], ordered[0])
    ensures Enough(ordered, available) <==> Enough(ordered[1..], Without(available, i))
  {
    var r, rest := ordered[0], ordered[1..];
    assert ordered == [r] + rest;
    WithoutCounts(available, i);
    if r == RiskEngine { NoneConstrained(rest); }
    hide SatisfierCount, ByCount;
    assert multiset(ordered) == multiset{r} + multiset(rest);
  }

  lemma NothingWillDo(ordered: seq<Authority>, available: seq<Authority>)
    requires ordered != [] && (forall j :: 0 <= j < |available| ==> !Satisfies(available[j], ordered[0]))
    ensures !Enough(ordered, available)
  {
    var r := ordered[0];
    assert r in ordered && r !in available;
  }

  lemma {:induction false} NoneConstrained(rest: seq<Authority>)
    requires forall i :: 0 <= i < |rest| ==> SatisfierCount(rest[i]) >= SatisfierCount(RiskEngine)
    ensures multiset(rest)[Operator] == 0 && multiset(rest)[Ceremony] == 0
  {
    assert Operator !in rest && Ceremony !in rest;
  }

  lemma {:induction false} GreedyIsExact(required: seq<Authority>, held: seq<Authority>)
    ensures Unmet(Ordered(required), held) == [] <==> Satisfiable(required, held)
  {
    OrderedIsSorted(required);
    GreedyMeetsEnough(Ordered(required), held);
    SatisfiableIsEnough(required, held);
  }

  /** Extra approvals, in any order, never cause a refusal. */
  lemma {:induction false} ExtraApprovalsNeverRefuse(required: seq<Authority>, held: seq<Authority>,
                                                     more: seq<Authority>)
    requires Satisfiable(required, held) && multiset(held) <= multiset(more)
    ensures Satisfiable(required, more)
  {
    SatisfiableIsEnough(required, held);
    SatisfiableIsEnough(required, more);
    Kinds(held);
    Kinds(more);
  }

  /** Warm means two approvals, one of them a named operator: no single approval will ever do. */
  lemma {:induction false} WarmNeedsTwo(held: seq<Authority>)
    ensures Satisfiable(RequiredAuthorities(Warm), held) <==> Operator in held && |held| >= 2
    ensures Satisfiable(RequiredAuthorities(Cold), held) <==> Ceremony in held
    ensures Satisfiable(RequiredAuthorities(Hot), held) <==> held != []
    ensures Satisfiable(RequiredAuthorities(Deposit), held)
  {
    SatisfiableIsEnough(RequiredAuthorities(Warm), held);
    SatisfiableIsEnough(RequiredAuthorities(Cold), held);
    SatisfiableIsEnough(RequiredAuthorities(Hot), held);
    SatisfiableIsEnough(RequiredAuthorities(Deposit), held);
  }
}
