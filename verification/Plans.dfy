/** The selected provider and its whole fallback chain, planned by repeated selection. */
module Plans {
  import opened ShareTracker
  import opened Select
  import opened Ranking

  function Without(candidates: seq<Candidate>, id: string): seq<Candidate> {
    Filter(candidates, (c: Candidate) => c.id != id)
  }

  lemma {:induction false} FilterShrinks(candidates: seq<Candidate>, keep: Candidate -> bool, dropped: Candidate)
    requires dropped in candidates && !keep(dropped)
    ensures |Filter(candidates, keep)| < |candidates|
  {
    if candidates[0] != dropped {
      assert candidates == [candidates[0]] + candidates[1..];
      FilterShrinks(candidates[1..], keep, dropped);
    }
  }

  /** Selection after selection, each from the candidates not planned yet; `draws` feeds them from `i` on. */
  function Plan(candidates: seq<Candidate>, preference: Preference, policy: Policy, window: Window,
                draws: nat -> Draw, i: nat): (plan: seq<Candidate>)
    ensures forall c <- plan :: c in candidates
    decreases |candidates|
  {
    match SelectRoute(candidates, preference, policy, window, draws(i))
    case None => []
    case Some(c) =>
      FilterShrinks(candidates, (other: Candidate) => other.id != c.id, c);
      [c] + Plan(Without(candidates, c.id), preference, policy, window, draws, i + 1)
  }

  /** A plan starts with the selected candidate and goes on without it. */
  lemma PlanStep(plan: seq<Candidate>, remaining: seq<Candidate>, preference: Preference, policy: Policy,
                 window: Window, draws: nat -> Draw, i: nat)
    ensures match SelectRoute(remaining, preference, policy, window, draws(i))
            case None => plan + Plan(remaining, preference, policy, window, draws, i) == plan
            case Some(c) =>
              && |Without(remaining, c.id)| < |remaining|
              && plan + Plan(remaining, preference, policy, window, draws, i)
                 == (plan + [c]) + Plan(Without(remaining, c.id), preference, policy, window, draws, i + 1)
  {
    hide SelectRoute, Filter;
    match SelectRoute(remaining, preference, policy, window, draws(i))
    case None =>
    case Some(c) =>
      FilterShrinks(remaining, (other: Candidate) => other.id != c.id, c);
      var tail := Plan(Without(remaining, c.id), preference, policy, window, draws, i + 1);
      assert plan + ([c] + tail) == (plan + [c]) + tail;
  }

  /** The planning loop: pushes the selected candidate and drops it from the remaining ones until none is left. */
  method PlanFallbacks(candidates: seq<Candidate>, preference: Preference, policy: Policy, window: Window,
                       draws: nat -> Draw) returns (plan: seq<Candidate>)
    ensures plan == Plan(candidates, preference, policy, window, draws, 0)
  {
    hide SelectRoute, Plan, Without;
    plan := [];
    var remaining, i := candidates, 0;
    var next := SelectRoute(remaining, preference, policy, window, draws(0));
    while next.Some?
      invariant next == SelectRoute(remaining, preference, policy, window, draws(i))
      invariant Plan(candidates, preference, policy, window, draws, 0)
             == plan + Plan(remaining, preference, policy, window, draws, i)
      decreases |remaining|
    {
      var c := next.value;
      PlanStep(plan, remaining, preference, policy, window, draws, i);
      plan := plan + [c];
      remaining := Without(remaining, c.id);
      i := i + 1;
      next := SelectRoute(remaining, preference, policy, window, draws(i));
    }
    PlanStep(plan, remaining, preference, policy, window, draws, i);
  }

  // ----------------------------------------------------------------- theorems

  function Qualified(candidates: seq<Candidate>, preference: Preference, policy: Policy, window: Window)
    : seq<Candidate>
  {
    Filter(candidates, (c: Candidate) => Qualifies(c, preference, policy, window))
  }

  lemma {:induction false} FilterCounts(candidates: seq<Candidate>, keep: Candidate -> bool, c: Candidate)
    ensures multiset(Filter(candidates, keep))[c] == if keep(c) then multiset(candidates)[c] else 0
  {
    if candidates != [] {
      var first, rest := candidates[0], candidates[1..];
      FilterCounts(rest, keep, c);
      assert candidates == [first] + rest;
      assert Filter(candidates, keep) == (if keep(first) then [first] else []) + Filter(rest, keep);
    }
  }

  lemma DistinctCountsOne(candidates: seq<Candidate>, c: Candidate)
    requires DistinctIds(candidates) && c in candidates
    ensures multiset(candidates)[c] == 1
    ensures forall other <- candidates :: other.id == c.id ==> other == c
  {
    var k :| 0 <= k < |candidates| && candidates[k] == c;
    var before, after := candidates[..k], candidates[k + 1..];
    assert candidates == before + [c] + after;
    assert c !in before && c !in after;
  }

  lemma CountsWithout(candidates: seq<Candidate>, keep: Candidate -> bool, c: Candidate, other: Candidate)
    requires DistinctIds(candidates) && c in candidates && keep(c)
    ensures multiset(Filter(candidates, keep))[other]
         == multiset{c}[other] + multiset(Filter(Without(candidates, c.id), keep))[other]
  {
    hide Filter, DistinctIds;
    DistinctCountsOne(candidates, c);
    FilterCounts(candidates, keep, other);
    FilterCounts(Without(candidates, c.id), keep, other);
    FilterCounts(candidates, (d: Candidate) => d.id != c.id, other);
    if other != c && other.id == c.id {
      assert other !in candidates;
      assert multiset(candidates)[other] == 0;
    }
  }

  /** Taking the leader out of the qualified ones leaves the qualified among the rest. */
  lemma QualifiedWithout(candidates: seq<Candidate>, keep: Candidate -> bool, c: Candidate)
    requires DistinctIds(candidates) && c in candidates && keep(c)
    ensures multiset(Filter(candidates, keep)) == multiset{c} + multiset(Filter(Without(candidates, c.id), keep))
  {
    forall other: Candidate
      ensures multiset(Filter(candidates, keep))[other]
           == (multiset{c} + multiset(Filter(Without(candidates, c.id), keep)))[other]
    {
      CountsWithout(candidates, keep, c, other);
    }
  }

  lemma FilterKeepsValid(candidates: seq<Candidate>, keep: Candidate -> bool)
    requires AllValid(candidates)
    ensures AllValid(Filter(candidates, keep))
  {
    forall i | 0 <= i < |Filter(candidates, keep)| ensures ValidCandidate(Filter(candidates, keep)[i]) {
      assert Filter(candidates, keep)[i] in candidates;
    }
  }

  /** Whoever is planned earlier may precede whoever is planned later. */
  ghost predicate IsOrdered(plan: seq<Candidate>, preference: Preference) {
    forall i, j :: 0 <= i < j < |plan| ==> MayPrecede(preference, plan[i], plan[j])
  }

  lemma OrderedCons(c: Candidate, tail: seq<Candidate>, preference: Preference)
    requires IsOrdered(tail, preference) && DistinctIds(tail)
    requires forall j :: 0 <= j < |tail| ==> tail[j].id != c.id && MayPrecede(preference, c, tail[j])
    ensures IsOrdered([c] + tail, preference) && DistinctIds([c] + tail)
  {
    hide MayPrecede;
    var plan := [c] + tail;
    forall i, j | 0 <= i < j < |plan| ensures MayPrecede(preference, plan[i], plan[j]) && plan[i].id != plan[j].id {
      assert plan[j] == tail[j - 1];
      if i > 0 { assert plan[i] == tail[i - 1]; }
    }
  }

  lemma PlanCons(candidates: seq<Candidate>, keep: Candidate -> bool, c: Candidate, tail: seq<Candidate>,
                 preference: Preference)
    requires DistinctIds(candidates) && c in candidates && keep(c)
    requires forall d <- candidates :: keep(d) && d.id != c.id ==> MayPrecede(preference, c, d)
    requires multiset(tail) == multiset(Filter(Without(candidates, c.id), keep))
    requires IsOrdered(tail, preference) && DistinctIds(tail)
    ensures multiset([c] + tail) == multiset(Filter(candidates, keep))
    ensures IsOrdered([c] + tail, preference) && DistinctIds([c] + tail)
  {
    hide MayPrecede;
    QualifiedWithout(candidates, keep, c);
    forall j | 0 <= j < |tail| ensures tail[j].id != c.id && MayPrecede(preference, c, tail[j]) {
      assert tail[j] in multiset(tail);
      assert tail[j] in Filter(Without(candidates, c.id), keep);
    }
    OrderedCons(c, tail, preference);
  }

  lemma {:induction false} NoneKept(candidates: seq<Candidate>, keep: Candidate -> bool)
    requires forall c <- candidates :: !keep(c)
    ensures Filter(candidates, keep) == []
  {
    if candidates != [] {
      assert candidates == [candidates[0]] + candidates[1..];
      NoneKept(candidates[1..], keep);
    }
  }

  lemma {:induction false} AllKept(candidates: seq<Candidate>, keep: Candidate -> bool)
    requires forall c <- candidates :: keep(c)
    ensures Filter(candidates, keep) == candidates
  {
    if candidates != [] {
      assert candidates == [candidates[0]] + candidates[1..];
      AllKept(candidates[1..], keep);
    }
  }

  lemma RestIsProper(candidates: seq<Candidate>, c: Candidate)
    requires DistinctIds(candidates) && AllValid(candidates) && c in candidates
    ensures DistinctIds(Without(candidates, c.id)) && AllValid(Without(candidates, c.id))
    ensures |Without(candidates, c.id)| < |candidates|
  {
    var keep := (other: Candidate) => other.id != c.id;
    FilterShrinks(candidates, keep, c);
    FilterKeepsDistinct(candidates, keep);
    FilterKeepsValid(candidates, keep);
  }

  /**
   * For every preference, draw, hysteresis and window: the plan is a permutation of exactly the candidates that
   * qualify, ordered as the preference demands. Strict plans are therefore sorts; default plans put every
   * measured provider before every unmeasured one and the unmeasured in priority order.
   */
  lemma {:induction false} PlanIsOrderedPermutation(
    candidates: seq<Candidate>, preference: Preference, policy: Policy, window: Window, draws: nat -> Draw, i: nat)
    requires DistinctIds(candidates) && AllValid(candidates)
    ensures var plan := Plan(candidates, preference, policy, window, draws, i);
            && multiset(plan) == multiset(Qualified(candidates, preference, policy, window))
            && IsOrdered(plan, preference)
            && DistinctIds(plan)
    decreases |candidates|
  {
    hide SelectRoute, MayPrecede, Qualifies;
    var keep := (c: Candidate) => Qualifies(c, preference, policy, window);
    var picked := SelectRoute(candidates, preference, policy, window, draws(i));
    SelectionLeads(candidates, preference, policy, window, draws(i));
    if picked.None? {
      NoneKept(candidates, keep);
    } else {
      var c := picked.value;
      RestIsProper(candidates, c);
      PlanIsOrderedPermutation(Without(candidates, c.id), preference, policy, window, draws, i + 1);
      var tail := Plan(Without(candidates, c.id), preference, policy, window, draws, i + 1);
      PlanCons(candidates, keep, c, tail, preference);
    }
  }

  lemma SameHead(a: seq<Candidate>, b: seq<Candidate>, preference: Preference)
    requires IsStrict(preference) && a != [] && b != [] && a[0] in b && b[0] in a
    requires IsOrdered(a, preference) && IsOrdered(b, preference) && DistinctIds(a)
    ensures a[0] == b[0]
  {
    hide MayPrecede;
    var i :| 0 <= i < |b| && b[i] == a[0];
    var j :| 0 <= j < |a| && a[j] == b[0];
    if i > 0 && j > 0 {
      assert MayPrecede(preference, b[0], b[i]) && MayPrecede(preference, a[0], a[j]);
      StrictIsTotal(preference, a[0], b[0]);
    }
  }

  /** A strict order leaves only one way to arrange the same candidates. */
  lemma {:induction false} StrictOrderIsUnique(a: seq<Candidate>, b: seq<Candidate>, preference: Preference)
    requires IsStrict(preference) && multiset(a) == multiset(b)
    requires IsOrdered(a, preference) && IsOrdered(b, preference) && DistinctIds(a)
    ensures a == b
  {
    hide MayPrecede;
    assert |a| == |multiset(a)| == |multiset(b)| == |b|;
    if a != [] {
      assert a[0] in multiset(b) && b[0] in multiset(a);
      SameHead(a, b, preference);
      TailOf(a, preference);
      TailOf(b, preference);
      StrictOrderIsUnique(a[1..], b[1..], preference);
      assert a == [a[0]] + a[1..] && b == [b[0]] + b[1..];
    }
  }

  lemma TailOf(plan: seq<Candidate>, preference: Preference)
    requires plan != [] && IsOrdered(plan, preference)
    ensures IsOrdered(plan[1..], preference)
    ensures multiset(plan[1..]) == multiset(plan) - multiset{plan[0]}
  {
    hide MayPrecede;
    assert plan == [plan[0]] + plan[1..];
  }

  /** A strict plan depends on which healthy candidates there are alone: not on their order, the draws or the window. */
  lemma StrictPlanIsCanonical(
    a: seq<Candidate>, b: seq<Candidate>, preference: Preference, policyA: Policy, policyB: Policy,
    windowA: Window, windowB: Window, drawsA: nat -> Draw, drawsB: nat -> Draw)
    requires IsStrict(preference) && multiset(a) == multiset(b)
    requires DistinctIds(a) && DistinctIds(b) && AllValid(a) && AllValid(b)
    ensures Plan(a, preference, policyA, windowA, drawsA, 0) == Plan(b, preference, policyB, windowB, drawsB, 0)
  {
    PlanIsOrderedPermutation(a, preference, policyA, windowA, drawsA, 0);
    PlanIsOrderedPermutation(b, preference, policyB, windowB, drawsB, 0);
    var keepA := (c: Candidate) => Qualifies(c, preference, policyA, windowA);
    var keepB := (c: Candidate) => Qualifies(c, preference, policyB, windowB);
    assert multiset(Filter(a, keepA)) == multiset(Filter(b, keepB)) by {
      forall c: Candidate ensures multiset(Filter(a, keepA))[c] == multiset(Filter(b, keepB))[c] {
        FilterCounts(a, keepA, c);
        FilterCounts(b, keepB, c);
      }
    }
    StrictOrderIsUnique(Plan(a, preference, policyA, windowA, drawsA, 0),
                        Plan(b, preference, policyB, windowB, drawsB, 0), preference);
  }
}
