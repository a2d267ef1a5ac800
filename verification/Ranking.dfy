/** What each selection means: who may come before whom under each preference. */
module Ranking {
  import opened Basics
  import opened Lexical
  import opened ShareTracker
  import opened Select

  predicate PriorityBefore(a: Candidate, b: Candidate) {
    a.priority < b.priority || (a.priority == b.priority && Before(a.id, b.id))
  }

  predicate Faster(a: Candidate, b: Candidate) {
    a.measurements.Some?
    && (b.measurements.Some? ==> a.measurements.value.throughput > b.measurements.value.throughput)
  }

  /** The measured throughput when it is positive, and otherwise zero. */
  function Throughput(c: Candidate): real {
    if c.measurements.Some? && c.measurements.value.throughput > 0.0 then c.measurements.value.throughput else 0.0
  }

  predicate Sooner(a: Candidate, b: Candidate) {
    a.measurements.Some?
    && (b.measurements.Some? ==> a.measurements.value.latency < b.measurements.value.latency)
  }

  /**
   * `a` may stand before `b` in a plan. For the three strict preferences this is a total order: cheaper, faster
   * or sooner first, the unmeasured last, ties by priority and then by id. The default preference only puts
   * measured throughput first and keeps the rest in priority order; the balanced one puts free providers first.
   */
  predicate MayPrecede(preference: Preference, a: Candidate, b: Candidate) {
    match preference
    case Default => (Throughput(b) > 0.0 ==> Throughput(a) > 0.0) && (Throughput(a) == 0.0 ==> PriorityBefore(a, b))
    case Balanced => b.price == 0.0 ==> a.price == 0.0
    case Price => a.price < b.price || (a.price == b.price && PriorityBefore(a, b))
    case Throughput => Faster(a, b) || (!Faster(b, a) && PriorityBefore(a, b))
    case Latency => Sooner(a, b) || (!Sooner(b, a) && PriorityBefore(a, b))
  }

  predicate IsStrict(preference: Preference) {
    preference.Price? || preference.Throughput? || preference.Latency?
  }

  predicate DistinctIds(candidates: seq<Candidate>) {
    forall i, j :: 0 <= i < j < |candidates| ==> candidates[i].id != candidates[j].id
  }

  lemma PriorityIsTotal(a: Candidate, b: Candidate)
    requires a.id != b.id
    ensures PriorityBefore(a, b) <==> !PriorityBefore(b, a)
    ensures ComparePriority(a, b).Greater? <==> PriorityBefore(b, a)
    ensures ComparePriority(a, b).Less? <==> PriorityBefore(a, b)
  {
    BeforeIsTotal(a.id, b.id);
  }

  lemma PriorityIsTransitive(a: Candidate, b: Candidate, c: Candidate)
    requires PriorityBefore(a, b) && PriorityBefore(b, c)
    ensures PriorityBefore(a, c)
  {
    if a.priority == b.priority == c.priority {
      BeforeIsTransitive(a.id, b.id, c.id);
    }
  }

  lemma StrictIsTotal(preference: Preference, a: Candidate, b: Candidate)
    requires IsStrict(preference) && a.id != b.id
    ensures MayPrecede(preference, a, b) <==> !MayPrecede(preference, b, a)
    ensures preference.Price? ==> (ComparePrice(a, b).Greater? <==> !MayPrecede(preference, a, b))
    ensures preference.Latency? ==> (CompareLatency(a, b).Greater? <==> !MayPrecede(preference, a, b))
    ensures preference.Throughput? ==> (CompareThroughput(a, b).Greater? <==> MayPrecede(preference, a, b))
  {
    PriorityIsTotal(a, b);
    PriorityIsTotal(b, a);
  }

  lemma StrictIsTransitive(preference: Preference, a: Candidate, b: Candidate, c: Candidate)
    requires IsStrict(preference) && MayPrecede(preference, a, b) && MayPrecede(preference, b, c)
    ensures MayPrecede(preference, a, c)
  {
    if PriorityBefore(a, b) && PriorityBefore(b, c) {
      PriorityIsTransitive(a, b, c);
    }
  }

  type Relation = (Candidate, Candidate) -> bool

  /** A relation that orders distinct candidates strictly and totally. */
  ghost predicate IsTotalOrder(before: Relation) {
    && (forall a: Candidate, b: Candidate :: a.id != b.id ==> (before(a, b) <==> !before(b, a)))
    && (forall a: Candidate, b: Candidate, c: Candidate :: before(a, b) && before(b, c) ==> before(a, c))
  }

  ghost predicate Leads(best: Candidate, candidates: seq<Candidate>, before: Relation) {
    forall i :: 0 <= i < |candidates| ==> candidates[i].id == best.id || before(best, candidates[i])
  }

  lemma {:induction false} MinByLeads(candidates: seq<Candidate>, compare: Comparator, before: Relation)
    requires candidates != [] && DistinctIds(candidates) && IsTotalOrder(before)
    requires forall a: Candidate, b: Candidate :: a.id != b.id ==> (compare(a, b).Greater? <==> !before(a, b))
    ensures Leads(MinBy(candidates, compare), candidates, before)
  {
    hide IsTotalOrder;
    if |candidates| > 1 {
      var front, last := candidates[..|candidates| - 1], candidates[|candidates| - 1];
      assert front + [last] == candidates;
      MinByLeads(front, compare, before);
      BestOfTwo(front, last, MinBy(front, compare), before);
    }
  }

  lemma {:induction false} MaxByLeads(candidates: seq<Candidate>, compare: Comparator, before: Relation)
    requires candidates != [] && DistinctIds(candidates) && IsTotalOrder(before)
    requires forall a: Candidate, b: Candidate :: a.id != b.id ==> (compare(a, b).Greater? <==> before(a, b))
    ensures Leads(MaxBy(candidates, compare), candidates, before)
  {
    hide IsTotalOrder;
    if |candidates| > 1 {
      var front, last := candidates[..|candidates| - 1], candidates[|candidates| - 1];
      assert front + [last] == candidates;
      MaxByLeads(front, compare, before);
      BestOfTwo(front, last, MaxBy(front, compare), before);
    }
  }

  lemma BestOfTwo(front: seq<Candidate>, last: Candidate, best: Candidate, before: Relation)
    requires DistinctIds(front + [last]) && IsTotalOrder(before)
    requires best in front && Leads(best, front, before)
    ensures best.id != last.id
    ensures Leads(if before(best, last) then best else last, front + [last], before)
  {
    var all := front + [last];
    var k :| 0 <= k < |front| && front[k] == best;
    assert all[k].id != all[|front|].id;
    forall i | 0 <= i < |all| && !before(best, last)
      ensures all[i].id == last.id || before(last, all[i])
    {
      if i < |front| { assert all[i] == front[i]; }
    }
  }

  // ------------------------------------------------------ the weighted pick

  predicate AllNonNegative(weights: seq<real>) {
    forall i :: 0 <= i < |weights| ==> weights[i] >= 0.0
  }

  lemma {:induction false} SumIsNonNegative(weights: seq<real>)
    requires AllNonNegative(weights)
    ensures Sum(weights) >= 0.0
    ensures forall i :: 0 <= i < |weights| ==> weights[i] <= Sum(weights)
  {
    if weights != [] { SumIsNonNegative(weights[1..]); }
  }

  /** The index whose stretch of the cumulative sums holds the target; its weight is positive. */
  lemma {:induction false} PickLandsInsideWeight(weights: seq<real>, target: real)
    requires weights != [] && AllNonNegative(weights)
    requires 0.0 <= target < Sum(weights)
    ensures var i := PickIndex(weights, target);
            Sum(weights[..i]) <= target < Sum(weights[..i]) + weights[i]
  {
    if weights[0] > target {
      assert weights[..0] == [];
    } else if |weights| > 1 {
      PickLandsInsideWeight(weights[1..], target - weights[0]);
      var i := PickIndex(weights, target);
      assert weights[..i] == [weights[0]] + weights[1..][..i - 1];
      assert weights[..i][1..] == weights[1..][..i - 1];
    }
  }

  lemma RatioLaws(a: real, b: real)
    requires a >= 0.0 && b > 0.0
    ensures Ratio(a, b) >= 0.0
    ensures Ratio(a, b) > 0.0 <==> a > 0.0
    ensures a > 0.0 ==> InverseSquare(a, b) > 0.0
  {
    assert Ratio(a, b) * b == a;
    if a > 0.0 {
      assert Ratio(a, b) > 0.0;
      assert Ratio(a, b) * Ratio(a, b) > 0.0;
    }
  }

  lemma DrawIsBelowTotal(u: Draw, total: real)
    requires total > 0.0
    ensures 0.0 <= Target(u, total) < total
  {}

  lemma PickIsInsideWeight(weights: seq<real>, u: Draw)
    requires AllNonNegative(weights) && exists k :: 0 <= k < |weights| && weights[k] > 0.0
    ensures weights[PickIndex(weights, Target(u, Sum(weights)))] > 0.0
  {
    SumIsNonNegative(weights);
    DrawIsBelowTotal(u, Sum(weights));
    PickLandsInsideWeight(weights, Target(u, Sum(weights)));
  }

  lemma NormalizingKeepsSigns(weights: seq<real>, max: real)
    requires AllNonNegative(weights) && max > 0.0
    ensures AllNonNegative(Normalize(weights, max))
    ensures forall i :: 0 <= i < |weights| ==> (Normalize(weights, max)[i] > 0.0 <==> weights[i] > 0.0)
  {
    forall i | 0 <= i < |weights|
      ensures Normalize(weights, max)[i] >= 0.0 && (Normalize(weights, max)[i] > 0.0 <==> weights[i] > 0.0)
    {
      RatioLaws(weights[i], max);
    }
  }

  /** A pick succeeds exactly when some weight is positive, and it never lands on weight zero. */
  lemma PickIsPositive(candidates: seq<Candidate>, weights: seq<real>, u: Draw)
    requires |candidates| == |weights| && AllNonNegative(weights)
    ensures var picked := WeightedPick(candidates, weights, u);
            && (picked.Some? <==> exists i :: 0 <= i < |weights| && weights[i] > 0.0)
            && (picked.Some? ==> exists i :: 0 <= i < |weights| && weights[i] > 0.0 && candidates[i] == picked.value)
  {
    var max := MaxWeight(weights);
    if max > 0.0 {
      var k :| 0 <= k < |weights| && weights[k] == max;
      NormalizingKeepsSigns(weights, max);
      assert Normalize(weights, max)[k] > 0.0;
      PickIsInsideWeight(Normalize(weights, max), u);
    } else {
      forall i | 0 <= i < |weights| ensures weights[i] <= 0.0 { assert weights[i] in weights; }
    }
  }

  lemma {:induction false} NormalizedSum(weights: seq<real>, max: real)
    requires max > 0.0
    ensures Sum(Normalize(weights, max)) * max == Sum(weights)
  {
    if weights != [] {
      NormalizedSum(weights[1..], max);
      var first, rest := Ratio(weights[0], max), Sum(Normalize(weights[1..], max));
      assert first * max == weights[0];
      assert Normalize(weights, max)[1..] == Normalize(weights[1..], max);
      assert (first + rest) * max == first * max + rest * max;
    }
  }

  lemma NormalizedPrefix(weights: seq<real>, max: real, i: nat)
    requires max > 0.0 && i <= |weights|
    ensures Normalize(weights, max)[..i] == Normalize(weights[..i], max)
  {}

  /** `low <= u * total < low + weight`, on weights all divided by `max`, holds of the weights themselves. */
  lemma ScaleBack(low: real, weight: real, total: real, u: Draw, max: real,
                  lowFull: real, weightFull: real, totalFull: real)
    requires max > 0.0 && low * max == lowFull && weight * max == weightFull && total * max == totalFull
    requires low <= Target(u, total) < low + weight
    ensures lowFull <= Target(u, totalFull) < lowFull + weightFull
  {
    assert Target(u, total) * max == Target(u, totalFull);
    assert (low + weight) * max == lowFull + weightFull;
    assert low * max <= Target(u, total) * max < (low + weight) * max;
  }

  lemma SumIsPositive(weights: seq<real>)
    requires AllNonNegative(weights) && exists i :: 0 <= i < |weights| && weights[i] > 0.0
    ensures Sum(weights) > 0.0
  {
    SumIsNonNegative(weights);
  }

  lemma IndexOfNormalized(weights: seq<real>, max: real, u: Draw)
    requires max > 0.0 && AllNonNegative(weights) && exists i :: 0 <= i < |weights| && weights[i] > 0.0
    ensures var normalized := Normalize(weights, max);
            var i := PickIndex(normalized, Target(u, Sum(normalized)));
            Sum(weights[..i]) <= Target(u, Sum(weights)) < Sum(weights[..i]) + weights[i]
  {
    hide Target, PickIndex, Sum, Normalize, Ratio;
    var normalized := Normalize(weights, max);
    NormalizingKeepsSigns(weights, max);
    SumIsPositive(normalized);
    DrawIsBelowTotal(u, Sum(normalized));
    PickLandsInsideWeight(normalized, Target(u, Sum(normalized)));
    var i := PickIndex(normalized, Target(u, Sum(normalized)));
    NormalizedSum(weights, max);
    NormalizedSum(weights[..i], max);
    NormalizedPrefix(weights, max, i);
    assert normalized[i] * max == weights[i] by { RatioUndone(weights[i], max); }
    ScaleBack(Sum(normalized[..i]), normalized[i], Sum(normalized), u, max,
              Sum(weights[..i]), weights[i], Sum(weights));
  }

  lemma RatioUndone(a: real, b: real)
    requires b > 0.0
    ensures Ratio(a, b) * b == a
  {}

  /** The picked candidate's stretch of the cumulative sums holds the draw's share of the total weight. */
  ghost predicate HoldsShare(picked: Candidate, candidates: seq<Candidate>, weights: seq<real>, u: Draw)
    requires |candidates| == |weights|
  {
    exists i :: 0 <= i < |weights| && candidates[i] == picked
      && Sum(weights[..i]) <= u * Sum(weights) < Sum(weights[..i]) + weights[i]
  }

  /**
   * Normalizing does not bias the pick: the picked candidate is the one whose stretch of the cumulative sums of the
   * given weights holds the draw's share of their total.
   */
  lemma PickIsProportional(candidates: seq<Candidate>, weights: seq<real>, u: Draw)
    requires |candidates| == |weights| && AllNonNegative(weights)
    requires WeightedPick(candidates, weights, u).Some?
    ensures HoldsShare(WeightedPick(candidates, weights, u).value, candidates, weights, u)
  {
    PickIsPositive(candidates, weights, u);
    hide Target, PickIndex, Sum, Normalize, MaxWeight;
    var max := MaxWeight(weights);
    IndexOfNormalized(weights, max, u);
    var i := PickIndex(Normalize(weights, max), Target(u, Sum(Normalize(weights, max))));
    assert candidates[i] == WeightedPick(candidates, weights, u).value;
    hide WeightedPick;
    TargetHoldsShare(candidates, weights, u, i);
  }

  lemma TargetHoldsShare(candidates: seq<Candidate>, weights: seq<real>, u: Draw, i: nat)
    requires |candidates| == |weights| && i < |weights|
    requires Sum(weights[..i]) <= Target(u, Sum(weights)) < Sum(weights[..i]) + weights[i]
    ensures HoldsShare(candidates[i], candidates, weights, u)
  {
    hide Sum;
  }

  function TimesSquare(weight: real, price: real): real {
    weight * (price * price)
  }

  lemma SquareUndone(cheapest: real, price: real)
    requires price > 0.0
    ensures TimesSquare(InverseSquare(cheapest, price), price) == cheapest * cheapest
  {
    var ratio := Ratio(cheapest, price);
    assert ratio * price == cheapest;
    assert ratio * ratio * (price * price) == (ratio * price) * (ratio * price);
  }

  /**
   * Hysteresis: a challenger outweighs a measured incumbent exactly when it is faster by more than the band; within
   * the band it weighs the same, and otherwise it weighs its own speed.
   */
  lemma HysteresisHolds(challenger: Candidate, incumbent: Candidate, hysteresis: real)
    requires hysteresis >= 0.0 && challenger.id != incumbent.id
    requires Throughput(incumbent) > 0.0
    ensures Weight(incumbent, Some(incumbent), hysteresis) == Throughput(incumbent)
    ensures Weight(challenger, Some(incumbent), hysteresis) > Weight(incumbent, Some(incumbent), hysteresis) <==>
            Throughput(challenger) > Throughput(incumbent) * (1.0 + hysteresis)
    ensures Weight(challenger, Some(incumbent), hysteresis)
         == if Throughput(incumbent) < Throughput(challenger) <= Throughput(incumbent) * (1.0 + hysteresis)
            then Throughput(incumbent) else Throughput(challenger)
  {
    var held := Throughput(incumbent);
    assert held * (1.0 + hysteresis) == held + held * hysteresis;
    assert held * hysteresis >= 0.0;
  }

  // ---------------------------------------------------------- one selection

  /** Who may be selected at all. */
  predicate Qualifies(c: Candidate, preference: Preference, policy: Policy, window: Window) {
    && c.healthy
    && (preference.Default? ==> c.price <= policy.ceiling && AllowsNext(window, c.id, policy.maxShare))
  }

  lemma {:induction false} FilterKeepsDistinct(candidates: seq<Candidate>, keep: Candidate -> bool)
    requires DistinctIds(candidates)
    ensures DistinctIds(Filter(candidates, keep))
  {
    if candidates != [] {
      var rest := candidates[1..];
      FilterKeepsDistinct(rest, keep);
      var kept := Filter(rest, keep);
      forall i | 0 <= i < |kept| ensures kept[i].id != candidates[0].id {
        assert kept[i] in kept;
        var k :| 0 <= k < |rest| && rest[k] == kept[i];
        assert candidates[k + 1] == kept[i];
      }
    }
  }

  /** The selected candidate qualifies and may stand before every other that does; it is missing only when none does. */
  ghost predicate IsSelection(picked: Option<Candidate>, candidates: seq<Candidate>, preference: Preference,
                              policy: Policy, window: Window)
  {
    match picked
    case None => forall c <- candidates :: !Qualifies(c, preference, policy, window)
    case Some(best) =>
      && best in candidates && Qualifies(best, preference, policy, window)
      && forall c <- candidates :: Qualifies(c, preference, policy, window) && c.id != best.id ==>
           MayPrecede(preference, best, c)
  }

  lemma StrictOrderLaws(preference: Preference)
    requires IsStrict(preference)
    ensures IsTotalOrder((a, b) => MayPrecede(preference, a, b))
  {
    forall a: Candidate, b: Candidate | a.id != b.id
      ensures MayPrecede(preference, a, b) <==> !MayPrecede(preference, b, a)
    {
      StrictIsTotal(preference, a, b);
    }
    forall a: Candidate, b: Candidate, c: Candidate | MayPrecede(preference, a, b) && MayPrecede(preference, b, c)
      ensures MayPrecede(preference, a, c)
    {
      StrictIsTransitive(preference, a, b, c);
    }
  }

  lemma StrictSelection(candidates: seq<Candidate>, preference: Preference, policy: Policy, window: Window, u: Draw)
    requires IsStrict(preference) && DistinctIds(candidates)
    ensures IsSelection(SelectRoute(candidates, preference, policy, window, u), candidates, preference, policy, window)
  {
    var healthy := Healthy(candidates);
    if healthy != [] {
      FilterKeepsDistinct(candidates, (c: Candidate) => c.healthy);
      StrictOrderLaws(preference);
      var before: Relation := (a, b) => MayPrecede(preference, a, b);
      forall a: Candidate, b: Candidate | a.id != b.id
        ensures preference.Price? ==> (ComparePrice(a, b).Greater? <==> !before(a, b))
        ensures preference.Latency? ==> (CompareLatency(a, b).Greater? <==> !before(a, b))
        ensures preference.Throughput? ==> (CompareThroughput(a, b).Greater? <==> before(a, b))
      {
        StrictIsTotal(preference, a, b);
      }
      match preference {
        case Price => MinByLeads(healthy, ComparePrice, before);
        case Throughput => MaxByLeads(healthy, CompareThroughput, before);
        case Latency => MinByLeads(healthy, CompareLatency, before);
      }
      var best := SelectRoute(candidates, preference, policy, window, u).value;
      assert Leads(best, healthy, before);
      forall c | c in candidates && c.healthy && c.id != best.id ensures MayPrecede(preference, best, c) {
        assert c in healthy;
        var i :| 0 <= i < |healthy| && healthy[i] == c;
      }
    } else {
      forall c | c in candidates ensures !c.healthy { assert c !in healthy; }
    }
  }

  lemma PriorityOrderLaws()
    ensures IsTotalOrder(PriorityBefore)
    ensures forall a: Candidate, b: Candidate ::
              a.id != b.id ==> (ComparePriority(a, b).Greater? <==> !PriorityBefore(a, b))
  {
    forall a: Candidate, b: Candidate | a.id != b.id
      ensures PriorityBefore(a, b) <==> !PriorityBefore(b, a)
      ensures ComparePriority(a, b).Greater? <==> !PriorityBefore(a, b)
    {
      PriorityIsTotal(a, b);
    }
    forall a: Candidate, b: Candidate, c: Candidate | PriorityBefore(a, b) && PriorityBefore(b, c)
      ensures PriorityBefore(a, c)
    {
      PriorityIsTransitive(a, b, c);
    }
  }

  lemma WeightMeaning(c: Candidate, incumbent: Option<Candidate>, hysteresis: real)
    ensures Weight(c, incumbent, hysteresis) >= 0.0
    ensures Weight(c, incumbent, hysteresis) > 0.0 <==> Throughput(c) > 0.0
  {}

  /** The throughput pick takes a candidate with positive throughput, and fails only when there is none. */
  lemma ThroughputPick(eligible: seq<Candidate>, incumbent: Option<Candidate>, hysteresis: real, u: Draw)
    ensures var picked := WeightedPick(eligible, Weights(eligible, incumbent, hysteresis), u);
            if picked.Some? then Throughput(picked.value) > 0.0 else forall c <- eligible :: Throughput(c) == 0.0
  {
    hide WeightedPick, Weights, Weight;
    var weights := Weights(eligible, incumbent, hysteresis);
    forall i | 0 <= i < |eligible|
      ensures weights[i] >= 0.0 && (weights[i] > 0.0 <==> Throughput(eligible[i]) > 0.0)
    {
      WeightMeaning(eligible[i], incumbent, hysteresis);
    }
    PickIsPositive(eligible, weights, u);
  }

  lemma LeastByPriority(candidates: seq<Candidate>)
    requires candidates != [] && DistinctIds(candidates)
    ensures forall c <- candidates :: c.id != MinBy(candidates, ComparePriority).id ==>
              PriorityBefore(MinBy(candidates, ComparePriority), c)
  {
    hide MinBy, ComparePriority, PriorityBefore, IsTotalOrder, DistinctIds;
    PriorityOrderLaws();
    MinByLeads(candidates, ComparePriority, PriorityBefore);
  }

  lemma DefaultSelection(candidates: seq<Candidate>, policy: Policy, window: Window, u: Draw)
    requires DistinctIds(candidates)
    ensures IsSelection(SelectDefault(candidates, policy, window, u), candidates, Default, policy, window)
  {
    hide WeightedPick, Weights, MinBy, ComparePriority, PriorityBefore, Throughput, Incumbent, DistinctIds, AllowsNext;
    var keep := (c: Candidate) => IsEligible(c, policy, window);
    var eligible := Filter(candidates, keep);
    FilterKeepsDistinct(candidates, keep);
    var holder := Incumbent(window);
    var incumbent := if holder.Some? then FindById(eligible, holder.value) else None;
    ThroughputPick(eligible, incumbent, policy.hysteresis, u);
    if eligible != [] {
      LeastByPriority(eligible);
    }
    assert forall c <- candidates :: keep(c) ==> c in eligible;
  }

  /** The candidate, if any, that is listed under the incumbent's id. */
  predicate IsHolder(holder: Option<Candidate>, candidates: seq<Candidate>, window: Window) {
    match holder
    case None => forall c <- candidates :: Incumbent(window) != Some(c.id)
    case Some(c) => c in candidates && Incumbent(window) == Some(c.id)
  }

  /** Throughput, except that a challenger no faster than the hysteresis band counts like the measured incumbent. */
  ghost predicate AreAdjusted(weights: seq<real>, candidates: seq<Candidate>, holder: Option<Candidate>,
                              hysteresis: real)
  {
    && |weights| == |candidates|
    && forall i :: 0 <= i < |candidates| ==>
         weights[i] == if holder.Some? && Throughput(holder.value) > 0.0 && candidates[i].id != holder.value.id
                          && Throughput(holder.value) < Throughput(candidates[i])
                          && Throughput(candidates[i]) <= Throughput(holder.value) * (1.0 + hysteresis)
                       then Throughput(holder.value) else Throughput(candidates[i])
  }

  function Eligible(candidates: seq<Candidate>, policy: Policy, window: Window): seq<Candidate> {
    Filter(candidates, (c: Candidate) => Qualifies(c, Default, policy, window))
  }

  lemma WeightIsAdjusted(c: Candidate, holder: Option<Candidate>, hysteresis: real)
    ensures Weight(c, holder, hysteresis)
         == if holder.Some? && Throughput(holder.value) > 0.0 && c.id != holder.value.id
               && Throughput(holder.value) < Throughput(c)
               && Throughput(c) <= Throughput(holder.value) * (1.0 + hysteresis)
            then Throughput(holder.value) else Throughput(c)
  {
    if holder.Some? {
      var held := Throughput(holder.value);
      assert held * (1.0 + hysteresis) == held + held * hysteresis;
    }
  }

  lemma {:induction false} SameFilter(candidates: seq<Candidate>, keep: Candidate -> bool, same: Candidate -> bool)
    requires forall c: Candidate :: keep(c) == same(c)
    ensures Filter(candidates, keep) == Filter(candidates, same)
  {
    if candidates != [] { SameFilter(candidates[1..], keep, same); }
  }

  /**
   * With a measured eligible provider, default traffic is split in proportion to the throughputs, adjusted only for
   * the hysteresis of a measured eligible incumbent.
   */
  lemma DefaultSharesByThroughput(candidates: seq<Candidate>, policy: Policy, window: Window, u: Draw)
    ensures var eligible, picked := Eligible(candidates, policy, window), SelectDefault(candidates, policy, window, u);
            (exists c <- eligible :: Throughput(c) > 0.0) ==>
              && picked.Some?
              && exists holder, weights ::
                   && IsHolder(holder, eligible, window)
                   && AreAdjusted(weights, eligible, holder, policy.hysteresis)
                   && HoldsShare(picked.value, eligible, weights, u)
  {
    hide WeightedPick, Weights, Weight, MinBy, ComparePriority, Incumbent, Filter, AllowsNext;
    var keep := (c: Candidate) => IsEligible(c, policy, window);
    var eligible := Filter(candidates, keep);
    SameFilter(candidates, keep, (c: Candidate) => Qualifies(c, Default, policy, window));
    assert eligible == Eligible(candidates, policy, window);
    var id := Incumbent(window);
    var holder := if id.Some? then FindById(eligible, id.value) else None;
    var weights := Weights(eligible, holder, policy.hysteresis);
    ThroughputPick(eligible, holder, policy.hysteresis, u);
    forall i | 0 <= i < |weights| ensures weights[i] >= 0.0 {
      WeightMeaning(eligible[i], holder, policy.hysteresis);
    }
    HolderIsFound(eligible, window);
    WeightsAreAdjusted(eligible, holder, policy.hysteresis);
    hide AreAdjusted, IsHolder, FindById, HoldsShare, IsEligible, Qualifies;
    if exists c <- eligible :: Throughput(c) > 0.0 {
      PickIsProportional(eligible, weights, u);
    }
  }

  lemma HolderIsFound(eligible: seq<Candidate>, window: Window)
    ensures var id := Incumbent(window);
            IsHolder(if id.Some? then FindById(eligible, id.value) else None, eligible, window)
  {
    hide Incumbent, FindById;
  }

  lemma WeightsAreAdjusted(eligible: seq<Candidate>, holder: Option<Candidate>, hysteresis: real)
    ensures AreAdjusted(Weights(eligible, holder, hysteresis), eligible, holder, hysteresis)
  {
    hide Weight, Throughput, Weights;
    forall i | 0 <= i < |eligible| {
      WeightIsAdjusted(eligible[i], holder, hysteresis);
    }
  }

  /** Without a measured eligible incumbent, as on the first request of a key, throughput alone decides. */
  lemma FirstSharesFollowThroughput(candidates: seq<Candidate>, policy: Policy, window: Window, u: Draw,
                                    throughputs: seq<real>)
    requires var eligible := Eligible(candidates, policy, window);
             && (forall c <- eligible :: Incumbent(window) == Some(c.id) ==> Throughput(c) == 0.0)
             && (exists c <- eligible :: Throughput(c) > 0.0)
             && |throughputs| == |eligible|
             && forall i :: 0 <= i < |eligible| ==>
                  throughputs[i] == if eligible[i].measurements.Some?
                                       && eligible[i].measurements.value.throughput > 0.0
                                    then eligible[i].measurements.value.throughput else 0.0
    ensures SelectDefault(candidates, policy, window, u).Some?
    ensures HoldsShare(SelectDefault(candidates, policy, window, u).value, Eligible(candidates, policy, window),
                       throughputs, u)
  {
    DefaultSharesByThroughput(candidates, policy, window, u);
    hide SelectDefault, Incumbent, HoldsShare, Eligible;
    var eligible, picked := Eligible(candidates, policy, window), SelectDefault(candidates, policy, window, u).value;
    var holder, weights :| IsHolder(holder, eligible, window)
                           && AreAdjusted(weights, eligible, holder, policy.hysteresis)
                           && HoldsShare(picked, eligible, weights, u);
    assert weights == throughputs;
  }

  /** Positive weights whose product with the squared price is the same for every candidate. */
  ghost predicate FallWithSquaredPrice(weights: seq<real>, candidates: seq<Candidate>) {
    && |weights| == |candidates|
    && (forall i :: 0 <= i < |candidates| ==> candidates[i].price > 0.0 && weights[i] > 0.0)
    && forall i, j :: 0 <= i < |candidates| && 0 <= j < |candidates| ==>
         TimesSquare(weights[i], candidates[i].price) == TimesSquare(weights[j], candidates[j].price)
  }

  lemma PaidWeights(candidates: seq<Candidate>)
    requires AllValid(candidates) && Healthy(candidates) != []
    requires Filter(Healthy(candidates), (c: Candidate) => c.price == 0.0) == []
    ensures var healthy := Healthy(candidates);
            FallWithSquaredPrice(InverseSquares(healthy, Cheapest(healthy)), healthy)
  {
    hide AllValid, InverseSquares, InverseSquare, Cheapest, Filter, TimesSquare;
    var healthy := Healthy(candidates);
    var free := Filter(healthy, (c: Candidate) => c.price == 0.0);
    var weights := InverseSquares(healthy, Cheapest(healthy));
    assert Cheapest(healthy) > 0.0 by {
      var c :| c in healthy && c.price == Cheapest(healthy);
      PriceIsNonNegative(candidates, c);
      assert c !in free;
    }
    forall i | 0 <= i < |healthy|
      ensures healthy[i].price > 0.0 && weights[i] > 0.0
      ensures TimesSquare(weights[i], healthy[i].price) == Cheapest(healthy) * Cheapest(healthy)
    {
      assert healthy[i] in healthy;
      RatioLaws(Cheapest(healthy), healthy[i].price);
      SquareUndone(Cheapest(healthy), healthy[i].price);
    }
  }

  /** Among free providers balanced traffic is split evenly, and otherwise by the inverse square of the price. */
  lemma BalancedSharesByPrice(candidates: seq<Candidate>, u: Draw)
    requires AllValid(candidates) && SelectBalanced(candidates, u).Some?
    ensures var healthy := Healthy(candidates);
            var free := Filter(healthy, (c: Candidate) => c.price == 0.0);
            if free != [] then HoldsShare(SelectBalanced(candidates, u).value, free, seq(|free|, _ => 1.0), u)
            else exists weights: seq<real> ::
              && FallWithSquaredPrice(weights, healthy)
              && HoldsShare(SelectBalanced(candidates, u).value, healthy, weights, u)
  {
    hide WeightedPick, InverseSquares, InverseSquare, Cheapest, Filter, AllValid;
    var healthy := Healthy(candidates);
    var free := Filter(healthy, (c: Candidate) => c.price == 0.0);
    if free != [] {
      PickIsProportional(free, seq(|free|, _ => 1.0), u);
    } else {
      var weights := InverseSquares(healthy, Cheapest(healthy));
      forall i | 0 <= i < |weights| ensures weights[i] >= 0.0 {
        SquareIsNonNegative(Cheapest(healthy), healthy[i].price);
      }
      PickIsProportional(healthy, weights, u);
      PaidWeights(candidates);
    }
  }

  lemma SquareIsNonNegative(a: real, b: real)
    requires b != 0.0
    ensures InverseSquare(a, b) >= 0.0
  {}

  /** Positive weights alone make a pick succeed. */
  lemma PickAmongPositive(candidates: seq<Candidate>, weights: seq<real>, u: Draw)
    requires candidates != [] && |candidates| == |weights|
    requires forall i :: 0 <= i < |weights| ==> weights[i] > 0.0
    ensures WeightedPick(candidates, weights, u).Some?
  {
    assert weights[0] > 0.0;
    PickIsPositive(candidates, weights, u);
  }

  lemma InverseSquarePick(candidates: seq<Candidate>, u: Draw)
    requires candidates != [] && forall c <- candidates :: c.price > 0.0
    ensures WeightedPick(candidates, InverseSquares(candidates, Cheapest(candidates)), u).Some?
  {
    hide WeightedPick, InverseSquare, Cheapest;
    forall i | 0 <= i < |candidates|
      ensures InverseSquare(Cheapest(candidates), candidates[i].price) > 0.0
    {
      assert candidates[i] in candidates;
      RatioLaws(Cheapest(candidates), candidates[i].price);
    }
    PickAmongPositive(candidates, InverseSquares(candidates, Cheapest(candidates)), u);
  }

  lemma BalancedSelection(candidates: seq<Candidate>, policy: Policy, window: Window, u: Draw)
    requires AllValid(candidates)
    ensures IsSelection(SelectBalanced(candidates, u), candidates, Balanced, policy, window)
  {
    hide WeightedPick, InverseSquares, Cheapest, Filter, AllValid;
    var healthy := Healthy(candidates);
    var free := Filter(healthy, (c: Candidate) => c.price == 0.0);
    if free != [] {
      PickAmongPositive(free, seq(|free|, _ => 1.0), u);
    } else if healthy != [] {
      forall c | c in healthy ensures c.price > 0.0 {
        PriceIsNonNegative(candidates, c);
        assert c !in free;
      }
      InverseSquarePick(healthy, u);
    }
    assert forall c <- candidates :: c.healthy ==> c in healthy;
  }

  lemma PriceIsNonNegative(candidates: seq<Candidate>, c: Candidate)
    requires AllValid(candidates) && c in candidates
    ensures c.price >= 0.0
  {
    var i :| 0 <= i < |candidates| && candidates[i] == c;
    assert ValidCandidate(candidates[i]);
  }

  /** Every preference selects a leader among those that qualify, whatever is drawn. */
  lemma SelectionLeads(candidates: seq<Candidate>, preference: Preference, policy: Policy, window: Window, u: Draw)
    requires DistinctIds(candidates) && AllValid(candidates)
    ensures IsSelection(SelectRoute(candidates, preference, policy, window, u), candidates, preference, policy, window)
  {
    match preference
    case Default => DefaultSelection(candidates, policy, window, u);
    case Balanced => BalancedSelection(candidates, policy, window, u);
    case _ => StrictSelection(candidates, preference, policy, window, u);
  }
}
