/** The traffic-share cap over whole runs, and why it never leaves a request without a provider. */
module ShareSafety {
  import opened Basics
  import opened ShareTracker
  import opened Select
  import opened Ranking

  /** No provider holds more of the window than its discrete quota. */
  ghost predicate WithinQuota(history: seq<string>, maxShare: real) {
    forall p :: multiset(history)[p] <= Quota(maxShare, |history|)
  }

  predicate ValidShare(maxShare: real) {
    0.0 < maxShare <= 1.0
  }

  lemma CeilLaws(x: real, y: real)
    requires x <= y
    ensures Ceil(x) <= Ceil(y)
    ensures x <= Ceil(x) as real < x + 1.0
  {}

  lemma QuotaIsMonotone(maxShare: real, shorter: nat, longer: nat)
    requires ValidShare(maxShare) && shorter <= longer
    ensures Quota(maxShare, shorter) <= Quota(maxShare, longer)
  {
    assert maxShare * shorter as real <= maxShare * longer as real;
    CeilLaws(maxShare * shorter as real, maxShare * longer as real);
  }

  /** The window entries that survive the next selection. */
  function Surviving(history: seq<string>, capacity: nat): seq<string> {
    if |history| == capacity && history != [] then history[1..] else history
  }

  lemma NextCount(w: Window, provider: string)
    requires WellFormed(w)
    ensures |Slide(w.history, w.capacity, provider)| == NextLength(w) == |Surviving(w.history, w.capacity)| + 1
    ensures multiset(Surviving(w.history, w.capacity))[provider]
         == Count(w, provider) - (if Expires(w, provider) then 1 else 0)
    ensures multiset(Slide(w.history, w.capacity, provider))[provider]
         == multiset(Surviving(w.history, w.capacity))[provider] + 1
  {
    CountIsExact(w, provider);
    if w.history != [] { assert w.history == [w.history[0]] + w.history[1..]; }
  }

  lemma OthersDoNotGrow(w: Window, provider: string, other: string)
    requires WellFormed(w) && other != provider
    ensures multiset(Slide(w.history, w.capacity, provider))[other] <= multiset(w.history)[other]
  {
    if w.history != [] { assert w.history == [w.history[0]] + w.history[1..]; }
  }

  /** Recording a selection keeps the cap, while the window grows or slides, exactly when the tracker allowed it. */
  lemma RecordKeepsQuotaIffAllowed(w: Window, provider: string, maxShare: real)
    requires WellFormed(w) && ValidShare(maxShare) && WithinQuota(w.history, maxShare)
    ensures WithinQuota(Slide(w.history, w.capacity, provider), maxShare) <==> AllowsNext(w, provider, maxShare)
  {
    var next := Slide(w.history, w.capacity, provider);
    NextCount(w, provider);
    if AllowsNext(w, provider, maxShare) {
      forall p ensures multiset(next)[p] <= Quota(maxShare, |next|) {
        if p != provider {
          OthersDoNotGrow(w, provider, p);
          QuotaIsMonotone(maxShare, |w.history|, |next|);
        }
      }
    } else {
      assert multiset(next)[provider] > Quota(maxShare, |next|);
    }
  }

  /** A selection is allowed exactly when, after it, the provider holds less than one entry over its share. */
  lemma AllowedExactly(w: Window, provider: string, maxShare: real)
    requires WellFormed(w)
    ensures var next := Slide(w.history, w.capacity, provider);
            AllowsNext(w, provider, maxShare) <==>
            multiset(next)[provider] as real < maxShare * |next| as real + 1.0
  {
    AllowedByCount(w, provider, maxShare);
    hide IsIndex, Slide, AllowsNext, WellFormed, Ceil;
    var next := Slide(w.history, w.capacity, provider);
    WithinCeil(multiset(next)[provider], maxShare * |next| as real);
  }

  lemma AllowedByCount(w: Window, provider: string, maxShare: real)
    requires WellFormed(w)
    ensures var next := Slide(w.history, w.capacity, provider);
            AllowsNext(w, provider, maxShare) <==> multiset(next)[provider] <= Quota(maxShare, |next|)
  {
    NextCount(w, provider);
    hide IsIndex, Quota, Slide, Surviving;
  }

  lemma WithinCeil(n: int, x: real)
    ensures n <= Ceil(x) <==> n as real < x + 1.0
  {
    CeilLaws(x, x);
    hide Ceil;
  }

  /** The quota is the least whole number of entries that is not below the share. */
  lemma QuotaExactly(maxShare: real, length: nat, quota: int)
    ensures Quota(maxShare, length) == quota <==>
            quota as real - 1.0 < maxShare * length as real <= quota as real
  {
    CeilLaws(maxShare * length as real, maxShare * length as real);
    hide Ceil;
  }

  // --------------------------------------------------------------------- runs

  /** The tracker that holds a given history. */
  ghost function Holding(capacity: nat, history: seq<string>): Window {
    Window(capacity, history, map p | p in multiset(history) :: multiset(history)[p])
  }

  lemma TrackersHoldHistories(w: Window)
    requires WellFormed(w)
    ensures w == Holding(w.capacity, w.history)
  {
    assert w.counts == Holding(w.capacity, w.history).counts;
  }

  /** The cap holds now and after each of the selections. */
  ghost predicate QuotaThroughout(capacity: nat, history: seq<string>, providers: seq<string>, maxShare: real)
    decreases |providers|
  {
    && WithinQuota(history, maxShare)
    && (providers != [] ==>
          QuotaThroughout(capacity, Slide(history, capacity, providers[0]), providers[1..], maxShare))
  }

  /** Each selection was allowed when it was made. */
  ghost predicate AllAllowed(capacity: nat, history: seq<string>, providers: seq<string>, maxShare: real)
    decreases |providers|
  {
    providers == []
    || (&& AllowsNext(Holding(capacity, history), providers[0], maxShare)
        && AllAllowed(capacity, Slide(history, capacity, providers[0]), providers[1..], maxShare))
  }

  /** For any selections at all, the cap holds throughout exactly when every one of them was allowed. */
  lemma {:induction false} RunKeepsQuotaIffAllowed(capacity: nat, history: seq<string>, providers: seq<string>,
                                                   maxShare: real)
    requires capacity > 0 && |history| <= capacity && ValidShare(maxShare) && WithinQuota(history, maxShare)
    ensures QuotaThroughout(capacity, history, providers, maxShare)
       <==> AllAllowed(capacity, history, providers, maxShare)
    decreases |providers|
  {
    if providers != [] {
      RecordKeepsQuotaIffAllowed(Holding(capacity, history), providers[0], maxShare);
      var next := Slide(history, capacity, providers[0]);
      if WithinQuota(next, maxShare) {
        RunKeepsQuotaIffAllowed(capacity, next, providers[1..], maxShare);
      }
    }
  }

  datatype Request = Request(candidates: seq<Candidate>, draw: Draw)

  /** The providers that a run of default requests selects; a request without a provider records nothing. */
  ghost function DefaultRun(capacity: nat, history: seq<string>, requests: seq<Request>, policy: Policy): seq<string>
    decreases |requests|
  {
    if requests == [] then []
    else
      match SelectDefault(requests[0].candidates, policy, Holding(capacity, history), requests[0].draw)
      case None => DefaultRun(capacity, history, requests[1..], policy)
      case Some(c) => [c.id] + DefaultRun(capacity, Slide(history, capacity, c.id), requests[1..], policy)
  }

  /** A default selection is eligible, and is missing only when no candidate is. */
  lemma DefaultPicksEligible(candidates: seq<Candidate>, policy: Policy, w: Window, u: Draw)
    ensures match SelectDefault(candidates, policy, w, u)
            case None => forall c <- candidates :: !Qualifies(c, Default, policy, w)
            case Some(c) => c in candidates && Qualifies(c, Default, policy, w)
  {
    hide AllowsNext, WeightedPick, Weights, MinBy, Incumbent;
    var eligible := Filter(candidates, (c: Candidate) => IsEligible(c, policy, w));
    assert forall c <- candidates :: IsEligible(c, policy, w) ==> c in eligible;
  }

  /** Every run of default requests keeps every provider within the quota at every step. */
  lemma {:induction false} DefaultRunKeepsQuota(capacity: nat, history: seq<string>, requests: seq<Request>,
                                                policy: Policy)
    requires capacity > 0 && |history| <= capacity && ValidPolicy(policy) && WithinQuota(history, policy.maxShare)
    ensures QuotaThroughout(capacity, history, DefaultRun(capacity, history, requests, policy), policy.maxShare)
    decreases |requests|
  {
    hide SelectDefault;
    if requests != [] {
      var w := Holding(capacity, history);
      var request := requests[0];
      DefaultPicksEligible(request.candidates, policy, w, request.draw);
      match SelectDefault(request.candidates, policy, w, request.draw)
      case None => DefaultRunKeepsQuota(capacity, history, requests[1..], policy);
      case Some(c) =>
        RecordKeepsQuotaIffAllowed(w, c.id, policy.maxShare);
        var next := Slide(history, capacity, c.id);
        DefaultRunKeepsQuota(capacity, next, requests[1..], policy);
        var others := DefaultRun(capacity, next, requests[1..], policy);
        assert ([c.id] + others)[1..] == others;
    }
  }

  /** In a full window whose size makes the share a whole number of entries, the share itself is respected. */
  lemma FullWindowShareIsExact(w: Window, provider: string, maxShare: real, allowed: nat)
    requires WellFormed(w) && ValidShare(maxShare) && WithinQuota(w.history, maxShare)
    requires |w.history| == w.capacity && maxShare * w.capacity as real == allowed as real
    ensures Share(w, provider) <= maxShare
  {
    hide IsIndex;
    CountIsExact(w, provider);
    CeilOfWhole(allowed);
    ShareFromCount(Count(w, provider), allowed, w.capacity, maxShare);
  }

  lemma CeilOfWhole(n: nat)
    ensures Ceil(n as real) == n
  {}

  lemma ShareFromCount(count: nat, allowed: nat, capacity: nat, maxShare: real)
    requires capacity > 0 && count <= allowed && maxShare * capacity as real == allowed as real
    ensures count as real / capacity as real <= maxShare
  {
    assert count as real / capacity as real * capacity as real == count as real;
  }

  /**
   * The cap is the default preference's alone: under every other preference, a single healthy provider is selected
   * for a second request whatever is drawn, although the tracker refuses it and the quota is then exceeded.
   */
  lemma OtherRunsExceedQuota(preference: Preference)
    requires !preference.Default?
    ensures exists c, policy ::
              && ValidPolicy(policy) && ValidCandidate(c)
              && (forall u: Draw :: SelectRoute([c], preference, policy, Holding(4, []), u) == Some(c))
              && (forall u: Draw :: SelectRoute([c], preference, policy, Holding(4, [c.id]), u) == Some(c))
              && !AllowsNext(Holding(4, [c.id]), c.id, policy.maxShare)
              && !WithinQuota(Slide(Slide([], 4, c.id), 4, c.id), policy.maxShare)
  {
    var c, policy := Candidate("a", 0.0, 0, None, true), Policy(1.0, 0.0, 0.5);
    forall u: Draw, w: Window ensures SelectRoute([c], preference, policy, w, u) == Some(c) {
      OnlyCandidateIsSelected(c, preference, policy, w, u);
    }
    SecondSelectionExceedsHalf();
    hide SelectRoute;
  }

  lemma OnlyCandidateIsSelected(c: Candidate, preference: Preference, policy: Policy, w: Window, u: Draw)
    requires !preference.Default? && c.healthy && ValidCandidate(c)
    ensures SelectRoute([c], preference, policy, w, u) == Some(c)
  {
    assert DistinctIds([c]) && AllValid([c]);
    SelectionLeads([c], preference, policy, w, u);
    hide SelectRoute;
  }

  lemma SecondSelectionExceedsHalf()
    ensures !AllowsNext(Holding(4, ["a"]), "a", 0.5)
    ensures !WithinQuota(Slide(Slide([], 4, "a"), 4, "a"), 0.5)
  {
    assert multiset(["a"])["a"] == 1;
    assert Quota(0.5, 2) == 1;
    assert Slide(Slide([], 4, "a"), 4, "a") == ["a", "a"];
    assert multiset(["a", "a"])["a"] == 2;
  }

  // ----------------------------------------------------------------- progress

  /** The part of `length` entries that a share stands for. */
  function Fraction(share: real, length: nat): real {
    share * length as real
  }

  function CountAll(ids: seq<string>, history: seq<string>): nat {
    if ids == [] then 0 else multiset(history)[ids[0]] + CountAll(ids[1..], history)
  }

  predicate Distinct(ids: seq<string>) {
    forall i, j :: 0 <= i < j < |ids| ==> ids[i] != ids[j]
  }

  lemma {:induction false} OneEntryCountsOnce(ids: seq<string>, entry: string, history: seq<string>)
    requires Distinct(ids)
    ensures CountAll(ids, [entry] + history) <= CountAll(ids, history) + 1
    ensures entry !in ids ==> CountAll(ids, [entry] + history) == CountAll(ids, history)
  {
    if ids != [] {
      OneEntryCountsOnce(ids[1..], entry, history);
      assert ids == [ids[0]] + ids[1..];
    }
  }

  /** Distinct providers share the entries of a history between them. */
  lemma {:induction false} CountsFitHistory(ids: seq<string>, history: seq<string>)
    requires Distinct(ids)
    ensures CountAll(ids, history) <= |history|
  {
    if history == [] {
      NothingToCount(ids);
    } else {
      OneEntryCountsOnce(ids, history[0], history[1..]);
      CountsFitHistory(ids, history[1..]);
      assert history == [history[0]] + history[1..];
    }
  }

  lemma {:induction false} NothingToCount(ids: seq<string>)
    ensures CountAll(ids, []) == 0
  {
    if ids != [] { NothingToCount(ids[1..]); }
  }

  lemma {:induction false} CountsAddUp(ids: seq<string>, history: seq<string>, each: real)
    requires forall i :: 0 <= i < |ids| ==> multiset(history)[ids[i]] as real >= each
    ensures CountAll(ids, history) as real >= Fraction(each, |ids|)
  {
    if ids != [] {
      CountsAddUp(ids[1..], history, each);
      assert Fraction(each, |ids|) == Fraction(each, |ids| - 1) + each;
    }
  }

  lemma RefusedHoldsItsShare(w: Window, id: string, maxShare: real)
    requires WellFormed(w) && !AllowsNext(w, id, maxShare)
    ensures multiset(Surviving(w.history, w.capacity))[id] as real >= Fraction(maxShare, NextLength(w))
  {
    NextCount(w, id);
    CeilLaws(Fraction(maxShare, NextLength(w)), Fraction(maxShare, NextLength(w)));
  }

  /** Distinct providers with enough quota between them cannot all be over it: one is allowed next. */
  lemma SomeProviderIsAllowed(w: Window, ids: seq<string>, maxShare: real)
    requires WellFormed(w) && ValidShare(maxShare)
    requires Distinct(ids) && Fraction(maxShare, |ids|) >= 1.0
    ensures exists i :: 0 <= i < |ids| && AllowsNext(w, ids[i], maxShare)
  {
    hide AllowsNext, Fraction;
    var left := Surviving(w.history, w.capacity);
    var each := Fraction(maxShare, NextLength(w));
    if forall i :: 0 <= i < |ids| ==> !AllowsNext(w, ids[i], maxShare) {
      forall i | 0 <= i < |ids| ensures multiset(left)[ids[i]] as real >= each {
        RefusedHoldsItsShare(w, ids[i], maxShare);
      }
      NextCount(w, "");
      CountsAddUp(ids, left, each);
      CountsFitHistory(ids, left);
      EnoughShares(|ids|, maxShare, NextLength(w));
      assert false;
    }
  }

  lemma EnoughShares(n: nat, maxShare: real, length: nat)
    requires Fraction(maxShare, n) >= 1.0
    ensures Fraction(Fraction(maxShare, length), n) >= length as real
  {
    assert Fraction(Fraction(maxShare, length), n) == Fraction(maxShare, n) * length as real;
  }

  /** Whatever the window holds, enough healthy and affordable providers always leave one to select. */
  lemma DefaultSelectionProgresses(candidates: seq<Candidate>, policy: Policy, w: Window, u: Draw,
                                   affordable: seq<Candidate>)
    requires WellFormed(w) && ValidPolicy(policy) && DistinctIds(affordable)
    requires forall c <- affordable :: c in candidates && c.healthy && c.price <= policy.ceiling
    requires Fraction(policy.maxShare, |affordable|) >= 1.0
    ensures SelectDefault(candidates, policy, w, u).Some?
  {
    hide SelectDefault;
    var ids := seq(|affordable|, i requires 0 <= i < |affordable| => affordable[i].id);
    SomeProviderIsAllowed(w, ids, policy.maxShare);
    var i :| 0 <= i < |ids| && AllowsNext(w, ids[i], policy.maxShare);
    assert affordable[i] in affordable;
    assert Qualifies(affordable[i], Default, policy, w);
    DefaultPicksEligible(candidates, policy, w, u);
  }
}
