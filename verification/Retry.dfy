/** Sends a request along its planned chain until a provider answers with something final. */
module Retry {
  import opened Json
  import opened ShareTracker
  import opened Select
  import opened Ranking
  import opened Plans
  import opened Requests
  import opened Routing

  datatype Attempt = Response(status: nat) | TransportError

  predicate IsRetryable(attempt: Attempt) {
    match attempt
    case TransportError => true
    case Response(status) => status == 429 || 500 <= status < 600
  }

  /** Worth another provider: no answer, too many requests, or a server error. */
  predicate CallsForAnother(attempt: Attempt) {
    attempt == TransportError || attempt == Response(429) || (attempt.Response? && 500 <= attempt.status <= 599)
  }

  /**
   * `answers(k)` is what attempt `k` meets. The bodies sent are the request for a prefix of the chain; every answer
   * but the last was retryable; the chain stops early only at a final answer; and the last answer is returned.
   */
  ghost predicate IsDelivery(request: Json, fallbackModels: seq<string>, answers: nat -> Attempt,
                             upstream: Attempt, sent: seq<Json>)
  {
    && 1 <= |sent| <= |fallbackModels| + 1
    && sent[0] == request
    && (forall i :: 1 <= i < |sent| ==> sent[i] == WithModel(request, fallbackModels[i - 1]))
    && upstream == answers(|sent| - 1)
    && (forall i :: 0 <= i < |sent| - 1 ==> CallsForAnother(answers(i)))
    && (|sent| < |fallbackModels| + 1 ==> !CallsForAnother(upstream))
  }

  /** Sends the request along its chain. */
  method SendSelectedThenFallback(request: Json, fallbackModels: seq<string>, answers: nat -> Attempt)
    returns (upstream: Attempt, sent: seq<Json>)
    ensures IsDelivery(request, fallbackModels, answers, upstream, sent)
  {
    var current := request;
    upstream, sent := answers(0), [request];
    for i := 0 to |fallbackModels|
      invariant |sent| == i + 1 && sent[0] == request
      invariant forall j :: 1 <= j < |sent| ==> sent[j] == WithModel(request, fallbackModels[j - 1])
      invariant forall model :: WithModel(current, model) == WithModel(request, model)
      invariant upstream == answers(i)
      invariant forall j :: 0 <= j < i ==> IsRetryable(answers(j))
    {
      if !IsRetryable(upstream) {
        return;
      }
      WithModelTwice(current, fallbackModels[i]);
      current := WithModel(current, fallbackModels[i]);
      sent := sent + [current];
      upstream := answers(i + 1);
    }
  }

  lemma WithModelTwice(request: Json, first: string)
    ensures forall second :: WithModel(WithModel(request, first), second) == WithModel(request, second)
  {
    forall second ensures WithModel(WithModel(request, first), second) == WithModel(request, second) {
      if request.Obj? {
        assert request.fields["model" := Str(first)]["model" := Str(second)] == request.fields["model" := Str(second)];
      }
    }
  }

  /**
   * The chain of a decision is the plan, in order, each provider once: no provider is contacted twice, every
   * compatible route that qualifies is in it, and whoever is tried earlier may precede whoever is tried later. Only the
   * default preference leaves any compatible route out.
   */
  lemma DecisionContactsEachProviderOnce(
    descriptors: seq<RouteDescriptor>, key: RouteKey, demand: Demand, measured: map<Smoothing.Key, Measurements>,
    preference: Preference, policy: Policy, window: Window, draws: nat -> Draw)
    requires ArePriced(descriptors) && AreDistinct(descriptors) && Smoothing.AllNonNegative(measured)
    ensures var candidates := Candidates(descriptors, key, demand, measured);
            var plan := Plan(candidates, preference, policy, window, draws, 0);
            match Decide(plan, key.profile, key.slug)
            case Err(_) => Qualified(candidates, preference, policy, window) == []
            case Ok(decision) =>
              var models := [ModelOf(decision.selectedProvider, key.slug)] + decision.fallbackModels;
              && models == ModelsOf(plan, key.slug)
              && (forall i, j :: 0 <= i < j < |models| ==> models[i] != models[j])
              && IsOrdered(plan, preference)
              && multiset(plan) == multiset(Qualified(candidates, preference, policy, window))
              && (!preference.Default? ==> multiset(plan) == multiset(candidates))
              && decision.hasAlternatives == (decision.fallbackModels != [])
  {
    hide MayPrecede, SelectRoute, IsEligible, Plan, Filter;
    var candidates := Candidates(descriptors, key, demand, measured);
    if !preference.Default? {
      AllKept(candidates, (c: Candidate) => Qualifies(c, preference, policy, window));
    }
    CandidatesAreDistinct(descriptors, key, demand, measured);
    PlanIsOrderedPermutation(candidates, preference, policy, window, draws, 0);
    var plan := Plan(candidates, preference, policy, window, draws, 0);
    PlannedModels(plan, key.profile, key.slug);
    if plan == [] {
      assert |multiset(Qualified(candidates, preference, policy, window))| == 0;
      assert |Qualified(candidates, preference, policy, window)| == 0;
    }
  }

  lemma PlannedModels(plan: seq<Candidate>, profile: Registry.RoutingProfile, canonical: string)
    requires DistinctIds(plan)
    ensures var models := ModelsOf(plan, canonical);
            forall i, j :: 0 <= i < j < |models| ==> models[i] != models[j]
    ensures plan != [] ==>
              var decision := Decide(plan, profile, canonical).value;
              [ModelOf(decision.selectedProvider, canonical)] + decision.fallbackModels == ModelsOf(plan, canonical)
  {
    forall i, j | 0 <= i < j < |plan| ensures ModelOf(plan[i].id, canonical) != ModelOf(plan[j].id, canonical) {
      ModelOfIsInjective(plan[i].id, plan[j].id, canonical);
    }
  }
}
