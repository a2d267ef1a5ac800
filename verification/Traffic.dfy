/** Whole runs of routed requests over every profile and model: what each window remembers, and which keep the quota. */
module Traffic {
  import opened ShareTracker
  import opened Select
  import opened Plans
  import opened ShareSafety
  import opened Requests
  import opened Routing

  predicate AreProper(service: Service, calls: seq<Call>) {
    forall i :: 0 <= i < |calls| ==> IsProper(service, calls[i])
  }

  /** The windows after a run of requests. */
  ghost function RunOf(service: Service, shares: ShareTable, calls: seq<Call>): ShareTable
    requires AreProper(service, calls)
    decreases |calls|
  {
    if calls == [] then shares else RunOf(service, Remember(service, shares, calls[0]), calls[1..])
  }

  /** The request is accepted and counts for this key. */
  ghost predicate SelectsFor(service: Service, shares: ShareTable, call: Call, key: RouteKey)
    requires IsProper(service, call)
  {
    match Respond(service, shares, call)
    case Err(_) => false
    case Ok(decision) => key == RouteKey(call.profile, decision.canonicalModel)
  }

  /** The providers that a run selects for one key, in order. */
  ghost function Selections(service: Service, shares: ShareTable, calls: seq<Call>, key: RouteKey): seq<string>
    requires AreProper(service, calls)
    decreases |calls|
  {
    if calls == [] then []
    else
      var later := Selections(service, Remember(service, shares, calls[0]), calls[1..], key);
      if SelectsFor(service, shares, calls[0], key)
      then [Respond(service, shares, calls[0]).value.selectedProvider] + later
      else later
  }

  /** Every request that selects for the key does so under the default preference; other keys may do as they like. */
  ghost predicate OnlyDefaultFor(service: Service, shares: ShareTable, calls: seq<Call>, key: RouteKey)
    requires AreProper(service, calls)
    decreases |calls|
  {
    calls != [] ==>
      && (SelectsFor(service, shares, calls[0], key) ==> Prepare(calls[0].request).value.preference == Default)
      && OnlyDefaultFor(service, Remember(service, shares, calls[0]), calls[1..], key)
  }

  /** The window that holds a history after further selections. */
  function SlideAll(history: seq<string>, capacity: nat, providers: seq<string>): seq<string>
    decreases |providers|
  {
    if providers == [] then history else SlideAll(Slide(history, capacity, providers[0]), capacity, providers[1..])
  }

  lemma HistoryAfterCall(service: Service, shares: ShareTable, call: Call, key: RouteKey)
    requires IsProper(service, call)
    ensures HistoryOf(Remember(service, shares, call), key)
         == if SelectsFor(service, shares, call, key)
            then Slide(HistoryOf(shares, key), service.shareWindow,
                       Respond(service, shares, call).value.selectedProvider)
            else HistoryOf(shares, key)
  {
    hide Respond, Slide, IsProper;
  }

  /** A window remembers exactly the selections for its own key, whatever happens on the others. */
  lemma {:induction false} WindowsAreIndependent(service: Service, shares: ShareTable, calls: seq<Call>, key: RouteKey)
    requires AreProper(service, calls)
    ensures HistoryOf(RunOf(service, shares, calls), key)
         == SlideAll(HistoryOf(shares, key), service.shareWindow, Selections(service, shares, calls, key))
    decreases |calls|
  {
    hide Respond, Remember, Slide, IsProper, SelectsFor;
    if calls != [] {
      HistoryAfterCall(service, shares, calls[0], key);
      WindowsAreIndependent(service, Remember(service, shares, calls[0]), calls[1..], key);
      var later := Selections(service, Remember(service, shares, calls[0]), calls[1..], key);
      if SelectsFor(service, shares, calls[0], key) {
        PrependSelection(HistoryOf(shares, key), service.shareWindow,
                         SelectedIn(service, shares, calls[0], key), later);
      }
    }
  }

  ghost function SelectedIn(service: Service, shares: ShareTable, call: Call, key: RouteKey): string
    requires IsProper(service, call) && SelectsFor(service, shares, call, key)
  {
    Respond(service, shares, call).value.selectedProvider
  }

  lemma PrependSelection(history: seq<string>, capacity: nat, provider: string, later: seq<string>)
    ensures SlideAll(history, capacity, [provider] + later)
         == SlideAll(Slide(history, capacity, provider), capacity, later)
  {
    hide Slide;
    assert ([provider] + later)[1..] == later;
  }

  /** A default request that selects for the key was allowed by the key's window. */
  lemma DefaultCallIsAllowed(service: Service, shares: ShareTable, call: Call, key: RouteKey)
    requires IsProper(service, call) && SelectsFor(service, shares, call, key)
    requires Prepare(call.request).value.preference == Default
    ensures AllowsNext(Holding(service.shareWindow, HistoryOf(shares, key)),
                       SelectedIn(service, shares, call, key), service.policy.maxShare)
  {
    hide AllowsNext, Holding, Candidates, SelectDefault, Prepare;
    var prepared := Prepare(call.request).value;
    var plan := PlanFor(service, key, HistoryOf(shares, key), call, prepared);
    assert Respond(service, shares, call) == Decide(plan, call.profile, prepared.canonicalModel);
    var candidates := Candidates(service.routes[key], key, Demand(call.endpoint, prepared.stream, prepared.topP),
                                 call.measured);
    var window := Holding(service.shareWindow, HistoryOf(shares, key));
    DefaultPicksEligible(candidates, service.policy, window, call.draws(0));
    FirstPlanned(candidates, Default, service.policy, window, call.draws);
  }

  lemma FirstPlanned(candidates: seq<Candidate>, preference: Preference, policy: Policy, window: Window,
                     draws: nat -> Draw)
    ensures var plan := Plan(candidates, preference, policy, window, draws, 0);
            var picked := SelectRoute(candidates, preference, policy, window, draws(0));
            (picked.Some? <==> plan != []) && (picked.Some? ==> plan[0] == picked.value)
  {
    hide SelectRoute;
  }

  /**
   * For every run of requests over any keys, and every key: its window holds exactly its own selections, and when
   * these were all made by default requests, every provider stays within the quota at every step.
   */
  lemma {:induction false} DefaultTrafficKeepsQuota(service: Service, shares: ShareTable, calls: seq<Call>,
                                                    key: RouteKey)
    requires AreProper(service, calls) && service.shareWindow > 0 && ValidPolicy(service.policy)
    requires |HistoryOf(shares, key)| <= service.shareWindow
    requires WithinQuota(HistoryOf(shares, key), service.policy.maxShare)
    requires OnlyDefaultFor(service, shares, calls, key)
    ensures var selections := Selections(service, shares, calls, key);
            && HistoryOf(RunOf(service, shares, calls), key)
               == SlideAll(HistoryOf(shares, key), service.shareWindow, selections)
            && QuotaThroughout(service.shareWindow, HistoryOf(shares, key), selections, service.policy.maxShare)
    decreases |calls|
  {
    WindowsAreIndependent(service, shares, calls, key);
    hide Holding, Respond, Remember, IsProper, SelectsFor, Prepare, RunOf, SlideAll, WithinQuota, AllowsNext;
    hide Slide, HistoryOf;
    if calls != [] {
      var call, next := calls[0], Remember(service, shares, calls[0]);
      HistoryAfterCall(service, shares, call, key);
      if SelectsFor(service, shares, call, key) {
        var picked, history := SelectedIn(service, shares, call, key), HistoryOf(shares, key);
        DefaultCallIsAllowed(service, shares, call, key);
        AllowedStepKeepsQuota(service.shareWindow, history, picked, service.policy.maxShare);
        DefaultTrafficKeepsQuota(service, next, calls[1..], key);
        var later := Selections(service, next, calls[1..], key);
        assert ([picked] + later)[1..] == later;
      } else {
        DefaultTrafficKeepsQuota(service, next, calls[1..], key);
      }
    }
  }

  lemma AllowedStepKeepsQuota(capacity: nat, history: seq<string>, provider: string, maxShare: real)
    requires capacity > 0 && |history| <= capacity && ValidShare(maxShare) && WithinQuota(history, maxShare)
    requires AllowsNext(Holding(capacity, history), provider, maxShare)
    ensures WithinQuota(Slide(history, capacity, provider), maxShare)
    ensures |Slide(history, capacity, provider)| <= capacity
  {
    RecordKeepsQuotaIffAllowed(Holding(capacity, history), provider, maxShare);
    hide WithinQuota, AllowsNext;
  }

  /** Runs that start from the same histories answer and remember the same. */
  lemma {:induction false} HistoriesDecide(service: Service, a: ShareTable, b: ShareTable, calls: seq<Call>,
                                           key: RouteKey)
    requires AreProper(service, calls) && SameHistories(a, b)
    ensures Selections(service, a, calls, key) == Selections(service, b, calls, key)
    ensures SameHistories(RunOf(service, a, calls), RunOf(service, b, calls))
    decreases |calls|
  {
    hide PlanFor, Prepare, Decide, Slide, Holding, IsProper;
    if calls != [] {
      assert Respond(service, a, calls[0]) == Respond(service, b, calls[0]);
      forall other
        ensures HistoryOf(Remember(service, a, calls[0]), other) == HistoryOf(Remember(service, b, calls[0]), other)
      {
        HistoryAfterCall(service, a, calls[0], other);
        HistoryAfterCall(service, b, calls[0], other);
      }
      HistoriesDecide(service, Remember(service, a, calls[0]), Remember(service, b, calls[0]), calls[1..], key);
    }
  }
}
