/** What a client's request decides: its model and preference, read off the JSON, and the chain they lead to. */
module Decisions {
  import opened Basics
  import opened Registry
  import opened Json
  import opened ShareTracker
  import opened Select
  import opened Ranking
  import opened Plans
  import opened ShareSafety
  import opened Requests
  import opened Routing

  ghost predicate MayServe(c: Candidate, service: Service, shares: ShareTable, call: Call, prepared: Prepared,
                           key: RouteKey)
    requires key in service.routes
  {
    && HasRoute(c, service.routes[key], key, Demand(call.endpoint, prepared.stream, prepared.topP), call.measured)
    && (prepared.preference == Default ==>
          c.price <= service.policy.ceiling
          && AllowsNext(Holding(service.shareWindow, HistoryOf(shares, key)), c.id, service.policy.maxShare))
  }

  /** Every provider that may serve, once, in the order of the preference. */
  ghost predicate IsChain(plan: seq<Candidate>, service: Service, shares: ShareTable, call: Call, prepared: Prepared,
                          key: RouteKey)
    requires key in service.routes
  {
    && DistinctIds(plan) && IsOrdered(plan, prepared.preference)
    && forall c: Candidate :: c in plan <==> MayServe(c, service, shares, call, prepared, key)
  }

  /** The decision names the chain: the first provider, then the model strings of the others. */
  ghost predicate Names(decision: RouteDecision, plan: seq<Candidate>, profile: RoutingProfile, canonical: string) {
    && plan != []
    && decision.profile == profile && decision.canonicalModel == canonical
    && decision.selectedProvider == plan[0].id
    && |decision.fallbackModels| == |plan| - 1
    && (forall i :: 1 <= i < |plan| ==> decision.fallbackModels[i - 1] == plan[i].id + "/" + canonical)
    && (decision.hasAlternatives <==> |plan| > 1)
  }

  lemma DecisionNamesPlan(plan: seq<Candidate>, profile: RoutingProfile, canonical: string)
    requires plan != []
    ensures Decide(plan, profile, canonical).Ok?
    ensures Names(Decide(plan, profile, canonical).value, plan, profile, canonical)
  {
    forall i | 1 <= i < |plan| ensures ModelsOf(plan[1..], canonical)[i - 1] == plan[i].id + "/" + canonical {
      assert plan[1..][i - 1] == plan[i];
    }
  }

  lemma PlannedAreQualified(candidates: seq<Candidate>, preference: Preference, policy: Policy, window: Window,
                            draws: nat -> Draw)
    requires DistinctIds(candidates) && AllValid(candidates)
    ensures var plan := Plan(candidates, preference, policy, window, draws, 0);
            && DistinctIds(plan) && IsOrdered(plan, preference)
            && forall c: Candidate :: c in plan <==> c in candidates && Qualifies(c, preference, policy, window)
  {
    PlanIsOrderedPermutation(candidates, preference, policy, window, draws, 0);
    hide Plan, DistinctIds, IsOrdered, Qualifies;
    var plan := Plan(candidates, preference, policy, window, draws, 0);
    forall c: Candidate ensures c in plan <==> c in candidates && Qualifies(c, preference, policy, window) {
      assert c in plan <==> c in multiset(plan);
    }
  }

  lemma PlanIsChain(service: Service, shares: ShareTable, call: Call, prepared: Prepared, key: RouteKey)
    requires IsProper(service, call) && key in service.routes && AreDistinct(service.routes[key])
    requires key == RouteKey(call.profile, prepared.canonicalModel)
    ensures IsChain(PlanFor(service, key, HistoryOf(shares, key), call, prepared), service, shares, call, prepared, key)
  {
    var demand := Demand(call.endpoint, prepared.stream, prepared.topP);
    var window := Holding(service.shareWindow, HistoryOf(shares, key));
    var candidates := Candidates(service.routes[key], key, demand, call.measured);
    CandidatesAreDistinct(service.routes[key], key, demand, call.measured);
    PlannedAreQualified(candidates, prepared.preference, service.policy, window, call.draws);
    hide Plan, Candidates, Holding, Accepts, IsOrdered, DistinctIds, HasRoute, AllowsNext;
    forall c: Candidate ensures MayServe(c, service, shares, call, prepared, key) <==>
                                c in candidates && Qualifies(c, prepared.preference, service.policy, window) {
      CandidatesAreCompatible(service.routes[key], key, demand, call.measured, c);
      if c in candidates { RouteIsHealthy(c, service.routes[key], key, demand, call.measured); }
    }
  }

  lemma RouteIsHealthy(c: Candidate, descriptors: seq<RouteDescriptor>, key: RouteKey, demand: Demand,
                       measured: map<Smoothing.Key, Measurements>)
    requires HasRoute(c, descriptors, key, demand, measured)
    ensures c.healthy
  {
    hide Accepts;
  }

  /**
   * For every request that reads as it does, on distinct routes: the answer is the chain of every provider that may
   * serve it, in the order of the preference it asks for; it is refused exactly when the model is unknown or no
   * provider may serve.
   */
  lemma AnswerFollowsRequest(service: Service, shares: ShareTable, call: Call, prepared: Prepared)
    requires IsProper(service, call) && Reads(call.request, prepared)
    requires var key := RouteKey(call.profile, prepared.canonicalModel);
             key in service.routes ==> AreDistinct(service.routes[key])
    ensures var key := RouteKey(call.profile, prepared.canonicalModel);
            match Respond(service, shares, call)
            case Err(e) =>
              || (e == UnknownModel && key !in service.routes)
              || (e == NoEligibleRoute && key in service.routes
                  && forall c: Candidate :: !MayServe(c, service, shares, call, prepared, key))
            case Ok(decision) =>
              && key in service.routes
              && exists plan: seq<Candidate> ::
                   && IsChain(plan, service, shares, call, prepared, key)
                   && Names(decision, plan, call.profile, prepared.canonicalModel)
  {
    var key := RouteKey(call.profile, prepared.canonicalModel);
    PreparesExactly(call.request, prepared);
    hide Reads, Prepare, PlanFor, IsProper;
    if key in service.routes {
      PlanIsChain(service, shares, call, prepared, key);
      var plan := PlanFor(service, key, HistoryOf(shares, key), call, prepared);
      hide MayServe, DistinctIds, IsOrdered, Names;
      assert Respond(service, shares, call) == Decide(plan, call.profile, prepared.canonicalModel);
      assert IsChain(plan, service, shares, call, prepared, key);
      if plan != [] { DecisionNamesPlan(plan, call.profile, prepared.canonicalModel); }
    }
  }

  /** A request that is not read is refused for the first of its faults. */
  lemma FaultIsAnswered(service: Service, shares: ShareTable, call: Call)
    requires IsProper(service, call)
    ensures var answer, request := Respond(service, shares, call), call.request;
            var fine := !NamesProviders(request) && HasTopP(request) && HasStream(request);
            var hasModel := Get(request, "model").Some? && Get(request, "model").value.Str?;
            && (answer == Err(UnsupportedProviderOverride) <==> NamesProviders(request))
            && (answer == Err(InvalidTopP) <==> !NamesProviders(request) && !HasTopP(request))
            && (answer == Err(InvalidStream) <==> !NamesProviders(request) && HasTopP(request) && !HasStream(request))
            && (answer == Err(InvalidModel) <==> fine && !hasModel)
            && (answer == Err(InvalidSort) <==>
                fine && hasModel && SortOf(request).Some?
                && !exists preference :: IsSort(SortOf(request).value, preference))
  {
    RejectsExactly(call.request);
    hide Prepare, PlanFor, NamesProviders, HasTopP, HasStream, SortOf, IsSort;
  }

  /** The suffixes and sorts, spelled out: what a request for `canonical` with each of them reads as. */
  lemma SuffixesAndSorts(request: Json, canonical: string, stream: bool, topP: Option<real>)
    requires request.Obj? && !NamesProviders(request) && ReadsTopP(request, topP) && ReadsStream(request, stream)
    ensures Get(request, "model") == Some(Str(canonical + ":nitro")) && SortOf(request) == None ==>
              Reads(request, Prepared(canonical, Throughput, stream, topP))
    ensures Get(request, "model") == Some(Str(canonical + ":floor")) && SortOf(request) == None ==>
              Reads(request, Prepared(canonical, Price, stream, topP))
    ensures Get(request, "model") == Some(Str(canonical))
            && !EndsIn(canonical, ":nitro") && !EndsIn(canonical, ":floor") && SortOf(request) == None ==>
              Reads(request, Prepared(canonical, Default, stream, topP))
    ensures Get(request, "model") == Some(Str(canonical + ":nitro")) && SortOf(request) == Some(Str("price")) ==>
              Reads(request, Prepared(canonical, Price, stream, topP))
    ensures Get(request, "model") == Some(Str(canonical + ":floor")) && SortOf(request) == Some(Str("throughput")) ==>
              Reads(request, Prepared(canonical, Throughput, stream, topP))
    ensures Get(request, "model") == Some(Str(canonical + ":floor")) && SortOf(request) == Some(Str("latency")) ==>
              Reads(request, Prepared(canonical, Latency, stream, topP))
  {
    hide NamesProviders, ReadsTopP, ReadsStream, SortOf, EndsIn;
    forall suffixed: Preference | ReadsModel(request, canonical, suffixed)
      ensures SortOf(request) == None ==> Reads(request, Prepared(canonical, suffixed, stream, topP))
    {
    }
    SortWins(request, canonical, Throughput, stream, topP, Price);
    SortWins(request, canonical, Price, stream, topP, Throughput);
    SortWins(request, canonical, Price, stream, topP, Latency);
  }

  /** A valid sort wins over any suffix. */
  lemma SortWins(request: Json, canonical: string, suffixed: Preference, stream: bool, topP: Option<real>,
                 sorted: Preference)
    requires !NamesProviders(request) && ReadsTopP(request, topP) && ReadsStream(request, stream)
    ensures ReadsModel(request, canonical, suffixed)
            && SortOf(request).Some? && IsSort(SortOf(request).value, sorted) ==>
              Reads(request, Prepared(canonical, sorted, stream, topP))
  {}
}
