/** Routes one request: filters the candidates, plans the fallback chain, and records the selection. */
module Routing {
  import opened Basics
  import opened Json
  import opened Registry
  import opened ShareTracker
  import opened Select
  import opened Ranking
  import opened Plans
  import opened ShareSafety
  import opened Smoothing
  import opened Requests

  datatype RouteDescriptor = RouteDescriptor(
    provider: string, input: real, output: real, priority: nat, constraints: Constraints)

  datatype RouteKey = RouteKey(profile: RoutingProfile, slug: string)

  type RouteTable = map<RouteKey, seq<RouteDescriptor>>

  datatype RouteDecision = RouteDecision(
    profile: RoutingProfile, canonicalModel: string, selectedProvider: string, fallbackModels: seq<string>,
    hasAlternatives: bool)

  datatype CandidateError = NegativeInputPrice | NegativeOutputPrice | InvalidMeasurements

  function NewCandidate(provider: string, input: real, output: real, priority: nat,
                        measurements: Option<Measurements>, healthy: bool): Result<Candidate, CandidateError>
  {
    if input < 0.0 then Err(NegativeInputPrice)
    else if output < 0.0 then Err(NegativeOutputPrice)
    else if measurements.Some? && (measurements.value.throughput < 0.0 || measurements.value.latency < 0.0) then
      Err(InvalidMeasurements)
    else Ok(Candidate(provider, input + output, priority, measurements, healthy))
  }

  predicate ArePriced(descriptors: seq<RouteDescriptor>) {
    forall i :: 0 <= i < |descriptors| ==> descriptors[i].input >= 0.0 && descriptors[i].output >= 0.0
  }

  /** Prices were checked when the table was built. */
  predicate ValidRoutes(routes: RouteTable) {
    forall key :: key in routes ==> ArePriced(routes[key])
  }

  /** Each provider serves the model through one route only. */
  predicate AreDistinct(descriptors: seq<RouteDescriptor>) {
    forall i, j :: 0 <= i < j < |descriptors| ==> descriptors[i].provider != descriptors[j].provider
  }

  datatype Demand = Demand(endpoint: Endpoint, stream: bool, topP: Option<real>)

  /** The candidates of a request: every compatible route, with its current measurements, taken as healthy. */
  function Candidates(descriptors: seq<RouteDescriptor>, key: RouteKey, demand: Demand,
                      measured: map<Smoothing.Key, Measurements>): (candidates: seq<Candidate>)
    requires ArePriced(descriptors)
    requires Smoothing.AllNonNegative(measured)
    ensures AllValid(candidates) && forall c <- candidates :: c.healthy
    ensures forall c <- candidates :: exists i :: 0 <= i < |descriptors| && descriptors[i].provider == c.id
  {
    if descriptors == [] then []
    else
      var route, rest := descriptors[0], Candidates(descriptors[1..], key, demand, measured);
      var measurements := Stored(measured, Smoothing.Key(key.profile, route.provider, key.slug));
      var candidate :=
        NewCandidate(route.provider, route.input, route.output, route.priority, measurements, true).value;
      assert forall c <- rest :: exists i :: 0 <= i < |descriptors| && descriptors[i].provider == c.id by {
        forall c <- rest ensures exists i :: 0 <= i < |descriptors| && descriptors[i].provider == c.id {
          var i :| 0 <= i < |descriptors[1..]| && descriptors[1..][i].provider == c.id;
          assert descriptors[i + 1].provider == c.id;
        }
      }
      if Permits(route.constraints, demand.endpoint, demand.stream, demand.topP)
      then [candidate] + rest else rest
  }

  lemma {:induction false} CandidatesAreDistinct(descriptors: seq<RouteDescriptor>, key: RouteKey, demand: Demand,
                                                 measured: map<Smoothing.Key, Measurements>)
    requires ArePriced(descriptors)
    requires Smoothing.AllNonNegative(measured)
    requires AreDistinct(descriptors)
    ensures DistinctIds(Candidates(descriptors, key, demand, measured))
  {
    if descriptors != [] {
      CandidatesAreDistinct(descriptors[1..], key, demand, measured);
      var rest := Candidates(descriptors[1..], key, demand, measured);
      forall j | 0 <= j < |rest| ensures rest[j].id != descriptors[0].provider {
        assert rest[j] in rest;
      }
    }
  }

  /** The candidate that a route stands for: its combined price, its priority and what was measured for this key. */
  ghost predicate IsCandidateOf(c: Candidate, route: RouteDescriptor, key: RouteKey,
                                measured: map<Smoothing.Key, Measurements>)
  {
    c == Candidate(route.provider, route.input + route.output, route.priority,
                   Stored(measured, Smoothing.Key(key.profile, route.provider, key.slug)), true)
  }

  /**
   * The endpoint is offered, a streaming request meets a streaming route, and a requested `top_p` lies within the
   * bounds of a route that has some.
   */
  predicate Accepts(constraints: Constraints, demand: Demand) {
    && demand.endpoint in constraints.endpoints
    && (!demand.stream || constraints.supportsStreaming)
    && (constraints.topP.None? || demand.topP.None?
        || (constraints.topP.value.min <= demand.topP.value && demand.topP.value <= constraints.topP.value.max))
  }

  ghost predicate HasRoute(c: Candidate, descriptors: seq<RouteDescriptor>, key: RouteKey, demand: Demand,
                           measured: map<Smoothing.Key, Measurements>)
  {
    exists i :: 0 <= i < |descriptors| && IsCandidateOf(c, descriptors[i], key, measured)
      && Accepts(descriptors[i].constraints, demand)
  }

  lemma FirstRouteOrLater(c: Candidate, descriptors: seq<RouteDescriptor>, key: RouteKey, demand: Demand,
                          measured: map<Smoothing.Key, Measurements>)
    requires descriptors != []
    ensures HasRoute(c, descriptors, key, demand, measured) <==>
            || HasRoute(c, descriptors[1..], key, demand, measured)
            || (IsCandidateOf(c, descriptors[0], key, measured)
                && Accepts(descriptors[0].constraints, demand))
  {
    hide Accepts, IsCandidateOf;
    var rest := descriptors[1..];
    if HasRoute(c, rest, key, demand, measured) {
      var i :| 0 <= i < |rest| && IsCandidateOf(c, rest[i], key, measured)
               && Accepts(rest[i].constraints, demand);
      assert descriptors[i + 1] == rest[i];
    }
    if HasRoute(c, descriptors, key, demand, measured) {
      var i :| 0 <= i < |descriptors| && IsCandidateOf(c, descriptors[i], key, measured)
               && Accepts(descriptors[i].constraints, demand);
      if i > 0 { assert rest[i - 1] == descriptors[i]; }
    }
  }

  /** Exactly the routes that permit the request become candidates. */
  lemma {:induction false} CandidatesAreCompatible(descriptors: seq<RouteDescriptor>, key: RouteKey, demand: Demand,
                                                   measured: map<Smoothing.Key, Measurements>, c: Candidate)
    requires ArePriced(descriptors) && Smoothing.AllNonNegative(measured)
    ensures c in Candidates(descriptors, key, demand, measured) <==> HasRoute(c, descriptors, key, demand, measured)
  {
    if descriptors != [] {
      var first, rest := descriptors[0], descriptors[1..];
      CandidatesAreCompatible(rest, key, demand, measured, c);
      FirstRouteOrLater(c, descriptors, key, demand, measured);
      assert Accepts(first.constraints, demand)
          <==> Permits(first.constraints, demand.endpoint, demand.stream, demand.topP);
      hide Permits, HasRoute, Accepts;
      var others := Candidates(rest, key, demand, measured);
      var candidate := Candidate(first.provider, first.input + first.output, first.priority,
                                 Stored(measured, Smoothing.Key(key.profile, first.provider, key.slug)), true);
      assert Candidates(descriptors, key, demand, measured)
          == if Permits(first.constraints, demand.endpoint, demand.stream, demand.topP)
             then [candidate] + others else others;
    }
  }

  function ModelOf(provider: string, canonical: string): string {
    provider + "/" + canonical
  }

  function ModelsOf(plan: seq<Candidate>, canonical: string): (models: seq<string>)
    ensures |models| == |plan|
    ensures forall i :: 0 <= i < |plan| ==> models[i] == ModelOf(plan[i].id, canonical)
  {
    if plan == [] then [] else [ModelOf(plan[0].id, canonical)] + ModelsOf(plan[1..], canonical)
  }

  /** Different providers never share a model string, so a plan of distinct providers contacts each at most once. */
  lemma ModelOfIsInjective(a: string, b: string, canonical: string)
    ensures ModelOf(a, canonical) == ModelOf(b, canonical) <==> a == b
  {
    if ModelOf(a, canonical) == ModelOf(b, canonical) {
      assert |a| == |b|;
      assert ModelOf(a, canonical)[..|a|] == a && ModelOf(b, canonical)[..|b|] == b;
    }
  }

  /** The decision for a plan, or None when nothing could be selected. */
  function Decide(plan: seq<Candidate>, profile: RoutingProfile, canonical: string): Result<RouteDecision, RouteError> {
    if plan == [] then Err(NoEligibleRoute)
    else Ok(RouteDecision(profile, canonical, plan[0].id, ModelsOf(plan[1..], canonical), |plan| > 1))
  }

  type ShareTable = map<RouteKey, Window>

  /** The selections remembered for a key; an unseen key has none. */
  function HistoryOf(shares: ShareTable, key: RouteKey): seq<string> {
    if key in shares then shares[key].history else []
  }

  ghost predicate SameExcept(before: ShareTable, after: ShareTable, key: RouteKey) {
    forall other :: other != key ==> HistoryOf(after, other) == HistoryOf(before, other)
  }

  /** What a routing policy is configured with. */
  datatype Service = Service(routes: RouteTable, policy: Policy, shareWindow: nat)

  /** One request, with the measurements at the time and the draws that its selections will see. */
  datatype Call = Call(
    profile: RoutingProfile, endpoint: Endpoint, request: Json, measured: map<Smoothing.Key, Measurements>,
    draws: nat -> Draw)

  predicate IsProper(service: Service, call: Call) {
    ValidRoutes(service.routes) && Smoothing.AllNonNegative(call.measured)
  }

  /** The whole plan of a request, selected provider first, from the history its key has. */
  ghost function PlanFor(service: Service, key: RouteKey, history: seq<string>, call: Call, prepared: Prepared)
    : seq<Candidate>
    requires IsProper(service, call) && key in service.routes
  {
    var demand := Demand(call.endpoint, prepared.stream, prepared.topP);
    Plan(Candidates(service.routes[key], key, demand, call.measured), prepared.preference, service.policy,
         Holding(service.shareWindow, history), call.draws, 0)
  }

  /** What a request is answered with. */
  ghost function Respond(service: Service, shares: ShareTable, call: Call): Result<RouteDecision, RouteError>
    requires IsProper(service, call)
  {
    match Prepare(call.request)
    case Err(e) => Err(e)
    case Ok(prepared) =>
      var key := RouteKey(call.profile, prepared.canonicalModel);
      if key !in service.routes then Err(UnknownModel)
      else Decide(PlanFor(service, key, HistoryOf(shares, key), call, prepared), call.profile, prepared.canonicalModel)
  }

  /** The windows after a request: its selection is pushed into the window of its key, a rejection changes none. */
  ghost function Remember(service: Service, shares: ShareTable, call: Call): ShareTable
    requires IsProper(service, call)
  {
    match Respond(service, shares, call)
    case Err(_) => shares
    case Ok(decision) =>
      var key := RouteKey(call.profile, decision.canonicalModel);
      var history := Slide(HistoryOf(shares, key), service.shareWindow, decision.selectedProvider);
      shares[key := Holding(service.shareWindow, history)]
  }

  ghost predicate SameHistories(a: ShareTable, b: ShareTable) {
    forall key :: HistoryOf(a, key) == HistoryOf(b, key)
  }

  class RoutingPolicy {
    const routes: RouteTable
    const policy: Policy
    const shareWindow: nat
    const measurements: MeasurementStore
    var shares: ShareTable

    ghost predicate Valid()
      reads this, measurements
    {
      && shareWindow > 0 && ValidRoutes(routes) && measurements.Valid()
      && forall key :: key in shares ==> WellFormed(shares[key]) && shares[key].capacity == shareWindow
    }

    constructor (routes: RouteTable, policy: Policy, shareWindow: nat, measurements: MeasurementStore)
      requires shareWindow > 0 && ValidRoutes(routes) && measurements.Valid()
      ensures Valid() && shares == map[]
      ensures this.routes == routes && this.policy == policy && this.shareWindow == shareWindow
      ensures this.measurements == measurements
    {
      this.routes, this.policy, this.shareWindow, this.measurements := routes, policy, shareWindow, measurements;
      shares := map[];
    }

    ghost function Settings(): Service {
      Service(routes, policy, shareWindow)
    }

    /** A request as it meets the store's current measurements. */
    ghost function Now(profile: RoutingProfile, endpoint: Endpoint, request: Json, draws: nat -> Draw): Call
      reads measurements
    {
      Call(profile, endpoint, request, measurements.measurements, draws)
    }

    /** Moves the tracker of a key out of the table, or makes a new one. */
    method TakeTracker(key: RouteKey) returns (tracker: ShareTracker)
      requires Valid()
      modifies this`shares
      ensures Valid() && shares == old(shares) - {key}
      ensures fresh(tracker) && tracker.Valid() && tracker.capacity == shareWindow
      ensures tracker.history == HistoryOf(old(shares), key)
    {
      if key in shares {
        tracker := new ShareTracker.Of(shares[key]);
      } else {
        tracker := new ShareTracker(shareWindow);
      }
      shares := shares - {key};
    }

    /** Plans from the tracker's current view, and only then records the selection, in this key's tracker alone. */
    method PlanAndRecord(key: RouteKey, candidates: seq<Candidate>, preference: Preference, draws: nat -> Draw)
      returns (plan: seq<Candidate>)
      requires Valid()
      modifies this`shares
      ensures Valid() && SameExcept(old(shares), shares, key)
      ensures var history := HistoryOf(old(shares), key);
              && plan == Plan(candidates, preference, policy, Holding(shareWindow, history), draws, 0)
              && HistoryOf(shares, key)
                 == if plan == [] then history else Slide(history, shareWindow, plan[0].id)
    {
      hide Plan, ArePriced, Slide, IsIndex, Holding, Smoothing.AllNonNegative;
      var tracker := TakeTracker(key);
      TrackersHoldHistories(tracker.View());
      plan := PlanFallbacks(candidates, preference, policy, tracker.View(), draws);
      if plan != [] {
        tracker.Record(plan[0].id);
      }
      shares := shares[key := tracker.View()];
    }

    /**
     * Draw 0 comes from the process generator and the others from the fallback generator. The selection is recorded
     * in the window of this request's profile and model, and in no other; a rejected request records nothing, but
     * once it has been read its model suffix and routing sort are gone.
     */
    method RouteForEndpoint(profile: RoutingProfile, endpoint: Endpoint, request: Json, draws: nat -> Draw)
      returns (result: Result<RouteDecision, RouteError>, sent: Json)
      requires Valid()
      modifies this`shares
      ensures Valid()
      ensures result == old(Respond(Settings(), shares, Now(profile, endpoint, request, draws)))
      ensures SameHistories(shares, old(Remember(Settings(), shares, Now(profile, endpoint, request, draws))))
      ensures match result
              case Err(_) =>
                sent == if Prepare(request).Ok? then Rewrite(request, Prepare(request).value.canonicalModel)
                        else request
              case Ok(decision) =>
                sent == Rewrite(request, ModelOf(decision.selectedProvider, decision.canonicalModel))
    {
      hide Prepare, Plan, Candidates, Rewrite, ConsumeSort, WithModel, ArePriced, Slide, WellFormed, Holding;
      ghost var service, before, call := Settings(), shares, Now(profile, endpoint, request, draws);
      var prepared := Prepare(request);
      if prepared.Err? {
        return Err(prepared.error), request;
      }
      var Prepared(canonical, preference, stream, topP) := prepared.value;
      PreparedIsObject(request);
      ModelAndSortCommute(request, canonical);
      sent := ConsumeSort(WithModel(request, canonical));
      var key := RouteKey(profile, canonical);
      if key !in routes {
        return Err(UnknownModel), sent;
      }
      var candidates := Candidates(routes[key], key, Demand(endpoint, stream, topP), measurements.measurements);
      if candidates == [] {
        NothingToPlan(preference, policy, Holding(shareWindow, HistoryOf(shares, key)), draws);
        return Err(NoEligibleRoute), sent;
      }
      var plan := PlanAndRecord(key, candidates, preference, draws);
      RecordingIsRemembering(service, before, shares, call, prepared.value, key, plan);
      if plan == [] {
        return Err(NoEligibleRoute), sent;
      }
      var selected := plan[0].id;
      result := Ok(RouteDecision(profile, canonical, selected, ModelsOf(plan[1..], canonical), |plan| > 1));
      RewriteKeepsTheRest(request, canonical, ModelOf(selected, canonical));
      sent := WithModel(sent, ModelOf(selected, canonical));
    }
  }

  lemma RecordingIsRemembering(service: Service, before: ShareTable, after: ShareTable, call: Call,
                               prepared: Prepared, key: RouteKey, plan: seq<Candidate>)
    requires IsProper(service, call) && Prepare(call.request) == Ok(prepared)
    requires key == RouteKey(call.profile, prepared.canonicalModel) && key in service.routes
    requires plan == PlanFor(service, key, HistoryOf(before, key), call, prepared)
    requires SameExcept(before, after, key)
    requires HistoryOf(after, key)
          == if plan == [] then HistoryOf(before, key)
             else Slide(HistoryOf(before, key), service.shareWindow, plan[0].id)
    ensures Respond(service, before, call) == Decide(plan, call.profile, prepared.canonicalModel)
    ensures SameHistories(after, Remember(service, before, call))
  {
    hide Prepare, PlanFor, Slide, Holding, IsProper;
    assert Holding(service.shareWindow, HistoryOf(after, key)).history == HistoryOf(after, key) by {
      HoldingHolds(service.shareWindow, HistoryOf(after, key));
    }
  }

  lemma HoldingHolds(capacity: nat, history: seq<string>)
    ensures Holding(capacity, history).history == history
  {}

  lemma NothingToPlan(preference: Preference, policy: Policy, window: Window, draws: nat -> Draw)
    ensures Plan([], preference, policy, window, draws, 0) == []
  {
    var picked := SelectRoute([], preference, policy, window, draws(0));
    assert picked.None?;
  }
}
