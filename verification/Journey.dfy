/** One accepted request from its routing to its price: the bodies sent, the routes they reach, and the prices found. */
module Journey {
  import opened Basics
  import opened Json
  import opened Registry
  import opened ShareSafety
  import opened Select
  import opened Ranking
  import opened Plans
  import opened Requests
  import opened Routing
  import opened Retry
  import opened Tables
  import opened Agreement
  import opened Naming

  /** The plan behind a decision. */
  ghost function PlanOf(service: Service, shares: ShareTable, call: Call): seq<Candidate>
    requires IsProper(service, call) && Respond(service, shares, call).Ok?
  {
    var prepared := Prepare(call.request).value;
    var key := RouteKey(call.profile, prepared.canonicalModel);
    PlanFor(service, key, HistoryOf(shares, key), call, prepared)
  }

  lemma DecisionIsPlan(service: Service, shares: ShareTable, call: Call)
    requires IsProper(service, call) && Respond(service, shares, call).Ok?
    ensures var decision, plan := Respond(service, shares, call).value, PlanOf(service, shares, call);
            && Prepare(call.request).Ok?
            && decision.canonicalModel == Prepare(call.request).value.canonicalModel
            && RouteKey(call.profile, decision.canonicalModel) in service.routes
            && plan != [] && plan[0].id == decision.selectedProvider
            && decision.fallbackModels == ModelsOf(plan[1..], decision.canonicalModel)
  {
    hide Prepare, PlanFor;
  }

  /** Body `i` is the client's request rewritten for provider `i` of the plan. */
  ghost predicate SendsPlan(request: Json, plan: seq<Candidate>, canonical: string, sent: seq<Json>) {
    && 1 <= |sent| <= |plan|
    && forall i :: 0 <= i < |sent| ==> sent[i] == Rewrite(request, ModelOf(plan[i].id, canonical))
  }

  lemma BodiesFollowPlan(request: Json, plan: seq<Candidate>, canonical: string, answers: nat -> Attempt,
                         upstream: Attempt, sent: seq<Json>)
    requires request.Obj? && plan != []
    requires IsDelivery(Rewrite(request, ModelOf(plan[0].id, canonical)), ModelsOf(plan[1..], canonical), answers,
                        upstream, sent)
    ensures SendsPlan(request, plan, canonical, sent)
  {
    hide Rewrite, WithModel, ModelOf, IsRetryable;
    var first := ModelOf(plan[0].id, canonical);
    forall i | 0 <= i < |sent| ensures sent[i] == Rewrite(request, ModelOf(plan[i].id, canonical)) {
      if i > 0 {
        assert plan[1..][i - 1] == plan[i];
        RewriteKeepsTheRest(request, first, ModelOf(plan[i].id, canonical));
      }
    }
  }

  /**
   * Exactly when a request for the row's model that this row's provider answered finds a price, and its own: see
   * `RequestFindsItsPrice`.
   */
  ghost predicate IsCharged(prices: PriceTable, row: Row) {
    && IsPriced(row.mapping)
    && var (slug, id, models) := (row.mapping.slug, row.provider.id, row.provider.models);
       var found := PricesForRequest(prices, slug, id);
       && (found.Some? <==> !StartsWithProvider(slug, id) || HasSlug(models, Shortened(slug, id)))
       && (found == Some(PricesOf(row.mapping)) <==>
           !StartsWithProvider(slug, id) || Sells(models, Shortened(slug, id), PricesOf(row.mapping)))
  }

  /** The provider serves the model by a row of its own, whose route bears the name, and is charged as that row says. */
  ghost predicate ServesAndCharges(rows: seq<Row>, models: seq<string>, prices: PriceTable, provider: string,
                                   slug: string)
    requires |models| == |rows|
  {
    exists k :: 0 <= k < |rows| && models[k] == ModelOf(provider, slug)
      && rows[k].provider.id == provider && rows[k].mapping.slug == slug && IsCharged(prices, rows[k])
  }

  lemma PlannedProviderServes(registry: Registry, routes: RouteTable, prices: PriceTable, models: seq<string>,
                              virtuals: VirtualModels, key: RouteKey, provider: string)
    requires BuildsPrices(registry) && IsRouteTable(routes, registry)
    requires IsPriceTable(prices, registry.providers) && IsSidecar(models, virtuals, registry)
    requires RoutesTo(routes, key, provider)
    ensures |models| == |Rows(registry.providers)|
    ensures ServesAndCharges(Rows(registry.providers), models, prices, provider, key.slug)
  {
    var rows := Rows(registry.providers);
    OwnRouteIsNamed(registry, routes, models, virtuals, key, provider);
    hide Rows, BuildsPrices, IsRouteTable, IsPriceTable, IsSidecar, RoutesTo, ModelOf, PricesForRequest, Sells;
    var k :| 0 <= k < |rows| && models[k] == ModelOf(provider, key.slug)
             && rows[k].provider.id == provider && rows[k].mapping.slug == key.slug;
    RequestFindsItsPrice(registry, prices, rows[k]);
    hide HasSlug, StartsWithProvider;
    assert IsCharged(prices, rows[k]);
  }

  /**
   * For every priced registry, every accepted request and every oracle of answers: body `i` is the client's request
   * rewritten for provider `i` of the ordered plan, no provider is sent to twice, each body names its own provider's
   * generated route, and the answering provider's price is found, and is the model's own, exactly as its row says.
   */
  lemma RequestReachesItsPrice(
    registry: Registry, service: Service, prices: PriceTable, models: seq<string>, virtuals: VirtualModels,
    shares: ShareTable, call: Call, answers: nat -> Attempt, upstream: Attempt, sent: seq<Json>)
    requires BuildsPrices(registry) && IsRouteTable(service.routes, registry)
    requires IsPriceTable(prices, registry.providers) && IsSidecar(models, virtuals, registry)
    requires IsProper(service, call) && Respond(service, shares, call).Ok?
    requires var decision := Respond(service, shares, call).value;
             IsDelivery(Rewrite(call.request, ModelOf(decision.selectedProvider, decision.canonicalModel)),
                        decision.fallbackModels, answers, upstream, sent)
    ensures var plan, canonical := PlanOf(service, shares, call), Respond(service, shares, call).value.canonicalModel;
            && SendsPlan(call.request, plan, canonical, sent)
            && DistinctIds(plan) && IsOrdered(plan, Prepare(call.request).value.preference)
            && |models| == |Rows(registry.providers)|
            && forall i :: 0 <= i < |sent| ==>
                 ServesAndCharges(Rows(registry.providers), models, prices, plan[i].id, canonical)
  {
    var plan, canonical := PlanOf(service, shares, call), Respond(service, shares, call).value.canonicalModel;
    var key := RouteKey(call.profile, canonical);
    DecisionIsPlan(service, shares, call);
    PreparedIsObject(call.request);
    PlanIsProper(registry, service, prices, shares, call, key);
    hide Prepare, PlanFor, Respond, IsRouteTable, IsPriceTable, IsSidecar, BuildsPrices, ServesAndCharges, IsDelivery;
    hide Rewrite, ModelOf, IsOrdered, PlanOf, Rows, DistinctIds;
    BodiesFollowPlan(call.request, plan, canonical, answers, upstream, sent);
    assert RoutesTo(service.routes, key, plan[0].id);
    PlannedProviderServes(registry, service.routes, prices, models, virtuals, key, plan[0].id);
    forall i | 0 <= i < |sent|
      ensures ServesAndCharges(Rows(registry.providers), models, prices, plan[i].id, canonical)
    {
      PlannedProviderServes(registry, service.routes, prices, models, virtuals, key, plan[i].id);
    }
  }

  lemma PlanIsProper(registry: Registry, service: Service, prices: PriceTable, shares: ShareTable, call: Call,
                     key: RouteKey)
    requires BuildsPrices(registry) && IsRouteTable(service.routes, registry)
    requires IsPriceTable(prices, registry.providers)
    requires IsProper(service, call) && Respond(service, shares, call).Ok?
    requires Prepare(call.request).Ok? && key == RouteKey(call.profile, Prepare(call.request).value.canonicalModel)
    requires key in service.routes
    ensures var plan := PlanOf(service, shares, call);
            && DistinctIds(plan) && IsOrdered(plan, Prepare(call.request).value.preference)
            && forall i :: 0 <= i < |plan| ==> RoutesTo(service.routes, key, plan[i].id)
  {
    RoutesAreProper(registry, service.routes, prices, key);
    hide Prepare, Plan, IsRouteTable, IsPriceTable, BuildsPrices, Candidates, IsOrdered, MayPrecede, Qualified, Respond;
    var prepared := Prepare(call.request).value;
    var demand := Demand(call.endpoint, prepared.stream, prepared.topP);
    var candidates := Candidates(service.routes[key], key, demand, call.measured);
    CandidatesAreDistinct(service.routes[key], key, demand, call.measured);
    PlanIsOrderedPermutation(candidates, prepared.preference, service.policy,
                             Holding(service.shareWindow, HistoryOf(shares, key)), call.draws, 0);
    var plan := PlanOf(service, shares, call);
    forall i | 0 <= i < |plan| ensures RoutesTo(service.routes, key, plan[i].id) {
      assert plan[i] in candidates;
      var j :| 0 <= j < |service.routes[key]| && service.routes[key][j].provider == plan[i].id;
      assert service.routes[key][j] in At(service.routes, key);
    }
  }
}
