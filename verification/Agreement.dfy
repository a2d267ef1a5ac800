/** The four tables derived from one registry agree with each other. */
module Agreement {
  import opened Basics
  import opened Lexical
  import opened Registry
  import opened ShareTracker
  import opened Select
  import opened Plans
  import opened Routing
  import opened Tables

  lemma {:induction false} RowsOfMembers(provider: Provider, from: nat)
    requires from <= |provider.models|
    ensures forall k :: 0 <= k < |RowsOf(provider, from)| ==>
              RowsOf(provider, from)[k] == Row(provider, provider.models[from + k])
    decreases |provider.models| - from
  {
    if from < |provider.models| { RowsOfMembers(provider, from + 1); }
  }

  /** A row is a model of an enabled provider of the registry. */
  lemma {:induction false} RowOrigin(providers: seq<Provider>, row: Row)
    requires row in Rows(providers)
    ensures exists i :: 0 <= i < |providers| && providers[i].enabled && row.provider == providers[i]
              && exists j :: 0 <= j < |providers[i].models| && row.mapping == providers[i].models[j]
  {
    var first, rest := providers[0], providers[1..];
    RowsOfMembers(first, 0);
    if row in Rows(rest) {
      RowOrigin(rest, row);
      var i :| 0 <= i < |rest| && rest[i].enabled && row.provider == rest[i]
               && exists j :: 0 <= j < |rest[i].models| && row.mapping == rest[i].models[j];
      assert providers[i + 1] == rest[i];
    } else {
      assert first.enabled && row in RowsOf(first, 0);
      var k :| 0 <= k < |RowsOf(first, 0)| && RowsOf(first, 0)[k] == row;
      assert row.mapping == first.models[k];
    }
  }

  lemma {:induction false} RowsForSplits(a: seq<Row>, b: seq<Row>, key: RouteKey)
    ensures RowsFor(a + b, key) == RowsFor(a, key) + RowsFor(b, key)
  {
    hide Serves;
    if b == [] {
      assert a + b == a;
    } else {
      var front, last := b[..|b| - 1], b[|b| - 1];
      RowsForSplits(a, front, key);
      assert (a + b)[..|a + b| - 1] == a + front && (a + b)[|a + b| - 1] == last;
    }
  }

  /** No two rows come from the same provider. */
  predicate FromDistinctProviders(rows: seq<Row>) {
    forall i, j :: 0 <= i < j < |rows| ==> rows[i].provider.id != rows[j].provider.id
  }

  lemma EarlierSlug(models: seq<Mapping>, slug: string, n: nat)
    requires 0 < n <= |models| && HasSlug(models[..n - 1], slug)
    requires forall i, j :: 0 <= i < j < |models| ==> models[i].slug != models[j].slug
    ensures HasSlug(models[..n], slug) && models[n - 1].slug != slug
  {
    var i :| 0 <= i < n - 1 && models[..n - 1][i].slug == slug;
    assert models[..n][i].slug == slug && models[i].slug == slug;
  }

  lemma OwnSlug(models: seq<Mapping>, n: nat)
    requires 0 < n <= |models|
    ensures HasSlug(models[..n], models[n - 1].slug)
  {
    assert models[..n][n - 1] == models[n - 1];
  }

  /** A provider with distinct slugs serves a key with at most one of its models. */
  lemma {:induction false} OneRowPerProvider(provider: Provider, key: RouteKey, n: nat)
    requires HasPriceList(provider) && n <= |provider.models|
    ensures |RowsFor(RowsOf(provider, 0)[..n], key)| <= 1
    ensures RowsFor(RowsOf(provider, 0)[..n], key) != [] ==> HasSlug(provider.models[..n], key.slug)
  {
    hide IsPriced, RowsOf, HasSlug;
    var rows := RowsOf(provider, 0);
    RowsOfMembers(provider, 0);
    if n > 0 {
      OneRowPerProvider(provider, key, n - 1);
      assert rows[..n] == rows[..n - 1] + [rows[n - 1]];
      assert rows[..n][..n - 1] == rows[..n - 1];
      if RowsFor(rows[..n - 1], key) != [] {
        EarlierSlug(provider.models, key.slug, n);
      } else if Serves(rows[n - 1], key) {
        OwnSlug(provider.models, n);
      }
    }
  }

  lemma OwnRows(provider: Provider, key: RouteKey)
    requires HasPriceList(provider)
    ensures |RowsFor(RowsOf(provider, 0), key)| <= 1
    ensures forall row <- RowsFor(RowsOf(provider, 0), key) :: row.provider == provider
  {
    hide RowsOf, HasPriceList;
    var n := |provider.models|;
    OneRowPerProvider(provider, key, n);
    assert RowsOf(provider, 0)[..n] == RowsOf(provider, 0);
    RowsOfMembers(provider, 0);
  }

  lemma RowsComeFrom(providers: seq<Provider>, key: RouteKey)
    ensures forall row <- RowsFor(Rows(providers), key) ::
              exists i :: 0 <= i < |providers| && row.provider == providers[i]
  {
    hide RowsFor, Rows;
    forall row <- RowsFor(Rows(providers), key)
      ensures exists i :: 0 <= i < |providers| && row.provider == providers[i]
    {
      RowOrigin(providers, row);
    }
  }

  lemma {:induction false} ServedRowsAreDistinct(providers: seq<Provider>, key: RouteKey)
    requires forall i, j :: 0 <= i < j < |providers| ==> providers[i].id != providers[j].id
    requires forall i :: 0 <= i < |providers| && providers[i].enabled ==> HasPriceList(providers[i])
    ensures FromDistinctProviders(RowsFor(Rows(providers), key))
  {
    if providers != [] {
      var first, rest := providers[0], providers[1..];
      ServedRowsAreDistinct(rest, key);
      var own := if first.enabled then RowsOf(first, 0) else [];
      RowsForSplits(own, Rows(rest), key);
      if first.enabled { OwnRows(first, key); }
      RowsComeFrom(rest, key);
      hide RowsFor, RowsOf, HasPriceList;
      var mine, others := RowsFor(own, key), RowsFor(Rows(rest), key);
      forall j | 0 <= j < |others| ensures first.id != others[j].provider.id {
        assert others[j] in others;
      }
      forall i | 0 <= i < |mine| ensures mine[i].provider.id == first.id {
        assert mine[i] in mine && first.enabled;
      }
    }
  }

  lemma OccursOnce(xs: seq<RouteDescriptor>, k: nat)
    requires AreDistinct(xs) && k < |xs|
    ensures multiset(xs)[xs[k]] == 1
  {
    assert xs == xs[..k] + [xs[k]] + xs[k + 1..];
    assert xs[k] !in xs[..k] && xs[k] !in xs[k + 1..];
  }

  lemma OccursTwice(ys: seq<RouteDescriptor>, i: nat, j: nat)
    requires i < j < |ys| && ys[i] == ys[j]
    ensures multiset(ys)[ys[i]] >= 2
  {
    assert ys == ys[..i] + [ys[i]] + ys[i + 1..j] + [ys[i]] + ys[j + 1..];
  }

  /** Reordering keeps providers distinct. */
  lemma ReorderingKeepsDistinct(xs: seq<RouteDescriptor>, ys: seq<RouteDescriptor>)
    requires AreDistinct(xs) && multiset(xs) == multiset(ys)
    ensures AreDistinct(ys)
  {
    forall i, j | 0 <= i < j < |ys| ensures ys[i].provider != ys[j].provider {
      assert ys[i] in multiset(xs) && ys[j] in multiset(xs);
      var k :| 0 <= k < |xs| && xs[k] == ys[i];
      var l :| 0 <= l < |xs| && xs[l] == ys[j];
      if ys[j].provider == ys[i].provider {
        assert k == l;
        OccursTwice(ys, i, j);
        OccursOnce(xs, k);
      }
    }
  }

  predicate RoutesTo(routes: RouteTable, key: RouteKey, provider: string) {
    exists d <- At(routes, key) :: d.provider == provider
  }

  predicate Targets(virtuals: VirtualModels, key: RouteKey, model: string) {
    exists t <- At(virtuals, key) :: t.model == model
  }

  predicate ServedBy(rows: seq<Row>, key: RouteKey, provider: string) {
    exists i :: 0 <= i < |RowsFor(rows, key)| && RowsFor(rows, key)[i].provider.id == provider
  }

  lemma RoutesToServers(routes: RouteTable, registry: Registry, key: RouteKey, provider: string)
    requires IsRouteTable(routes, registry)
    ensures RoutesTo(routes, key, provider) <==> ServedBy(Rows(registry.providers), key, provider)
  {
    hide RowsFor, Rows, Sort, RouteExceeds;
    var gathered := Gathered(Rows(registry.providers), DescriptorOf, key);
    SortKeepsMembers(gathered, RouteExceeds);
    assert At(routes, key) == RoutesFor(registry, key);
    if ServedBy(Rows(registry.providers), key, provider) {
      var served := RowsFor(Rows(registry.providers), key);
      var i :| 0 <= i < |served| && served[i].provider.id == provider;
      assert gathered[i] in At(routes, key);
    }
    if RoutesTo(routes, key, provider) {
      var d :| d in At(routes, key) && d.provider == provider;
      assert d in gathered;
      var i :| 0 <= i < |gathered| && gathered[i] == d;
      assert RowsFor(Rows(registry.providers), key)[i].provider.id == provider;
    }
  }

  lemma TargetsServers(models: seq<string>, virtuals: VirtualModels, registry: Registry, key: RouteKey,
                       provider: string)
    requires IsSidecar(models, virtuals, registry)
    ensures Targets(virtuals, key, ModelOf(provider, key.slug)) <==> ServedBy(Rows(registry.providers), key, provider)
    ensures ServedBy(Rows(registry.providers), key, provider) ==> ModelOf(provider, key.slug) in models
  {
    hide RowsFor, Rows, Sort, ModelOf;
    var rows := Rows(registry.providers);
    var gathered := Gathered(rows, TargetOf, key);
    SortKeepsMembers(gathered, TargetExceeds);
    assert At(virtuals, key) == Sort(gathered, TargetExceeds);
    if ServedBy(rows, key, provider) {
      var i :| 0 <= i < |RowsFor(rows, key)| && RowsFor(rows, key)[i].provider.id == provider;
      assert gathered[i] in At(virtuals, key);
      var row := RowsFor(rows, key)[i];
      assert row in rows;
      var k :| 0 <= k < |rows| && rows[k] == row;
      assert models[k] == RouteName(row);
    }
    if Targets(virtuals, key, ModelOf(provider, key.slug)) {
      var t :| t in At(virtuals, key) && t.model == ModelOf(provider, key.slug);
      assert t in gathered;
      var i :| 0 <= i < |gathered| && gathered[i] == t;
      var row := RowsFor(rows, key)[i];
      assert row in RowsFor(rows, key);
      ModelOfIsInjective(row.provider.id, provider, key.slug);
    }
  }

  lemma ServersArePriced(prices: PriceTable, registry: Registry, row: Row)
    requires BuildsPrices(registry) && IsPriceTable(prices, registry.providers)
    requires row in Rows(registry.providers)
    ensures IsPriced(row.mapping)
    ensures PriceFor(prices, row.provider.id, row.mapping.slug) == Some(PricesOf(row.mapping))
  {
    RowOrigin(registry.providers, row);
    var i :| 0 <= i < |registry.providers| && registry.providers[i].enabled && row.provider == registry.providers[i]
             && exists j :: 0 <= j < |registry.providers[i].models| && row.mapping == registry.providers[i].models[j];
    var j :| 0 <= j < |registry.providers[i].models| && row.mapping == registry.providers[i].models[j];
    assert IsPriceList(prices[row.provider.id], row.provider.models);
  }

  /**
   * For every registry that has a price table, every profile and slug: the routable slugs are the catalog's and the
   * sidecar's; the providers a request may be routed to are exactly the virtual model's targets; each of them has a
   * price entry, and its model string names a generated route. The routes of a key are priced and distinct, as the
   * routing policy assumes.
   */
  lemma TablesAgree(registry: Registry, routes: RouteTable, prices: PriceTable, models: seq<string>,
                    virtuals: VirtualModels, catalog: map<string, Row>, key: RouteKey, provider: string)
    requires BuildsPrices(registry) && IsRouteTable(routes, registry)
    requires IsPriceTable(prices, registry.providers) && IsSidecar(models, virtuals, registry)
    requires IsCatalog(catalog, Rows(registry.providers), key.profile)
    ensures key in routes <==> key.slug in catalog
    ensures key in routes <==> key in virtuals
    ensures RoutesTo(routes, key, provider) <==> Targets(virtuals, key, ModelOf(provider, key.slug))
    ensures RoutesTo(routes, key, provider) ==>
              PriceFor(prices, provider, key.slug).Some? && ModelOf(provider, key.slug) in models
    ensures AreDistinct(At(routes, key)) && ArePriced(At(routes, key))
  {
    assert key == RouteKey(key.profile, key.slug);
    RoutesToServers(routes, registry, key, provider);
    TargetsServers(models, virtuals, registry, key, provider);
    if RoutesTo(routes, key, provider) {
      RoutedProviderIsServed(registry, routes, prices, models, virtuals, key, provider);
    }
    RoutesAreProper(registry, routes, prices, key);
  }

  lemma RoutesAreProper(registry: Registry, routes: RouteTable, prices: PriceTable, key: RouteKey)
    requires BuildsPrices(registry) && IsRouteTable(routes, registry) && IsPriceTable(prices, registry.providers)
    ensures AreDistinct(At(routes, key)) && ArePriced(At(routes, key))
  {
    var rows := Rows(registry.providers);
    var served, gathered := RowsFor(rows, key), Gathered(rows, DescriptorOf, key);
    ServedRowsAreDistinct(registry.providers, key);
    assert FromDistinctProviders(served);
    forall i, j | 0 <= i < j < |gathered| ensures gathered[i].provider != gathered[j].provider {
      assert served[i].provider.id != served[j].provider.id;
    }
    ReorderingKeepsDistinct(gathered, RoutesFor(registry, key));
    SortKeepsMembers(gathered, RouteExceeds);
    forall i | 0 <= i < |At(routes, key)| ensures At(routes, key)[i].input >= 0.0 && At(routes, key)[i].output >= 0.0 {
      assert At(routes, key)[i] in gathered;
      var k :| 0 <= k < |gathered| && gathered[k] == At(routes, key)[i];
      assert served[k] in served;
      ServersArePriced(prices, registry, served[k]);
    }
  }

  lemma RouteExceedsMeaning()
    ensures forall a, b :: RouteExceeds(a, b) <==>
              b.priority < a.priority || (a.priority == b.priority && Before(b.provider, a.provider))
  {}

  /** The routes of a key stand in strictly increasing (priority, provider) order, whatever the registry's order. */
  lemma RoutesAreInPriorityOrder(registry: Registry, routes: RouteTable, prices: PriceTable, key: RouteKey)
    requires BuildsPrices(registry) && IsRouteTable(routes, registry) && IsPriceTable(prices, registry.providers)
    ensures forall i, j :: 0 <= i < j < |At(routes, key)| ==>
              var a, b := At(routes, key)[i], At(routes, key)[j];
              a.priority < b.priority || (a.priority == b.priority && Before(a.provider, b.provider))
  {
    RouteExceedsMeaning();
    RoutesAreProper(registry, routes, prices, key);
    hide RowsFor, Rows, Sort, RouteExceeds, Before, BuildsPrices, IsPriceTable;
    RouteOrderLaws();
    var gathered, sorted := Gathered(Rows(registry.providers), DescriptorOf, key), At(routes, key);
    assert sorted == Sort(gathered, RouteExceeds);
    forall i, j | 0 <= i < j < |sorted| ensures RouteExceeds(sorted[j], sorted[i]) {
      SortIsStable(gathered, sorted[i], RouteExceeds);
      assert sorted[i].provider != sorted[j].provider;
    }
  }

  /** The generated route of this provider's own mapping, under its own name. */
  predicate HasOwnRoute(models: seq<string>, rows: seq<Row>, provider: string, slug: string)
    requires |models| == |rows|
  {
    exists k :: 0 <= k < |rows| && models[k] == ModelOf(provider, slug)
      && rows[k].provider.id == provider && rows[k].mapping.slug == slug
  }

  lemma RoutedRow(registry: Registry, routes: RouteTable, key: RouteKey, provider: string) returns (k: nat)
    requires IsRouteTable(routes, registry) && RoutesTo(routes, key, provider)
    ensures var rows := Rows(registry.providers);
            k < |rows| && rows[k].provider.id == provider && rows[k].mapping.slug == key.slug
  {
    RoutesToServers(routes, registry, key, provider);
    hide IsRouteTable, Rows, RowsFor, RoutesTo;
    var rows := Rows(registry.providers);
    var served := RowsFor(rows, key);
    var i :| 0 <= i < |served| && served[i].provider.id == provider;
    assert served[i] in served;
    k :| 0 <= k < |rows| && rows[k] == served[i];
  }

  lemma SidecarNames(registry: Registry, models: seq<string>, virtuals: VirtualModels)
    requires IsSidecar(models, virtuals, registry)
    ensures var rows := Rows(registry.providers);
            |models| == |rows| && forall k :: 0 <= k < |rows| ==> models[k] == RouteName(rows[k])
  {
    hide Rows, RowsFor, Sort, ModelOf;
  }

  lemma OwnRouteIsNamed(registry: Registry, routes: RouteTable, models: seq<string>, virtuals: VirtualModels,
                        key: RouteKey, provider: string)
    requires IsRouteTable(routes, registry) && IsSidecar(models, virtuals, registry)
    requires RoutesTo(routes, key, provider)
    ensures |models| == |Rows(registry.providers)|
    ensures HasOwnRoute(models, Rows(registry.providers), provider, key.slug)
  {
    var own := RoutedRow(registry, routes, key, provider);
    SidecarNames(registry, models, virtuals);
    hide IsRouteTable, IsSidecar, RoutesTo, Rows, ModelOf;
    assert models[own] == RouteName(Rows(registry.providers)[own]);
  }

  /** Every model string that a request's plan can send names its own provider's generated route, which is priced. */
  lemma PlannedModelsAreServed(
    registry: Registry, routes: RouteTable, prices: PriceTable, models: seq<string>, virtuals: VirtualModels,
    key: RouteKey, demand: Demand, measured: map<Smoothing.Key, Measurements>,
    preference: Preference, policy: Policy, window: Window, draws: nat -> Draw)
    requires BuildsPrices(registry) && IsRouteTable(routes, registry)
    requires IsPriceTable(prices, registry.providers) && IsSidecar(models, virtuals, registry)
    requires key in routes && ArePriced(routes[key]) && Smoothing.AllNonNegative(measured)
    ensures var plan := Plan(Candidates(routes[key], key, demand, measured), preference, policy, window, draws, 0);
            && |models| == |Rows(registry.providers)|
            && forall c <- plan ::
                 HasOwnRoute(models, Rows(registry.providers), c.id, key.slug) && PriceFor(prices, c.id, key.slug).Some?
  {
    hide HasOwnRoute, Rows;
    SidecarNames(registry, models, virtuals);
    hide Plan, IsRouteTable, IsPriceTable, IsSidecar, BuildsPrices, ModelOf, PriceFor, Permits, Candidates;
    var candidates := Candidates(routes[key], key, demand, measured);
    var plan := Plan(candidates, preference, policy, window, draws, 0);
    forall c <- plan
      ensures HasOwnRoute(models, Rows(registry.providers), c.id, key.slug) && PriceFor(prices, c.id, key.slug).Some?
    {
      assert c in candidates;
      var i :| 0 <= i < |routes[key]| && routes[key][i].provider == c.id;
      assert routes[key][i] in At(routes, key);
      RoutedProviderIsServed(registry, routes, prices, models, virtuals, key, c.id);
      OwnRouteIsNamed(registry, routes, models, virtuals, key, c.id);
    }
  }

  lemma RoutedProviderIsServed(registry: Registry, routes: RouteTable, prices: PriceTable, models: seq<string>,
                               virtuals: VirtualModels, key: RouteKey, provider: string)
    requires BuildsPrices(registry) && IsRouteTable(routes, registry)
    requires IsPriceTable(prices, registry.providers) && IsSidecar(models, virtuals, registry)
    requires RoutesTo(routes, key, provider)
    ensures PriceFor(prices, provider, key.slug).Some? && ModelOf(provider, key.slug) in models
  {
    hide RowsFor, Rows, IsPriced, ModelOf, PriceFor, IsRouteTable, IsPriceTable, IsSidecar, BuildsPrices;
    var rows := Rows(registry.providers);
    RoutesToServers(routes, registry, key, provider);
    TargetsServers(models, virtuals, registry, key, provider);
    var i :| 0 <= i < |RowsFor(rows, key)| && RowsFor(rows, key)[i].provider.id == provider;
    assert RowsFor(rows, key)[i] in RowsFor(rows, key);
    ServersArePriced(prices, registry, RowsFor(rows, key)[i]);
  }

  /** The catalog lists the endpoints of a model in exactly the order in which the router holds its routes. */
  lemma EndpointsAreRoutes(registry: Registry, routes: RouteTable, endpoints: map<string, seq<Row>>, key: RouteKey)
    requires BuildsPrices(registry) && IsRouteTable(routes, registry)
    requires Lists(endpoints, Rows(registry.providers), key.profile, Endpoints)
    ensures key.slug in endpoints <==> key in routes
    ensures key in routes ==> Map(endpoints[key.slug], DescriptorOf) == routes[key]
  {
    var rows := Rows(registry.providers);
    var served := RowsFor(rows, key);
    ServedRowsAreDistinct(registry.providers, key);
    hide RowsFor, Rows, Sort, BuildsPrices, EndpointExceeds, RouteExceeds, ComparesAlike, FromDistinctProviders;
    assert key == RouteKey(key.profile, key.slug);
    EndpointsCompareAsRoutes(served);
    SortCommutes(served, DescriptorOf, EndpointExceeds, RouteExceeds);
    assert At(routes, key) == RoutesFor(registry, key);
  }

  lemma EndpointsCompareAsRoutes(served: seq<Row>)
    requires FromDistinctProviders(served)
    ensures ComparesAlike(served, DescriptorOf, EndpointExceeds, RouteExceeds)
  {
    forall i, j | 0 <= i < j < |served|
      ensures EndpointExceeds(served[i], served[j]) <==> RouteExceeds(DescriptorOf(served[i]), DescriptorOf(served[j]))
    {
      assert served[i].provider.id != served[j].provider.id;
    }
  }
}
