/** What the derived tables hold, entry by entry, said of the registry itself. */
module TableContents {
  import opened Basics
  import opened Lexical
  import opened Pricing
  import opened Registry
  import opened Routing
  import opened Tables
  import opened Agreement

  /** An enabled provider offers the mapping under the key. */
  predicate Offers(registry: Registry, key: RouteKey, provider: Provider, mapping: Mapping) {
    && provider in registry.providers && provider.enabled && mapping in provider.models
    && key.profile in provider.profiles && mapping.slug == key.slug
  }

  lemma {:induction false} AllRows(providers: seq<Provider>, provider: Provider, mapping: Mapping)
    requires provider in providers && provider.enabled && mapping in provider.models
    ensures Row(provider, mapping) in Rows(providers)
  {
    var first, rest := providers[0], providers[1..];
    if provider == first {
      RowsOfMembers(first, 0);
      var k :| 0 <= k < |first.models| && first.models[k] == mapping;
      assert RowsOf(first, 0)[k] == Row(first, mapping);
    } else {
      AllRows(rest, provider, mapping);
    }
  }

  lemma RowsAreOffers(registry: Registry, key: RouteKey, row: Row)
    ensures row in RowsFor(Rows(registry.providers), key) <==> Offers(registry, key, row.provider, row.mapping)
  {
    if row in Rows(registry.providers) { RowOrigin(registry.providers, row); }
    if Offers(registry, key, row.provider, row.mapping) { AllRows(registry.providers, row.provider, row.mapping); }
    hide Rows;
  }

  lemma OffersAreGathered<T(!new)>(registry: Registry, key: RouteKey, f: Row -> T, x: T)
    ensures x in Gathered(Rows(registry.providers), f, key) <==>
            exists p, m :: Offers(registry, key, p, m) && x == f(Row(p, m))
  {
    var rows := RowsFor(Rows(registry.providers), key);
    hide Rows, RowsFor, Offers;
    if x in Gathered(Rows(registry.providers), f, key) {
      var i :| 0 <= i < |rows| && x == f(rows[i]);
      RowsAreOffers(registry, key, rows[i]);
      assert rows[i] == Row(rows[i].provider, rows[i].mapping);
    }
    forall p, m | Offers(registry, key, p, m) && x == f(Row(p, m)) ensures x in Map(rows, f) {
      RowsAreOffers(registry, key, Row(p, m));
      var i :| 0 <= i < |rows| && rows[i] == Row(p, m);
      assert Map(rows, f)[i] == x;
    }
  }

  lemma ServedWhenOffered(registry: Registry, key: RouteKey)
    ensures RowsFor(Rows(registry.providers), key) != [] <==> exists p, m :: Offers(registry, key, p, m)
  {
    var rows := RowsFor(Rows(registry.providers), key);
    hide Rows, RowsFor, Offers;
    if rows != [] { RowsAreOffers(registry, key, rows[0]); }
    forall p, m | Offers(registry, key, p, m) ensures rows != [] { RowsAreOffers(registry, key, Row(p, m)); }
  }

  /** The routes of a key are its offers, each with the provider, prices, priority and constraints of its own. */
  lemma RoutesAreOffers(registry: Registry, routes: RouteTable, key: RouteKey, route: RouteDescriptor)
    requires IsRouteTable(routes, registry)
    ensures key in routes <==> exists p, m :: Offers(registry, key, p, m)
    ensures route in At(routes, key) <==>
            exists p, m :: Offers(registry, key, p, m)
              && route.provider == p.id && route.priority == p.priority
              && route.input == m.input && route.output == m.output && route.constraints == m.constraints
  {
    ServedWhenOffered(registry, key);
    OffersAreGathered(registry, key, DescriptorOf, route);
    hide Rows, RowsFor, Offers, Sort;
    SortKeepsMembers(Gathered(Rows(registry.providers), DescriptorOf, key), RouteExceeds);
    assert At(routes, key) == RoutesFor(registry, key);
  }

  /** The targets of a key are its offers, each named `provider/slug`; every model of an enabled provider is named. */
  lemma TargetsAreOffers(registry: Registry, models: seq<string>, virtuals: VirtualModels, key: RouteKey,
                         target: VirtualTarget)
    requires IsSidecar(models, virtuals, registry)
    ensures key in virtuals <==> exists p, m :: Offers(registry, key, p, m)
    ensures target in At(virtuals, key) <==>
            exists p, m :: Offers(registry, key, p, m)
              && target.model == p.id + "/" + key.slug && target.priority == p.priority
  {
    ServedWhenOffered(registry, key);
    OffersAreGathered(registry, key, TargetOf, target);
    assert forall p, m :: Offers(registry, key, p, m) ==> m.slug == key.slug;
    hide Rows, RowsFor, Offers, Sort;
    SortKeepsMembers(Gathered(Rows(registry.providers), TargetOf, key), TargetExceeds);
    assert At(virtuals, key) == Sort(Gathered(Rows(registry.providers), TargetOf, key), TargetExceeds);
  }

  predicate IsModel(registry: Registry, p: Provider, m: Mapping) {
    p in registry.providers && p.enabled && m in p.models
  }

  /** The generated routes are named `provider/slug` for exactly the models of enabled providers. */
  lemma NamesAreModels(registry: Registry, models: seq<string>, virtuals: VirtualModels, name: string)
    requires IsSidecar(models, virtuals, registry)
    ensures name in models <==> exists p, m :: IsModel(registry, p, m) && name == p.id + "/" + m.slug
  {
    SidecarNames(registry, models, virtuals);
    hide IsSidecar;
    var rows := Rows(registry.providers);
    if name in models {
      var k :| 0 <= k < |models| && models[k] == name;
      assert rows[k] in rows;
      RowOrigin(registry.providers, rows[k]);
      hide Rows;
      assert IsModel(registry, rows[k].provider, rows[k].mapping);
    }
    forall p, m | IsModel(registry, p, m) && name == p.id + "/" + m.slug ensures name in models {
      AllRows(registry.providers, p, m);
      hide Rows;
      var k :| 0 <= k < |rows| && rows[k] == Row(p, m);
      assert models[k] == name;
    }
  }

  /** A registry is priced exactly when it is valid and the models of its enabled providers are soundly priced. */
  lemma PricedExactly(registry: Registry)
    ensures BuildsPrices(registry) <==>
            && Validates(registry)
            && (forall p <- registry.providers | p.enabled ::
                  && (forall m <- p.models ::
                        && m.input >= 0.0 && m.output >= 0.0
                        && (m.cachedInput == None || m.cachedInput.value >= 0.0))
                  && forall i, j :: 0 <= i < j < |p.models| ==> p.models[i].slug != p.models[j].slug)
  {
    hide Validates;
  }

  /** The table prices a model exactly as its own entry in the registry does, and prices nothing else. */
  lemma PricesAreModels(registry: Registry, table: PriceTable, id: string, slug: string, prices: ValidPrices)
    requires BuildsPrices(registry) && IsPriceTable(table, registry.providers)
    ensures PriceFor(table, id, slug) == Some(prices) <==>
            exists p, m :: IsModel(registry, p, m) && p.id == id && m.slug == slug
              && prices.cost.input == m.input && prices.cost.output == m.output && prices.cachedInput == m.cachedInput
  {
    hide PriceFor, IsPriceTable, BuildsPrices, IsModel;
    forall p, m | IsModel(registry, p, m) && p.id == id && m.slug == slug
      ensures PriceFor(table, id, slug) == Some(ProviderPrices(ModelPrices(m.input, m.output), m.cachedInput))
    {
      ModelIsPriced(registry, table, p, m);
    }
    if PriceFor(table, id, slug).Some? {
      PriceHasModel(registry, table, id, slug);
    }
  }

  lemma ModelIsPriced(registry: Registry, table: PriceTable, p: Provider, m: Mapping)
    requires BuildsPrices(registry) && IsPriceTable(table, registry.providers) && IsModel(registry, p, m)
    ensures PriceFor(table, p.id, m.slug) == Some(ProviderPrices(ModelPrices(m.input, m.output), m.cachedInput))
  {
    hide Validates, HasPriceList;
    var i :| 0 <= i < |registry.providers| && registry.providers[i] == p;
    var j :| 0 <= j < |p.models| && p.models[j] == m;
    assert IsPriceList(table[p.id], p.models);
  }

  lemma PriceHasModel(registry: Registry, table: PriceTable, id: string, slug: string)
    requires IsPriceTable(table, registry.providers) && PriceFor(table, id, slug).Some?
    ensures exists p, m :: IsModel(registry, p, m) && p.id == id && m.slug == slug
  {
    hide IsPriced;
    var providers := registry.providers;
    var i :| 0 <= i < |providers| && providers[i].enabled && providers[i].id == id;
    assert IsPriceList(table[id], providers[i].models);
    PriceListSlugs(table[id], providers[i].models, slug);
    hide IsPriceList;
    var j :| 0 <= j < |providers[i].models| && providers[i].models[j].slug == slug;
    assert IsModel(registry, providers[i], providers[i].models[j]);
  }

  /** What the catalog compares: the sum of both prices, then each of them, then the provider. */
  predicate CostsNoMore(row: Row, p: Provider, m: Mapping) {
    var input, output := row.mapping.input, row.mapping.output;
    || input + output < m.input + m.output
    || (input + output == m.input + m.output
        && (|| input < m.input
            || (input == m.input
                && (|| output < m.output
                    || (output == m.output && !Before(p.id, row.provider.id))))))
  }

  /** A catalog entry is an offer, and none has a smaller sum of prices, nor comes first among those of equal sum. */
  lemma CatalogIsCheapest(registry: Registry, catalog: map<string, Row>, profile: RoutingProfile, slug: string)
    requires IsCatalog(catalog, Rows(registry.providers), profile)
    ensures var key := RouteKey(profile, slug);
            && (slug in catalog <==> exists p, m :: Offers(registry, key, p, m))
            && (slug in catalog ==>
                  && Offers(registry, key, catalog[slug].provider, catalog[slug].mapping)
                  && forall p, m :: Offers(registry, key, p, m) ==> CostsNoMore(catalog[slug], p, m))
  {
    var key := RouteKey(profile, slug);
    ServedWhenOffered(registry, key);
    hide Rows, RowsFor, Offers, Before;
    if slug in catalog {
      assert IsCheapest(catalog[slug], RowsFor(Rows(registry.providers), key));
      RowsAreOffers(registry, key, catalog[slug]);
      forall p, m | Offers(registry, key, p, m) ensures CostsNoMore(catalog[slug], p, m) {
        RowsAreOffers(registry, key, Row(p, m));
        assert !IsCheaper(Row(p, m), catalog[slug]);
      }
    }
  }

  /** The endpoints of a model are its offers, by priority, then provider, then the provider's own model id. */
  lemma EndpointsAreOffers(registry: Registry, endpoints: map<string, seq<Row>>, profile: RoutingProfile, slug: string)
    requires Lists(endpoints, Rows(registry.providers), profile, Endpoints) && slug in endpoints
    ensures forall row :: row in endpoints[slug] <==>
              Offers(registry, RouteKey(profile, slug), row.provider, row.mapping)
    ensures forall i, j :: 0 <= i < j < |endpoints[slug]| ==>
              var a, b := endpoints[slug][i], endpoints[slug][j];
              && a.provider.priority <= b.provider.priority
              && (a.provider.priority == b.provider.priority ==> !Before(b.provider.id, a.provider.id))
              && (a.provider.priority == b.provider.priority && a.provider.id == b.provider.id ==>
                    !Before(b.mapping.upstreamModel, a.mapping.upstreamModel))
  {
    var key := RouteKey(profile, slug);
    var rows := RowsFor(Rows(registry.providers), key);
    assert endpoints[slug] == Sort(rows, EndpointExceeds);
    SortKeepsMembers(rows, EndpointExceeds);
    hide Rows, RowsFor, Offers, Sort;
    forall row ensures row in endpoints[slug] <==> Offers(registry, key, row.provider, row.mapping) {
      RowsAreOffers(registry, key, row);
    }
    EndpointOrderLaws();
    forall i, j | 0 <= i < j < |endpoints[slug]| ensures !EndpointExceeds(endpoints[slug][i], endpoints[slug][j]) {
      SortIsStable(rows, endpoints[slug][i], EndpointExceeds);
    }
  }

  lemma NotBeforeIsTransitive(a: string, b: string, c: string)
    requires !Before(b, a) && !Before(c, b)
    ensures !Before(c, a)
    ensures !Before(a, c) ==> a == b == c
  {
    BeforeIsTotal(a, b);
    BeforeIsTotal(b, c);
    BeforeIsTotal(a, c);
    if a != b && b != c { BeforeIsTransitive(a, b, c); }
  }

  lemma EndpointOrderLaws()
    ensures IsWeakOrder(EndpointExceeds)
  {
    forall a: Row, b: Row | EndpointExceeds(a, b) ensures !EndpointExceeds(b, a) {
      BeforeIsTotal(a.provider.id, b.provider.id);
      BeforeIsTotal(a.mapping.upstreamModel, b.mapping.upstreamModel);
    }
    forall a: Row, b: Row, c: Row | !EndpointExceeds(a, b) && !EndpointExceeds(b, c) ensures !EndpointExceeds(a, c) {
      if a.provider.priority == b.provider.priority == c.provider.priority {
        NotBeforeIsTransitive(a.provider.id, b.provider.id, c.provider.id);
        hide Before;
        if a.provider.id == b.provider.id == c.provider.id {
          NotBeforeIsTransitive(a.mapping.upstreamModel, b.mapping.upstreamModel, c.mapping.upstreamModel);
        }
      }
    }
  }
}
