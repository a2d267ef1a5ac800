/** What the router's names reach: the price a routed request is charged at, and the route a model string names. */
module Naming {
  import opened Basics
  import opened Pricing
  import opened UsageCost
  import opened Registry
  import opened Routing
  import opened Tables
  import opened Agreement

  // ------------------------------------------------------------ request prices

  /** The prices of a streaming request, looked up by the served provider and the requested model. */
  function PricesForRequest(prices: PriceTable, requested: string, served: string): Option<ValidPrices> {
    PriceFor(prices, served, CanonicalSlug(requested, served))
  }

  /** The slug reads as a model of the provider, so a lookup drops the provider from it. */
  predicate StartsWithProvider(slug: string, provider: string) {
    provider + "/" < slug
  }

  function Shortened(slug: string, provider: string): string
    requires StartsWithProvider(slug, provider)
  {
    slug[|provider| + 1..]
  }

  /** Some model under this slug has these prices. */
  predicate Sells(models: seq<Mapping>, slug: string, prices: ValidPrices) {
    exists i :: 0 <= i < |models| && models[i].slug == slug && IsPriced(models[i]) && PricesOf(models[i]) == prices
  }

  lemma PriceForSlug(prices: PriceTable, registry: Registry, row: Row, slug: string)
    requires BuildsPrices(registry) && IsPriceTable(prices, registry.providers)
    requires row in Rows(registry.providers)
    ensures PriceFor(prices, row.provider.id, slug).Some? <==> HasSlug(row.provider.models, slug)
    ensures forall found: ValidPrices ::
              PriceFor(prices, row.provider.id, slug) == Some(found) <==> Sells(row.provider.models, slug, found)
  {
    RowOrigin(registry.providers, row);
    hide IsPriced, PricesOf, Rows, Validates;
    var list, models := prices[row.provider.id], row.provider.models;
    assert IsPriceList(list, models) && HasPriceList(row.provider);
    PriceListSlugs(list, models, slug);
    if HasSlug(models, slug) {
      var i :| 0 <= i < |models| && models[i].slug == slug;
      assert list[slug] == PricesOf(models[i]);
    }
  }

  /**
   * For every priced registry and every model it serves. A request for the model finds a price exactly when its slug
   * does not start with the provider's id and a slash, or the provider also serves the slug without them; and it is
   * charged at the model's own prices exactly when, in the second case, the other model has the same. A request that
   * names the provider in front of the slug always finds the model's own prices.
   */
  lemma RequestFindsItsPrice(registry: Registry, prices: PriceTable, row: Row)
    requires BuildsPrices(registry) && IsPriceTable(prices, registry.providers)
    requires row in Rows(registry.providers)
    ensures IsPriced(row.mapping)
    ensures var (slug, id, models) := (row.mapping.slug, row.provider.id, row.provider.models);
            var found := PricesForRequest(prices, slug, id);
            && (found.Some? <==> !StartsWithProvider(slug, id) || HasSlug(models, Shortened(slug, id)))
            && (found == Some(PricesOf(row.mapping)) <==>
                !StartsWithProvider(slug, id) || Sells(models, Shortened(slug, id), PricesOf(row.mapping)))
            && (slug != "" ==> PricesForRequest(prices, ModelOf(id, slug), id) == Some(PricesOf(row.mapping)))
  {
    var slug, id := row.mapping.slug, row.provider.id;
    ServersArePriced(prices, registry, row);
    CanonicalSlugMeaning(slug, id);
    if StartsWithProvider(slug, id) {
      PriceForSlug(prices, registry, row, Shortened(slug, id));
    }
    hide IsPriceTable, BuildsPrices, Rows, PriceFor, Sells, HasSlug, IsPriced;
  }

  // ---------------------------------------------------- a price that is missed

  function Plainly(slug: string, input: real): Mapping {
    Mapping(slug, slug, input, None, input, Constraints({Chat}, true, None))
  }

  function Provide(id: string, models: seq<Mapping>): Provider {
    Provider(id, true, 0, {Production}, models)
  }

  lemma RowsOfOne(id: string, models: seq<Mapping>)
    ensures Rows([Provide(id, models)]) == RowsOf(Provide(id, models), 0)
  {
    var provider := Provide(id, models);
    assert [provider][1..] == [];
    assert RowsOf(provider, 0) + [] == RowsOf(provider, 0);
  }

  lemma FirstRow(id: string, models: seq<Mapping>)
    requires models != []
    ensures Row(Provide(id, models), models[0]) in Rows([Provide(id, models)])
  {
    RowsOfOne(id, models);
    RowsOfMembers(Provide(id, models), 0);
    assert RowsOf(Provide(id, models), 0)[0] == Row(Provide(id, models), models[0]);
  }

  /** A request for a row's model is routed to its provider, in every route table of the registry. */
  lemma RowIsRouted(registry: Registry, routes: RouteTable, row: Row, profile: RoutingProfile)
    requires IsRouteTable(routes, registry)
    requires row in Rows(registry.providers) && profile in row.provider.profiles
    ensures RoutesTo(routes, RouteKey(profile, row.mapping.slug), row.provider.id)
  {
    var key := RouteKey(profile, row.mapping.slug);
    var served := RowsFor(Rows(registry.providers), key);
    assert row in served;
    var i :| 0 <= i < |served| && served[i] == row;
    RoutesToServers(routes, registry, key, row.provider.id);
    hide IsRouteTable, Rows, RowsFor;
  }

  const MISSED := Plainly("deepseek/v4", 1.0)

  const MISSING := Registry([Provide("deepseek", [MISSED])])

  /** A valid registry that is priced and routed, and whose one model is never found in any of its price tables. */
  lemma PriceIsMissed()
    ensures BuildsPrices(MISSING)
    ensures forall routes: RouteTable :: IsRouteTable(routes, MISSING) ==>
              RoutesTo(routes, RouteKey(Production, MISSED.slug), "deepseek")
    ensures forall prices: PriceTable :: IsPriceTable(prices, MISSING.providers) ==>
              PricesForRequest(prices, MISSED.slug, "deepseek") == None
  {
    var row := Row(Provide("deepseek", [MISSED]), MISSED);
    FirstRow("deepseek", [MISSED]);
    assert StartsWithProvider("deepseek/v4", "deepseek") && Shortened("deepseek/v4", "deepseek") == "v4";
    forall routes: RouteTable | IsRouteTable(routes, MISSING)
      ensures RoutesTo(routes, RouteKey(Production, MISSED.slug), "deepseek")
    {
      RowIsRouted(MISSING, routes, row, Production);
    }
    forall prices: PriceTable | IsPriceTable(prices, MISSING.providers)
      ensures PricesForRequest(prices, MISSED.slug, "deepseek") == None
    {
      RequestFindsItsPrice(MISSING, prices, row);
    }
  }

  const CHEAP := Plainly("v4", 0.5)

  const SHADOWED := Registry([Provide("deepseek", [MISSED, CHEAP])])

  /** With both slugs served, a request for one is charged at the prices of the other. */
  lemma OtherPriceIsCharged()
    ensures BuildsPrices(SHADOWED)
    ensures forall routes: RouteTable :: IsRouteTable(routes, SHADOWED) ==>
              RoutesTo(routes, RouteKey(Production, MISSED.slug), "deepseek")
    ensures forall prices: PriceTable :: IsPriceTable(prices, SHADOWED.providers) ==>
              && PricesForRequest(prices, MISSED.slug, "deepseek") == Some(PricesOf(CHEAP))
              && PricesOf(CHEAP) != PricesOf(MISSED)
  {
    var row := Row(Provide("deepseek", [MISSED, CHEAP]), MISSED);
    FirstRow("deepseek", [MISSED, CHEAP]);
    assert StartsWithProvider("deepseek/v4", "deepseek") && Shortened("deepseek/v4", "deepseek") == "v4";
    forall routes: RouteTable | IsRouteTable(routes, SHADOWED)
      ensures RoutesTo(routes, RouteKey(Production, MISSED.slug), "deepseek")
    {
      RowIsRouted(SHADOWED, routes, row, Production);
    }
    forall prices: PriceTable | IsPriceTable(prices, SHADOWED.providers)
      ensures PricesForRequest(prices, MISSED.slug, "deepseek") == Some(PricesOf(CHEAP))
    {
      PriceForSlug(prices, SHADOWED, row, "v4");
      assert row.provider.models[1] == CHEAP;
      assert Sells(row.provider.models, "v4", PricesOf(CHEAP));
    }
  }

  // --------------------------------------------------------------- route names

  /** The longer provider id takes over the front of the shorter one's slug. */
  predicate Overlaps(shortId: string, longSlug: string, longId: string, shortSlug: string) {
    shortId + "/" <= longId && longSlug == longId[|shortId| + 1..] + "/" + shortSlug
  }

  lemma OverlapCollides(a: string, s: string, b: string, t: string)
    requires Overlaps(a, s, b, t)
    ensures a != b && ModelOf(a, s) == ModelOf(b, t)
  {
    var middle := b[|a| + 1..];
    assert b == (a + "/") + middle;
  }

  lemma CollisionOverlaps(a: string, s: string, b: string, t: string)
    requires ModelOf(a, s) == ModelOf(b, t) && |a| < |b|
    ensures Overlaps(a, s, b, t)
  {
    var name, n := ModelOf(a, s), |a| + 1;
    assert name == (a + "/") + s == b + ("/" + t);
    assert name[..n] == a + "/" && name[..n] == b[..n];
    assert name[n..] == s && name[n..] == b[n..] + ("/" + t);
    assert b[n..] + ("/" + t) == b[n..] + "/" + t;
  }

  /** Two providers' models share a name exactly when one id continues the other and takes the front of its slug. */
  lemma NamesCollideExactly(a: string, s: string, b: string, t: string)
    ensures a != b && ModelOf(a, s) == ModelOf(b, t) <==> Overlaps(a, s, b, t) || Overlaps(b, t, a, s)
  {
    if Overlaps(a, s, b, t) { OverlapCollides(a, s, b, t); }
    if Overlaps(b, t, a, s) { OverlapCollides(b, t, a, s); }
    if ModelOf(a, s) == ModelOf(b, t) {
      if |a| < |b| {
        CollisionOverlaps(a, s, b, t);
      } else if |b| < |a| {
        CollisionOverlaps(b, t, a, s);
      } else {
        assert ModelOf(a, s)[..|a|] == a && ModelOf(b, t)[..|b|] == b;
      }
    }
  }

  predicate ClashesWith(row: Row, provider: string, slug: string) {
    || Overlaps(row.provider.id, row.mapping.slug, provider, slug)
    || Overlaps(provider, slug, row.provider.id, row.mapping.slug)
  }

  lemma NameNamesAnother(row: Row, provider: string, slug: string)
    ensures RouteName(row) == ModelOf(provider, slug) && row.provider.id != provider <==>
            ClashesWith(row, provider, slug)
  {
    hide Overlaps, ModelOf;
    NamesCollideExactly(row.provider.id, row.mapping.slug, provider, slug);
  }

  predicate NamesOnly(models: seq<string>, rows: seq<Row>, name: string, provider: string)
    requires |models| == |rows|
  {
    forall k :: 0 <= k < |rows| && models[k] == name ==> rows[k].provider.id == provider
  }

  /**
   * A routed model's string names a generated route of its own provider, and of no other exactly when no row's id and
   * slug overlap with it.
   */
  lemma NameIsItsOwnExactly(registry: Registry, routes: RouteTable, models: seq<string>, virtuals: VirtualModels,
                            key: RouteKey, provider: string)
    requires IsRouteTable(routes, registry) && IsSidecar(models, virtuals, registry)
    requires RoutesTo(routes, key, provider)
    ensures var rows, name := Rows(registry.providers), ModelOf(provider, key.slug);
            && |models| == |rows|
            && HasOwnRoute(models, rows, provider, key.slug)
            && (NamesOnly(models, rows, name, provider) <==>
                forall row <- rows :: !ClashesWith(row, provider, key.slug))
  {
    OwnRouteIsNamed(registry, routes, models, virtuals, key, provider);
    SidecarNames(registry, models, virtuals);
    hide IsRouteTable, IsSidecar, RoutesTo, Rows, ModelOf, ClashesWith, NamesOnly, HasOwnRoute;
    OnlyOwnerIsNamed(models, Rows(registry.providers), key.slug, provider);
  }

  lemma OnlyOwnerIsNamed(models: seq<string>, rows: seq<Row>, slug: string, provider: string)
    requires |models| == |rows| && forall k :: 0 <= k < |rows| ==> models[k] == RouteName(rows[k])
    ensures NamesOnly(models, rows, ModelOf(provider, slug), provider) <==>
            forall row <- rows :: !ClashesWith(row, provider, slug)
  {
    hide RouteName, ModelOf, ClashesWith;
    forall k | 0 <= k < |rows|
      ensures models[k] == ModelOf(provider, slug) && rows[k].provider.id != provider <==>
              ClashesWith(rows[k], provider, slug)
    {
      NameNamesAnother(rows[k], provider, slug);
    }
  }

  lemma OverlapHasSlash(shortId: string, longSlug: string, longId: string, shortSlug: string)
    ensures Overlaps(shortId, longSlug, longId, shortSlug) ==> '/' in longId
  {
    assert shortId + "/" <= longId ==> longId[|shortId|] == (shortId + "/")[|shortId|];
  }

  /** Ids without a slash never clash. */
  lemma PlainIdsDoNotClash(row: Row, provider: string, slug: string)
    requires '/' !in row.provider.id && '/' !in provider
    ensures !ClashesWith(row, provider, slug)
  {
    hide Overlaps;
    OverlapHasSlash(row.provider.id, row.mapping.slug, provider, slug);
    OverlapHasSlash(provider, slug, row.provider.id, row.mapping.slug);
  }

  const CLASHING := Registry([Provide("a", [Plainly("b/c", 1.0)]), Provide("a/b", [Plainly("c", 1.0)])])

  /** A valid, priced registry in which two providers' routes have one name. */
  lemma RoutesShareAName()
    ensures BuildsPrices(CLASHING)
    ensures forall models: seq<string>, virtuals: VirtualModels :: IsSidecar(models, virtuals, CLASHING) ==>
              models == ["a/b/c", "a/b/c"]
  {
    var first, second := Provide("a", [Plainly("b/c", 1.0)]), Provide("a/b", [Plainly("c", 1.0)]);
    RowsOfOne("a/b", [Plainly("c", 1.0)]);
    assert [first, second][1..] == [second];
    assert Rows([first, second]) == [Row(first, Plainly("b/c", 1.0)), Row(second, Plainly("c", 1.0))];
    assert RouteName(Row(first, Plainly("b/c", 1.0))) == "a/b/c" == RouteName(Row(second, Plainly("c", 1.0)));
  }
}
