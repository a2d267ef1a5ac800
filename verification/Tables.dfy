/** The tables derived from one registry: routes, prices, sidecar configuration and catalog. */
module Tables {
  import opened Basics
  import opened Lexical
  import opened Pricing
  import opened Registry
  import opened Routing

  /** A mapping of an enabled provider. */
  datatype Row = Row(provider: Provider, mapping: Mapping)

  function RowsOf(provider: Provider, from: nat): (rows: seq<Row>)
    requires from <= |provider.models|
    ensures |rows| == |provider.models| - from
    decreases |provider.models| - from
  {
    if from == |provider.models| then [] else [Row(provider, provider.models[from])] + RowsOf(provider, from + 1)
  }

  /** Enabled providers in registry order, each with its models in order. */
  function Rows(providers: seq<Provider>): seq<Row> {
    if providers == [] then []
    else (if providers[0].enabled then RowsOf(providers[0], 0) else []) + Rows(providers[1..])
  }

  predicate Serves(row: Row, key: RouteKey) {
    key.profile in row.provider.profiles && row.mapping.slug == key.slug
  }

  /** The rows behind one profile and slug, in registry order. */
  function RowsFor(rows: seq<Row>, key: RouteKey): (served: seq<Row>)
    ensures forall row :: row in served <==> row in rows && Serves(row, key)
  {
    if rows == [] then []
    else
      var last := rows[|rows| - 1];
      assert rows == rows[..|rows| - 1] + [last];
      RowsFor(rows[..|rows| - 1], key) + (if Serves(last, key) then [last] else [])
  }

  // ------------------------------------------------------------------ sorting

  /** A stable sort by a key order. */
  function Sort<T>(xs: seq<T>, exceeds: (T, T) -> bool): (sorted: seq<T>)
    ensures multiset(sorted) == multiset(xs)
    ensures |sorted| == |xs|
  {
    if xs == [] then []
    else
      assert xs == xs[..|xs| - 1] + [xs[|xs| - 1]];
      Insert(Sort(xs[..|xs| - 1], exceeds), xs[|xs| - 1], exceeds)
  }

  function Insert<T>(xs: seq<T>, x: T, exceeds: (T, T) -> bool): (inserted: seq<T>)
    ensures multiset(inserted) == multiset(xs) + multiset{x}
    ensures |inserted| == |xs| + 1
  {
    if xs == [] then [x]
    else
      assert xs == xs[..|xs| - 1] + [xs[|xs| - 1]];
      if exceeds(xs[|xs| - 1], x) then Insert(xs[..|xs| - 1], x, exceeds) + [xs[|xs| - 1]]
      else xs + [x]
  }

  lemma SortKeepsMembers<T>(xs: seq<T>, exceeds: (T, T) -> bool)
    ensures forall x :: x in Sort(xs, exceeds) <==> x in xs
  {
    forall x ensures x in Sort(xs, exceeds) <==> x in xs {
      assert x in multiset(Sort(xs, exceeds)) <==> x in multiset(xs);
    }
  }

  /** A weak order: one way at most, and "does not exceed" is transitive. */
  ghost predicate IsWeakOrder<T(!new)>(exceeds: (T, T) -> bool) {
    && (forall a, b :: exceeds(a, b) ==> !exceeds(b, a))
    && (forall a, b, c :: !exceeds(a, b) && !exceeds(b, c) ==> !exceeds(a, c))
  }

  ghost predicate IsSorted<T(!new)>(xs: seq<T>, exceeds: (T, T) -> bool) {
    forall i, j :: 0 <= i < j < |xs| ==> !exceeds(xs[i], xs[j])
  }

  /** The elements that tie with `t`, in the order they stand. */
  function Ties<T>(xs: seq<T>, t: T, exceeds: (T, T) -> bool): seq<T> {
    if xs == [] then []
    else
      var last := xs[|xs| - 1];
      Ties(xs[..|xs| - 1], t, exceeds) + (if exceeds(last, t) || exceeds(t, last) then [] else [last])
  }

  lemma AppendKeepsOrder<T(!new)>(xs: seq<T>, x: T, exceeds: (T, T) -> bool)
    requires IsSorted(xs, exceeds) && forall y <- xs :: !exceeds(y, x)
    ensures IsSorted(xs + [x], exceeds)
  {
    var all := xs + [x];
    forall i, j | 0 <= i < j < |all| ensures !exceeds(all[i], all[j]) {
      assert all[i] == xs[i];
      if j < |xs| { assert all[j] == xs[j]; }
    }
  }

  lemma LastIsHighest<T(!new)>(xs: seq<T>, x: T, exceeds: (T, T) -> bool)
    requires IsWeakOrder(exceeds) && IsSorted(xs, exceeds) && xs != [] && !exceeds(xs[|xs| - 1], x)
    ensures forall y <- xs :: !exceeds(y, x)
  {
    forall y <- xs ensures !exceeds(y, x) {
      var i :| 0 <= i < |xs| && xs[i] == y;
      if i < |xs| - 1 { assert !exceeds(xs[i], xs[|xs| - 1]); }
    }
  }

  lemma {:induction false} InsertKeepsOrder<T(!new)>(xs: seq<T>, x: T, exceeds: (T, T) -> bool)
    requires IsWeakOrder(exceeds) && IsSorted(xs, exceeds)
    ensures IsSorted(Insert(xs, x, exceeds), exceeds)
  {
    if xs != [] {
      var front, last := xs[..|xs| - 1], xs[|xs| - 1];
      if exceeds(last, x) {
        InsertKeepsOrder(front, x, exceeds);
        var inserted := Insert(front, x, exceeds);
        forall y <- inserted ensures !exceeds(y, last) {
          assert y in multiset(inserted);
          assert y == x || y in front;
        }
        AppendKeepsOrder(inserted, last, exceeds);
      } else {
        LastIsHighest(xs, x, exceeds);
        AppendKeepsOrder(xs, x, exceeds);
      }
    }
  }

  lemma {:induction false} InsertGoesAfterTies<T(!new)>(xs: seq<T>, x: T, t: T, exceeds: (T, T) -> bool)
    requires IsWeakOrder(exceeds)
    ensures Ties(Insert(xs, x, exceeds), t, exceeds) == Ties(xs + [x], t, exceeds)
  {
    assert (xs + [x])[..|xs|] == xs;
    if xs != [] {
      var front, last := xs[..|xs| - 1], xs[|xs| - 1];
      if exceeds(last, x) {
        InsertGoesAfterTies(front, x, t, exceeds);
        var inserted := Insert(front, x, exceeds);
        assert (inserted + [last])[..|inserted|] == inserted;
        assert (front + [x])[..|front|] == front;
        assert exceeds(last, t) || exceeds(t, last) || exceeds(x, t) || exceeds(t, x);
      }
    }
  }

  /** The sort orders its input and keeps the elements that tie in the order they had. */
  lemma {:induction false} SortIsStable<T(!new)>(xs: seq<T>, t: T, exceeds: (T, T) -> bool)
    requires IsWeakOrder(exceeds)
    ensures IsSorted(Sort(xs, exceeds), exceeds)
    ensures Ties(Sort(xs, exceeds), t, exceeds) == Ties(xs, t, exceeds)
  {
    if xs != [] {
      var front, last := xs[..|xs| - 1], xs[|xs| - 1];
      SortIsStable(front, t, exceeds);
      InsertKeepsOrder(Sort(front, exceeds), last, exceeds);
      InsertGoesAfterTies(Sort(front, exceeds), last, t, exceeds);
      var sorted := Sort(front, exceeds);
      assert (sorted + [last])[..|sorted|] == sorted;
    }
  }

  function Map<T, U>(xs: seq<T>, f: T -> U): (mapped: seq<U>)
    ensures |mapped| == |xs| && forall i :: 0 <= i < |xs| ==> mapped[i] == f(xs[i])
  {
    seq(|xs|, i requires 0 <= i < |xs| => f(xs[i]))
  }

  lemma MapAppends<T, U>(xs: seq<T>, x: T, f: T -> U)
    ensures Map(xs + [x], f) == Map(xs, f) + [f(x)]
  {}

  lemma {:induction false} InsertCommutes<T, U>(xs: seq<T>, x: T, f: T -> U, exceeds: (T, T) -> bool,
                                                above: (U, U) -> bool)
    requires forall y <- xs :: exceeds(y, x) <==> above(f(y), f(x))
    ensures Map(Insert(xs, x, exceeds), f) == Insert(Map(xs, f), f(x), above)
  {
    if xs != [] {
      var front, last := xs[..|xs| - 1], xs[|xs| - 1];
      assert xs == front + [last];
      MapAppends(front, last, f);
      assert Map(xs, f)[..|xs| - 1] == Map(front, f);
      if exceeds(last, x) {
        InsertCommutes(front, x, f, exceeds, above);
        MapAppends(Insert(front, x, exceeds), last, f);
      } else {
        MapAppends(xs, x, f);
      }
    }
  }

  /** Earlier and later elements compare alike before and after conversion. */
  ghost predicate ComparesAlike<T, U>(xs: seq<T>, f: T -> U, exceeds: (T, T) -> bool, above: (U, U) -> bool) {
    forall i, j :: 0 <= i < j < |xs| ==> (exceeds(xs[i], xs[j]) <==> above(f(xs[i]), f(xs[j])))
  }

  lemma AlikeAtTheEnd<T, U>(front: seq<T>, last: T, f: T -> U, exceeds: (T, T) -> bool, above: (U, U) -> bool)
    requires ComparesAlike(front + [last], f, exceeds, above)
    ensures ComparesAlike(front, f, exceeds, above)
    ensures forall y <- front :: exceeds(y, last) <==> above(f(y), f(last))
  {
    var xs := front + [last];
    assert forall i :: 0 <= i < |front| ==> xs[i] == front[i];
    forall y <- front ensures exceeds(y, last) <==> above(f(y), f(last)) {
      var i :| 0 <= i < |front| && front[i] == y;
      assert exceeds(xs[i], xs[|front|]) <==> above(f(xs[i]), f(xs[|front|]));
    }
  }

  lemma SortAppends<T>(front: seq<T>, last: T, exceeds: (T, T) -> bool)
    ensures Sort(front + [last], exceeds) == Insert(Sort(front, exceeds), last, exceeds)
  {
    assert (front + [last])[..|front|] == front;
    hide Insert;
  }

  /** Sorting first or converting first makes no difference when both orders compare any two elements alike. */
  lemma {:induction false} SortCommutes<T, U>(xs: seq<T>, f: T -> U, exceeds: (T, T) -> bool, above: (U, U) -> bool)
    requires ComparesAlike(xs, f, exceeds, above)
    ensures Map(Sort(xs, exceeds), f) == Sort(Map(xs, f), above)
  {
    hide ComparesAlike, Insert, Sort, Map;
    if xs == [] {
      EmptyCommutes(f, exceeds, above);
    } else {
      var front, last := xs[..|xs| - 1], xs[|xs| - 1];
      assert xs == front + [last];
      AlikeAtTheEnd(front, last, f, exceeds, above);
      SortCommutes(front, f, exceeds, above);
      SortKeepsMembers(front, exceeds);
      calc {
        Map(Sort(xs, exceeds), f);
        { SortAppends(front, last, exceeds); }
        Map(Insert(Sort(front, exceeds), last, exceeds), f);
        { InsertCommutes(Sort(front, exceeds), last, f, exceeds, above); }
        Insert(Sort(Map(front, f), above), f(last), above);
        { SortAppends(Map(front, f), f(last), above); }
        Sort(Map(front, f) + [f(last)], above);
        { MapAppends(front, last, f); }
        Sort(Map(xs, f), above);
      }
    }
  }

  lemma EmptyCommutes<T, U>(f: T -> U, exceeds: (T, T) -> bool, above: (U, U) -> bool)
    ensures Map(Sort([], exceeds), f) == Sort(Map([], f), above)
  {}

  // ------------------------------------------------------------------- routes

  function DescriptorOf(row: Row): RouteDescriptor {
    var Row(provider, mapping) := row;
    RouteDescriptor(provider.id, mapping.input, mapping.output, provider.priority, mapping.constraints)
  }

  function RouteExceeds(a: RouteDescriptor, b: RouteDescriptor): bool {
    a.priority > b.priority || (a.priority == b.priority && Before(b.provider, a.provider))
  }

  /** Routes are tried by priority and then by provider; two routes of different providers never tie. */
  lemma RouteOrderLaws()
    ensures IsWeakOrder(RouteExceeds)
    ensures forall a: RouteDescriptor, b: RouteDescriptor ::
              a.provider != b.provider ==> RouteExceeds(a, b) || RouteExceeds(b, a)
  {
    forall a: RouteDescriptor, b: RouteDescriptor
      ensures RouteExceeds(a, b) ==> !RouteExceeds(b, a)
      ensures a.provider != b.provider ==> RouteExceeds(a, b) || RouteExceeds(b, a)
    {
      BeforeIsTotal(a.provider, b.provider);
    }
    forall a: RouteDescriptor, b: RouteDescriptor, c: RouteDescriptor | !RouteExceeds(a, b) && !RouteExceeds(b, c)
      ensures !RouteExceeds(a, c)
    {
      if a.priority == b.priority == c.priority && Before(c.provider, a.provider) {
        BeforeIsTotal(a.provider, b.provider);
        BeforeIsTotal(b.provider, c.provider);
        BeforeIsTotal(a.provider, c.provider);
        if a.provider != b.provider && b.provider != c.provider {
          BeforeIsTransitive(a.provider, b.provider, c.provider);
        }
      }
    }
  }

  function At<T>(table: map<RouteKey, seq<T>>, key: RouteKey): seq<T> {
    if key in table then table[key] else []
  }

  function Gathered<T>(rows: seq<Row>, f: Row -> T, key: RouteKey): seq<T> {
    Map(RowsFor(rows, key), f)
  }

  /** A per-key table gathers every row of a key, in order, and has no key without rows. */
  ghost predicate Gathers<T>(table: map<RouteKey, seq<T>>, rows: seq<Row>, f: Row -> T) {
    forall key :: At(table, key) == Gathered(rows, f, key) && (key in table <==> Gathered(rows, f, key) != [])
  }

  lemma GatheredAppends<T>(rows: seq<Row>, row: Row, f: Row -> T, key: RouteKey)
    ensures Gathered(rows + [row], f, key) == Gathered(rows, f, key) + (if Serves(row, key) then [f(row)] else [])
  {
    assert (rows + [row])[..|rows|] == rows;
    assert RowsFor(rows + [row], key) == RowsFor(rows, key) + (if Serves(row, key) then [row] else []);
  }

  /** One row pushed under each profile of its provider. */
  method PushRow<T>(table: map<RouteKey, seq<T>>, ghost rows: seq<Row>, row: Row, f: Row -> T)
    returns (pushed: map<RouteKey, seq<T>>)
    requires Gathers(table, rows, f)
    ensures Gathers(pushed, rows + [row], f)
  {
    pushed := table;
    var slug := row.mapping.slug;
    if Production in row.provider.profiles {
      pushed := pushed[RouteKey(Production, slug) := At(pushed, RouteKey(Production, slug)) + [f(row)]];
    }
    if Beta in row.provider.profiles {
      pushed := pushed[RouteKey(Beta, slug) := At(pushed, RouteKey(Beta, slug)) + [f(row)]];
    }
    forall key
      ensures At(pushed, key) == Gathered(rows + [row], f, key)
           && (key in pushed <==> Gathered(rows + [row], f, key) != [])
    {
      GatheredAppends(rows, row, f, key);
      assert At(table, key) == Gathered(rows, f, key);
      match key.profile
      case Production =>
      case Beta =>
    }
  }

  /** The routes of a key, by priority and then by provider. */
  function RoutesFor(registry: Registry, key: RouteKey): seq<RouteDescriptor> {
    Sort(Gathered(Rows(registry.providers), DescriptorOf, key), RouteExceeds)
  }

  ghost predicate IsRouteTable(routes: RouteTable, registry: Registry) {
    forall key :: At(routes, key) == RoutesFor(registry, key)
               && (key in routes <==> RowsFor(Rows(registry.providers), key) != [])
  }

  lemma SortedTableIsRouteTable(table: RouteTable, sorted: RouteTable, registry: Registry)
    requires Gathers(table, Rows(registry.providers), DescriptorOf)
    requires forall key :: key in sorted <==> key in table
    requires forall key <- sorted :: sorted[key] == Sort(table[key], RouteExceeds)
    ensures IsRouteTable(sorted, registry)
  {
    hide RowsFor, Rows, Before, RouteExceeds;
    var rows := Rows(registry.providers);
    forall key
      ensures At(sorted, key) == RoutesFor(registry, key) && (key in sorted <==> RowsFor(rows, key) != [])
    {
      assert At(table, key) == Gathered(rows, DescriptorOf, key);
      assert |Gathered(rows, DescriptorOf, key)| == |RowsFor(rows, key)|;
    }
  }

  /** The route table of a registry, or the first price that no candidate may have. */
  method BuildRoutes(registry: Registry) returns (result: Result<RouteTable, CandidateError>)
    ensures result.Ok? <==>
            forall row <- Rows(registry.providers) :: row.mapping.input >= 0.0 && row.mapping.output >= 0.0
    ensures result.Ok? ==> IsRouteTable(result.value, registry)
  {
    hide RowsFor, Rows, Sort, Gathers, IsRouteTable;
    var rows := Rows(registry.providers);
    var table: RouteTable := map[];
    EmptyGathers(DescriptorOf);
    for i := 0 to |rows|
      invariant forall j :: 0 <= j < i ==> rows[j].mapping.input >= 0.0 && rows[j].mapping.output >= 0.0
      invariant Gathers(table, rows[..i], DescriptorOf)
    {
      var row := rows[i];
      var checked :=
        NewCandidate(row.provider.id, row.mapping.input, row.mapping.output, row.provider.priority, None, true);
      if checked.Err? {
        assert row in rows;
        return Err(checked.error);
      }
      table := PushRow(table, rows[..i], row, DescriptorOf);
      assert rows[..i] + [row] == rows[..i + 1];
    }
    assert rows[..|rows|] == rows;
    var sorted := map key | key in table :: Sort(table[key], RouteExceeds);
    SortedTableIsRouteTable(table, sorted, registry);
    result := Ok(sorted);
  }

  lemma EmptyGathers<T>(f: Row -> T)
    ensures Gathers(map[], [], f)
  {}

  // ------------------------------------------------------------------- prices

  type PriceTable = map<string, map<string, ValidPrices>>

  datatype PriceTableError =
    | InvalidRegistry
    | DuplicateMapping(provider: string, slug: string)
    | NegativePrice(provider: string, slug: string)

  predicate IsPriced(mapping: Mapping) {
    && mapping.input >= 0.0 && mapping.output >= 0.0
    && (mapping.cachedInput.Some? ==> mapping.cachedInput.value >= 0.0)
  }

  function PricesOf(mapping: Mapping): ValidPrices
    requires IsPriced(mapping)
  {
    ProviderPrices(ModelPrices(mapping.input, mapping.output), mapping.cachedInput)
  }

  /** Every model of the provider is priced, under a slug of its own. */
  predicate HasPriceList(provider: Provider) {
    && (forall i :: 0 <= i < |provider.models| ==> IsPriced(provider.models[i]))
    && (forall i, j :: 0 <= i < j < |provider.models| ==> provider.models[i].slug != provider.models[j].slug)
  }

  /** Exactly the registries that have a price table. */
  predicate BuildsPrices(registry: Registry) {
    && Validates(registry)
    && forall i :: 0 <= i < |registry.providers| && registry.providers[i].enabled ==>
         HasPriceList(registry.providers[i])
  }

  predicate HasSlug(models: seq<Mapping>, slug: string) {
    exists i :: 0 <= i < |models| && models[i].slug == slug
  }

  /** The list holds the price of each model, and of nothing else. */
  ghost predicate IsPriceList(prices: map<string, ValidPrices>, models: seq<Mapping>) {
    && (forall i :: 0 <= i < |models| ==>
          IsPriced(models[i]) && models[i].slug in prices && prices[models[i].slug] == PricesOf(models[i]))
    && (forall slug :: slug in prices ==> HasSlug(models, slug))
  }

  lemma PriceListGrows(prices: map<string, ValidPrices>, models: seq<Mapping>, model: Mapping)
    requires IsPriceList(prices, models) && IsPriced(model) && model.slug !in prices
    ensures IsPriceList(prices[model.slug := PricesOf(model)], models + [model])
    ensures !HasSlug(models, model.slug)
  {
    var grown, more := prices[model.slug := PricesOf(model)], models + [model];
    forall slug | slug in grown ensures HasSlug(more, slug) {
      if slug == model.slug {
        assert more[|models|].slug == slug;
      } else {
        var i :| 0 <= i < |models| && models[i].slug == slug;
        assert more[i].slug == slug;
      }
    }
  }

  lemma NothingPriced()
    ensures IsPriceList(map[], [])
  {}

  lemma PriceListSlugs(prices: map<string, ValidPrices>, models: seq<Mapping>, slug: string)
    requires IsPriceList(prices, models)
    ensures slug in prices <==> HasSlug(models, slug)
  {}

  /** The error names a model of the provider with a negative price, or a slug that two of its models share. */
  ghost predicate Explains(error: PriceTableError, provider: Provider) {
    match error
    case InvalidRegistry => false
    case NegativePrice(id, slug) =>
      id == provider.id
      && exists i :: 0 <= i < |provider.models| && provider.models[i].slug == slug && !IsPriced(provider.models[i])
    case DuplicateMapping(id, slug) =>
      id == provider.id
      && exists i, j :: 0 <= i < j < |provider.models| && provider.models[i].slug == slug == provider.models[j].slug
  }

  method PriceList(provider: Provider) returns (result: Result<map<string, ValidPrices>, PriceTableError>)
    ensures result.Ok? <==> HasPriceList(provider)
    ensures result.Err? ==> Explains(result.error, provider)
    ensures result.Ok? ==> IsPriceList(result.value, provider.models)
  {
    hide IsPriceList;
    var models := provider.models;
    var prices: map<string, ValidPrices> := map[];
    NothingPriced();
    for i := 0 to |models|
      invariant forall j :: 0 <= j < i ==> IsPriced(models[j])
      invariant forall j, k :: 0 <= j < k < i ==> models[j].slug != models[k].slug
      invariant IsPriceList(prices, models[..i])
    {
      var model := models[i];
      PriceListSlugs(prices, models[..i], model.slug);
      if !IsPriced(model) {
        return Err(NegativePrice(provider.id, model.slug));
      }
      if model.slug in prices {
        var k :| 0 <= k < i && models[..i][k].slug == model.slug;
        assert models[k].slug == model.slug == models[i].slug;
        return Err(DuplicateMapping(provider.id, model.slug));
      }
      PriceListGrows(prices, models[..i], model);
      forall j | 0 <= j < i ensures models[j].slug != model.slug {
        assert models[..i][j].slug == models[j].slug;
      }
      assert models[..i] + [model] == models[..i + 1];
      prices := prices[model.slug := PricesOf(model)];
    }
    assert models[..|models|] == models;
    return Ok(prices);
  }

  /** The table has a list for each enabled provider, and no other entry. */
  ghost predicate IsPriceTable(table: PriceTable, providers: seq<Provider>) {
    && (forall i :: 0 <= i < |providers| && providers[i].enabled ==>
          providers[i].id in table && IsPriceList(table[providers[i].id], providers[i].models))
    && (forall id :: id in table ==> exists i :: 0 <= i < |providers| && providers[i].enabled && providers[i].id == id)
  }

  lemma NothingListed()
    ensures IsPriceTable(map[], [])
  {}

  lemma ExplainedIsNotInvalid(error: PriceTableError, provider: Provider)
    requires Explains(error, provider)
    ensures !error.InvalidRegistry?
  {}

  method BuildPrices(registry: Registry) returns (result: Result<PriceTable, PriceTableError>)
    ensures result.Ok? <==> BuildsPrices(registry)
    ensures result == Err(InvalidRegistry) <==> !Validates(registry)
    ensures result.Err? && Validates(registry) ==>
              exists i :: 0 <= i < |registry.providers| && Explains(result.error, registry.providers[i])
    ensures result.Ok? ==> IsPriceTable(result.value, registry.providers)
  {
    hide HasPriceList, IsPriceTable, Explains, ValidProvider;
    if !Validates(registry) {
      return Err(InvalidRegistry);
    }
    var providers := registry.providers;
    var table: PriceTable := map[];
    NothingListed();
    for i := 0 to |providers|
      invariant forall j :: 0 <= j < i && providers[j].enabled ==> HasPriceList(providers[j])
      invariant IsPriceTable(table, providers[..i])
    {
      var provider := providers[i];
      if provider.enabled {
        var list := PriceList(provider);
        if list.Err? {
          ExplainedIsNotInvalid(list.error, provider);
          return Err(list.error);
        }
        ghost var before := table;
        table := table[provider.id := list.value];
        PriceTableGrows(before, providers, i, list.value);
      } else {
        PriceTableSkips(table, providers, i);
      }
    }
    assert providers[..|providers|] == providers;
    return Ok(table);
  }

  lemma PriceTableGrows(table: PriceTable, providers: seq<Provider>, i: nat, list: map<string, ValidPrices>)
    requires i < |providers| && providers[i].enabled
    requires forall j, k :: 0 <= j < k < |providers| ==> providers[j].id != providers[k].id
    requires IsPriceTable(table, providers[..i]) && IsPriceList(list, providers[i].models)
    ensures IsPriceTable(table[providers[i].id := list], providers[..i + 1])
  {
    hide IsPriceList;
    var grown, front := table[providers[i].id := list], providers[..i + 1];
    forall j | 0 <= j < |front| && front[j].enabled
      ensures front[j].id in grown && IsPriceList(grown[front[j].id], front[j].models)
    {
      if j < i { assert providers[..i][j] == front[j]; }
    }
    forall id | id in grown ensures exists j :: 0 <= j < |front| && front[j].enabled && front[j].id == id {
      if id in table {
        var j :| 0 <= j < i && providers[..i][j].enabled && providers[..i][j].id == id;
        assert front[j].id == id;
      } else {
        assert front[i].id == id;
      }
    }
  }

  lemma PriceTableSkips(table: PriceTable, providers: seq<Provider>, i: nat)
    requires i < |providers| && !providers[i].enabled
    requires IsPriceTable(table, providers[..i])
    ensures IsPriceTable(table, providers[..i + 1])
  {
    hide IsPriceList;
    var front := providers[..i + 1];
    forall j | 0 <= j < |front| && front[j].enabled
      ensures front[j].id in table && IsPriceList(table[front[j].id], front[j].models)
    {
      assert providers[..i][j] == front[j];
    }
    forall id | id in table ensures exists j :: 0 <= j < |front| && front[j].enabled && front[j].id == id {
      var j :| 0 <= j < i && providers[..i][j].enabled && providers[..i][j].id == id;
      assert front[j].id == id;
    }
  }

  function PriceFor(table: PriceTable, provider: string, slug: string): Option<ValidPrices> {
    if provider in table && slug in table[provider] then Some(table[provider][slug]) else None
  }

  // ------------------------------------------------------------------ sidecar

  datatype VirtualTarget = VirtualTarget(model: string, priority: nat)

  function RouteName(row: Row): string {
    ModelOf(row.provider.id, row.mapping.slug)
  }

  function TargetOf(row: Row): VirtualTarget {
    VirtualTarget(RouteName(row), row.provider.priority)
  }

  function TargetExceeds(a: VirtualTarget, b: VirtualTarget): bool {
    a.priority > b.priority
  }

  /** The targets of a virtual model by priority, ties in registry order. */
  lemma TargetsAreByPriority(gathered: seq<VirtualTarget>, t: VirtualTarget)
    ensures var targets := Sort(gathered, TargetExceeds);
            && (forall i, j :: 0 <= i < j < |targets| ==> targets[i].priority <= targets[j].priority)
            && Ties(targets, t, TargetExceeds) == Ties(gathered, t, TargetExceeds)
  {
    SortIsStable(gathered, t, TargetExceeds);
  }

  type VirtualModels = map<RouteKey, seq<VirtualTarget>>

  /** One named route per row, and per key the targets of its rows by priority. */
  ghost predicate IsSidecar(models: seq<string>, virtuals: VirtualModels, registry: Registry) {
    && models == Map(Rows(registry.providers), RouteName)
    && forall key ::
         && At(virtuals, key) == Sort(Gathered(Rows(registry.providers), TargetOf, key), TargetExceeds)
         && (key in virtuals <==> RowsFor(Rows(registry.providers), key) != [])
  }

  method BuildSidecar(registry: Registry) returns (valid: bool, models: seq<string>, virtuals: VirtualModels)
    ensures valid <==> Validates(registry)
    ensures valid ==> IsSidecar(models, virtuals, registry)
  {
    models, virtuals := [], map[];
    valid := Validates(registry);
    if !valid {
      return;
    }
    var rows := Rows(registry.providers);
    var targets: VirtualModels := map[];
    for i := 0 to |rows|
      invariant models == Map(rows[..i], RouteName)
      invariant Gathers(targets, rows[..i], TargetOf)
    {
      targets := PushRow(targets, rows[..i], rows[i], TargetOf);
      models := models + [RouteName(rows[i])];
      assert rows[..i] + [rows[i]] == rows[..i + 1];
    }
    assert rows[..|rows|] == rows;
    virtuals := map key | key in targets :: Sort(targets[key], TargetExceeds);
  }

  // ------------------------------------------------------------------ catalog

  function Combined(mapping: Mapping): real {
    mapping.input + mapping.output
  }

  /** Cheaper by combined price, then input, then output, then provider id. */
  predicate IsCheaper(a: Row, b: Row) {
    var x, y := a.mapping, b.mapping;
    || Combined(x) < Combined(y)
    || (Combined(x) == Combined(y) && x.input < y.input)
    || (Combined(x) == Combined(y) && x.input == y.input && x.output < y.output)
    || (Combined(x) == Combined(y) && x.input == y.input && x.output == y.output
        && Before(a.provider.id, b.provider.id))
  }

  lemma CheaperIsTransitive(a: Row, b: Row, c: Row)
    requires IsCheaper(a, b) && IsCheaper(b, c)
    ensures IsCheaper(a, c)
  {
    if Before(a.provider.id, b.provider.id) && Before(b.provider.id, c.provider.id) {
      BeforeIsTransitive(a.provider.id, b.provider.id, c.provider.id);
    }
  }

  predicate IsCheapest(row: Row, rows: seq<Row>) {
    row in rows && forall other <- rows :: !IsCheaper(other, row)
  }

  /** The catalog lists exactly the slugs that some row serves, each at a cheapest row. */
  ghost predicate IsCatalog(cheapest: map<string, Row>, rows: seq<Row>, profile: RoutingProfile) {
    forall slug ::
      && (slug in cheapest <==> RowsFor(rows, RouteKey(profile, slug)) != [])
      && (slug in cheapest ==> IsCheapest(cheapest[slug], RowsFor(rows, RouteKey(profile, slug))))
  }

  /** Endpoints of a model are listed by priority, then by provider, then by the provider's own model id. */
  predicate EndpointExceeds(a: Row, b: Row) {
    || a.provider.priority > b.provider.priority
    || (a.provider.priority == b.provider.priority
        && (|| Before(b.provider.id, a.provider.id)
            || (a.provider.id == b.provider.id && Before(b.mapping.upstreamModel, a.mapping.upstreamModel))))
  }

  /** Each slug with the rows that serve it, arranged in some way. */
  ghost predicate Lists(table: map<string, seq<Row>>, rows: seq<Row>, profile: RoutingProfile,
                        arranged: seq<Row> -> seq<Row>)
  {
    forall slug ::
      && (slug in table <==> RowsFor(rows, RouteKey(profile, slug)) != [])
      && (slug in table ==> table[slug] == arranged(RowsFor(rows, RouteKey(profile, slug))))
  }

  function AsServed(rows: seq<Row>): seq<Row> {
    rows
  }

  function Endpoints(rows: seq<Row>): seq<Row> {
    Sort(rows, EndpointExceeds)
  }

  /** The cheapest row of each slug, and all of its endpoints in order. */
  method BuildCatalog(registry: Registry, profile: RoutingProfile)
    returns (cheapest: map<string, Row>, endpoints: map<string, seq<Row>>)
    ensures IsCatalog(cheapest, Rows(registry.providers), profile)
    ensures Lists(endpoints, Rows(registry.providers), profile, Endpoints)
  {
    hide RowsFor, IsCheapest, Rows, Sort, Lists;
    var rows := Rows(registry.providers);
    var served: map<string, seq<Row>> := map[];
    cheapest := map[];
    EmptyCatalog(profile);
    assert rows[..0] == [];
    for i := 0 to |rows|
      invariant IsCatalog(cheapest, rows[..i], profile)
      invariant Lists(served, rows[..i], profile, AsServed)
    {
      var row := rows[i];
      ghost var before, listed := cheapest, served;
      if profile in row.provider.profiles {
        var slug := row.mapping.slug;
        if slug !in cheapest || IsCheaper(row, cheapest[slug]) {
          cheapest := cheapest[slug := row];
        }
        served := served[slug := (if slug in served then served[slug] else []) + [row]];
      }
      assert rows[..i] + [row] == rows[..i + 1];
      CatalogGrows(before, cheapest, rows[..i], row, profile);
      ListGrows(listed, served, rows[..i], row, profile);
    }
    assert rows[..|rows|] == rows;
    endpoints := map slug | slug in served :: Endpoints(served[slug]);
    ListsInOrder(served, endpoints, rows, profile);
  }

  lemma ListGrows(before: map<string, seq<Row>>, after: map<string, seq<Row>>, rows: seq<Row>, row: Row,
                  profile: RoutingProfile)
    requires Lists(before, rows, profile, AsServed)
    requires var slug := row.mapping.slug;
             after == if profile in row.provider.profiles
                      then before[slug := (if slug in before then before[slug] else []) + [row]] else before
    ensures Lists(after, rows + [row], profile, AsServed)
  {
    forall slug
      ensures slug in after <==> RowsFor(rows + [row], RouteKey(profile, slug)) != []
      ensures slug in after ==> after[slug] == RowsFor(rows + [row], RouteKey(profile, slug))
    {
      var key := RouteKey(profile, slug);
      assert (rows + [row])[..|rows|] == rows;
      assert RowsFor(rows + [row], key) == RowsFor(rows, key) + (if Serves(row, key) then [row] else []);
      assert slug in before <==> RowsFor(rows, key) != [];
    }
  }

  lemma ListsInOrder(served: map<string, seq<Row>>, endpoints: map<string, seq<Row>>, rows: seq<Row>,
                     profile: RoutingProfile)
    requires Lists(served, rows, profile, AsServed)
    requires forall slug :: slug in endpoints <==> slug in served
    requires forall slug <- served :: endpoints[slug] == Endpoints(served[slug])
    ensures Lists(endpoints, rows, profile, Endpoints)
  {
    hide RowsFor, Endpoints;
  }

  lemma EmptyCatalog(profile: RoutingProfile)
    ensures IsCatalog(map[], [], profile)
    ensures Lists(map[], [], profile, AsServed)
  {}

  lemma CatalogGrows(before: map<string, Row>, after: map<string, Row>, rows: seq<Row>, row: Row,
                     profile: RoutingProfile)
    requires IsCatalog(before, rows, profile)
    requires after == if profile in row.provider.profiles
                         && (row.mapping.slug !in before || IsCheaper(row, before[row.mapping.slug]))
                      then before[row.mapping.slug := row] else before
    ensures IsCatalog(after, rows + [row], profile)
  {
    forall slug
      ensures slug in after <==> RowsFor(rows + [row], RouteKey(profile, slug)) != []
      ensures slug in after ==> IsCheapest(after[slug], RowsFor(rows + [row], RouteKey(profile, slug)))
    {
      var key := RouteKey(profile, slug);
      var served := RowsFor(rows, key);
      assert (rows + [row])[..|rows|] == rows;
      assert RowsFor(rows + [row], key) == served + (if Serves(row, key) then [row] else []);
      assert slug in before <==> served != [];
      if Serves(row, key) {
        CheapestOfMore(served, row, if slug in before then before[slug] else row);
      }
    }
  }

  lemma CheapestOfMore(served: seq<Row>, row: Row, current: Row)
    requires if served == [] then current == row else IsCheapest(current, served)
    ensures IsCheapest(if served == [] || IsCheaper(row, current) then row else current, served + [row])
  {
    BeforeIsTotal(row.provider.id, row.provider.id);
    forall other <- served | served != [] && IsCheaper(row, current) ensures !IsCheaper(other, row) {
      if IsCheaper(other, row) { CheaperIsTransitive(other, row, current); }
    }
  }
}
