/** The sidecar's failover order against the router's own: they break ties of priority differently. */
module FailoverOrder {
  import opened Lexical
  import opened Registry
  import opened Routing
  import opened Tables
  import opened Agreement
  import opened Naming

  /** The model strings of a key's targets, and those of its routes, in their orders. */
  function TargetNames(virtuals: VirtualModels, key: RouteKey): seq<string> {
    Map(At(virtuals, key), (t: VirtualTarget) => t.model)
  }

  function RouteNames(routes: RouteTable, key: RouteKey): seq<string> {
    Map(At(routes, key), (d: RouteDescriptor) => ModelOf(d.provider, key.slug))
  }

  predicate LowerPriority(a: Row, b: Row) {
    a.provider.priority > b.provider.priority
  }

  /** Rows of equal priority stand in the order of their provider ids. */
  predicate InIdOrder(rows: seq<Row>) {
    forall i, j :: 0 <= i < j < |rows| && rows[i].provider.priority == rows[j].provider.priority ==>
      Before(rows[i].provider.id, rows[j].provider.id)
  }

  lemma PriorityOrderLaws()
    ensures IsWeakOrder(LowerPriority)
  {}

  lemma EndpointOrderLaws()
    ensures IsWeakOrder(EndpointExceeds)
  {
    forall a: Row, b: Row ensures EndpointExceeds(a, b) ==> !EndpointExceeds(b, a) {
      BeforeIsTotal(a.provider.id, b.provider.id);
      BeforeIsTotal(a.mapping.upstreamModel, b.mapping.upstreamModel);
    }
    forall a: Row, b: Row, c: Row | !EndpointExceeds(a, b) && !EndpointExceeds(b, c)
      ensures !EndpointExceeds(a, c)
    {
      NotBeforeIsTransitive(a.provider.id, b.provider.id, c.provider.id);
      NotBeforeIsTransitive(a.mapping.upstreamModel, b.mapping.upstreamModel, c.mapping.upstreamModel);
      BeforeIsTotal(a.provider.id, b.provider.id);
      BeforeIsTotal(b.provider.id, c.provider.id);
      BeforeIsTotal(a.provider.id, c.provider.id);
    }
  }

  lemma NotBeforeIsTransitive(a: string, b: string, c: string)
    ensures !Before(b, a) && !Before(c, b) ==> !Before(c, a)
  {
    BeforeIsTotal(a, b);
    BeforeIsTotal(b, c);
    BeforeIsTotal(a, c);
    if Before(a, b) && Before(b, c) { BeforeIsTransitive(a, b, c); }
  }

  // -------------------------------------------------- two ways to break a tie

  /** Two tied elements keep their order among the ties. */
  lemma {:induction false} TiesKeepPairs<T(!new)>(xs: seq<T>, i: nat, j: nat, t: T, exceeds: (T, T) -> bool)
    requires i < j < |xs|
    requires !exceeds(xs[i], t) && !exceeds(t, xs[i]) && !exceeds(xs[j], t) && !exceeds(t, xs[j])
    ensures exists a, b :: 0 <= a < b < |Ties(xs, t, exceeds)|
              && Ties(xs, t, exceeds)[a] == xs[i] && Ties(xs, t, exceeds)[b] == xs[j]
  {
    var front, last := xs[..|xs| - 1], xs[|xs| - 1];
    var ties := Ties(front, t, exceeds);
    if j < |front| {
      TiesKeepPairs(front, i, j, t, exceeds);
      var a, b :| 0 <= a < b < |ties| && ties[a] == front[i] && ties[b] == front[j];
      assert Ties(xs, t, exceeds)[a] == xs[i] && Ties(xs, t, exceeds)[b] == xs[j];
    } else {
      TieIsListed(front, i, t, exceeds);
      var a :| 0 <= a < |ties| && ties[a] == front[i];
      assert Ties(xs, t, exceeds)[a] == xs[i] && Ties(xs, t, exceeds)[|ties|] == xs[j];
    }
  }

  lemma {:induction false} TieIsListed<T>(xs: seq<T>, i: nat, t: T, exceeds: (T, T) -> bool)
    requires i < |xs| && !exceeds(xs[i], t) && !exceeds(t, xs[i])
    ensures exists a :: 0 <= a < |Ties(xs, t, exceeds)| && Ties(xs, t, exceeds)[a] == xs[i]
  {
    var front := xs[..|xs| - 1];
    if i < |front| {
      TieIsListed(front, i, t, exceeds);
      var a :| 0 <= a < |Ties(front, t, exceeds)| && Ties(front, t, exceeds)[a] == front[i];
      assert Ties(xs, t, exceeds)[a] == xs[i];
    } else {
      assert Ties(xs, t, exceeds)[|Ties(front, t, exceeds)|] == xs[i];
    }
  }

  /** Any selection from a sorted list is sorted, and so are its ties under another order. */
  lemma {:induction false} TiesStaySorted<T(!new)>(xs: seq<T>, t: T, exceeds: (T, T) -> bool, above: (T, T) -> bool)
    requires IsSorted(xs, above)
    ensures IsSorted(Ties(xs, t, exceeds), above)
    ensures forall y <- Ties(xs, t, exceeds) :: y in xs
  {
    if xs != [] {
      var front, last := xs[..|xs| - 1], xs[|xs| - 1];
      TiesStaySorted(front, t, exceeds, above);
      var ties := Ties(front, t, exceeds);
      forall y <- ties ensures !above(y, last) {
        var i :| 0 <= i < |front| && front[i] == y;
        assert !above(xs[i], xs[|front|]);
      }
      AppendKeepsOrder(ties, last, above);
    }
  }

  function Same(row: Row): Row {
    row
  }

  lemma SelfMap(xs: seq<Row>)
    ensures Map(xs, Same) == xs
  {}

  /** The two sorts agree exactly when rows of equal priority already stand in id order. */
  lemma SortsAgreeExactly(served: seq<Row>)
    requires FromDistinctProviders(served)
    ensures Sort(served, LowerPriority) == Sort(served, EndpointExceeds) <==> InIdOrder(served)
  {
    hide Sort, EndpointExceeds, LowerPriority, FromDistinctProviders, ComparesAlike, Map;
    if InIdOrder(served) {
      IdOrderComparesAlike(served);
      SortCommutes(served, Same, LowerPriority, EndpointExceeds);
      SelfMap(served);
      SelfMap(Sort(served, LowerPriority));
    }
    if Sort(served, LowerPriority) == Sort(served, EndpointExceeds) {
      forall i, j | 0 <= i < j < |served| && served[i].provider.priority == served[j].provider.priority
        ensures Before(served[i].provider.id, served[j].provider.id)
      {
        TiedPairIsOrdered(served, i, j);
      }
    }
  }

  lemma IdOrderComparesAlike(served: seq<Row>)
    requires InIdOrder(served)
    ensures ComparesAlike(served, Same, LowerPriority, EndpointExceeds)
  {
    forall i, j | 0 <= i < j < |served|
      ensures LowerPriority(served[i], served[j]) <==> EndpointExceeds(served[i], served[j])
    {
      BeforeIsTotal(served[i].provider.id, served[j].provider.id);
    }
  }

  lemma TiedPairIsOrdered(served: seq<Row>, i: nat, j: nat)
    requires FromDistinctProviders(served) && i < j < |served|
    requires served[i].provider.priority == served[j].provider.priority
    requires Sort(served, LowerPriority) == Sort(served, EndpointExceeds)
    ensures Before(served[i].provider.id, served[j].provider.id)
  {
    var t, sorted := served[i], Sort(served, LowerPriority);
    PriorityOrderLaws();
    EndpointOrderLaws();
    hide Sort, IsWeakOrder, Ties, FromDistinctProviders;
    SortIsStable(served, t, LowerPriority);
    SortIsStable(served, t, EndpointExceeds);
    TiesStaySorted(sorted, t, LowerPriority, EndpointExceeds);
    TiesKeepPairs(served, i, j, t, LowerPriority);
    var ties := Ties(served, t, LowerPriority);
    var a, b :| 0 <= a < b < |ties| && ties[a] == served[i] && ties[b] == served[j];
    assert !EndpointExceeds(served[i], served[j]);
    assert served[i].provider.id != served[j].provider.id by { DistinctAt(served, i, j); }
    BeforeIsTotal(served[i].provider.id, served[j].provider.id);
  }

  lemma DistinctAt(served: seq<Row>, i: nat, j: nat)
    requires FromDistinctProviders(served) && i < j < |served|
    ensures served[i].provider.id != served[j].provider.id
  {}

  // ------------------------------------------------------ the tables' orders

  predicate ServeSlug(rows: seq<Row>, slug: string) {
    forall row <- rows :: row.mapping.slug == slug
  }

  lemma NamesTellRows(a: seq<Row>, b: seq<Row>, served: seq<Row>, slug: string)
    requires FromDistinctProviders(served) && ServeSlug(served, slug)
    requires (forall row <- a :: row in served) && (forall row <- b :: row in served)
    ensures Map(a, RouteName) == Map(b, RouteName) <==> a == b
  {
    if Map(a, RouteName) == Map(b, RouteName) {
      assert |a| == |Map(a, RouteName)| == |b|;
      forall i | 0 <= i < |a| ensures a[i] == b[i] {
        assert Map(a, RouteName)[i] == Map(b, RouteName)[i];
        NameTellsRow(a[i], b[i], served, slug);
      }
    }
  }

  lemma NameTellsRow(a: Row, b: Row, served: seq<Row>, slug: string)
    requires FromDistinctProviders(served) && ServeSlug(served, slug)
    requires a in served && b in served && RouteName(a) == RouteName(b)
    ensures a == b
  {
    ModelOfIsInjective(a.provider.id, b.provider.id, slug);
    var i :| 0 <= i < |served| && served[i] == a;
    var j :| 0 <= j < |served| && served[j] == b;
    hide ModelOf;
    assert i == j;
  }

  lemma TargetNamesAreSorted(models: seq<string>, virtuals: VirtualModels, registry: Registry, key: RouteKey)
    requires IsSidecar(models, virtuals, registry)
    ensures TargetNames(virtuals, key) == Map(Sort(RowsFor(Rows(registry.providers), key), LowerPriority), RouteName)
  {
    var served := RowsFor(Rows(registry.providers), key);
    assert At(virtuals, key) == Sort(Gathered(Rows(registry.providers), TargetOf, key), TargetExceeds);
    hide Sort, RowsFor, Rows, IsSidecar, RouteName;
    SortCommutes(served, TargetOf, LowerPriority, TargetExceeds);
    assert TargetNames(virtuals, key) == Map(Sort(served, LowerPriority), RouteName);
  }

  lemma ServedRowsAreProper(registry: Registry, key: RouteKey)
    requires BuildsPrices(registry)
    ensures var served := RowsFor(Rows(registry.providers), key);
            FromDistinctProviders(served) && ServeSlug(served, key.slug)
  {
    ServedRowsAreDistinct(registry.providers, key);
    hide Rows, BuildsPrices, FromDistinctProviders;
  }

  lemma RouteNamesAreSorted(routes: RouteTable, registry: Registry, key: RouteKey)
    requires BuildsPrices(registry) && IsRouteTable(routes, registry)
    ensures var served := RowsFor(Rows(registry.providers), key);
            && FromDistinctProviders(served) && ServeSlug(served, key.slug)
            && RouteNames(routes, key) == Map(Sort(served, EndpointExceeds), RouteName)
  {
    var served := RowsFor(Rows(registry.providers), key);
    assert At(routes, key) == RoutesFor(registry, key);
    ServedRowsAreProper(registry, key);
    hide Sort, RowsFor, Rows, BuildsPrices, IsRouteTable, EndpointExceeds, RouteExceeds, ComparesAlike;
    EndpointsCompareAsRoutes(served);
    SortCommutes(served, DescriptorOf, EndpointExceeds, RouteExceeds);
    SortKeepsMembers(served, EndpointExceeds);
    hide FromDistinctProviders;
    NamesOfDescriptors(Sort(served, EndpointExceeds), key.slug);
  }

  lemma NamesOfDescriptors(rows: seq<Row>, slug: string)
    requires ServeSlug(rows, slug)
    ensures Map(Map(rows, DescriptorOf), (d: RouteDescriptor) => ModelOf(d.provider, slug)) == Map(rows, RouteName)
  {
    hide ModelOf;
    forall i | 0 <= i < |rows| ensures ModelOf(DescriptorOf(rows[i]).provider, slug) == RouteName(rows[i]) {
      assert rows[i] in rows;
    }
  }

  /**
   * For every priced registry and key: the virtual model fails over in the order in which the router holds the routes
   * exactly when the registry lists the providers of equal priority that serve the key by id.
   */
  lemma OrdersAgreeExactly(registry: Registry, routes: RouteTable, models: seq<string>, virtuals: VirtualModels,
                           key: RouteKey)
    requires BuildsPrices(registry) && IsRouteTable(routes, registry) && IsSidecar(models, virtuals, registry)
    ensures TargetNames(virtuals, key) == RouteNames(routes, key) <==>
            InIdOrder(RowsFor(Rows(registry.providers), key))
  {
    hide IsRouteTable, IsSidecar, BuildsPrices, Rows, RowsFor, Sort, TargetNames, RouteNames, InIdOrder;
    hide FromDistinctProviders, ServeSlug, RouteName;
    var served := RowsFor(Rows(registry.providers), key);
    TargetNamesAreSorted(models, virtuals, registry, key);
    RouteNamesAreSorted(routes, registry, key);
    SortsAgreeExactly(served);
    SortKeepsMembers(served, LowerPriority);
    SortKeepsMembers(served, EndpointExceeds);
    NamesTellRows(Sort(served, LowerPriority), Sort(served, EndpointExceeds), served, key.slug);
  }

  function Unsorted(): Registry {
    Registry([Provide("b", [Plainly("m", 1.0)]), Provide("a", [Plainly("m", 1.0)])])
  }

  const SHARED_KEY := RouteKey(Production, "m")

  lemma SortsOfTwo(first: Row, second: Row)
    ensures Sort([first, second], LowerPriority)
         == if LowerPriority(first, second) then [second, first] else [first, second]
    ensures Sort([first, second], EndpointExceeds)
         == if EndpointExceeds(first, second) then [second, first] else [first, second]
  {
    SortOfTwo(first, second, LowerPriority);
    SortOfTwo(first, second, EndpointExceeds);
  }

  lemma SortOfTwo<T>(first: T, second: T, exceeds: (T, T) -> bool)
    ensures Sort([first, second], exceeds) == if exceeds(first, second) then [second, first] else [first, second]
  {
    assert [first] + [second] == [first, second] && [] + [first] == [first];
    SortAppends([first], second, exceeds);
    SortAppends([], first, exceeds);
    hide Sort;
    assert Insert([], first, exceeds) == [first];
    assert [first][..0] == [] && Insert([], second, exceeds) == [second];
  }

  lemma BothAreServed(first: Row, second: Row, key: RouteKey)
    requires Serves(first, key) && Serves(second, key)
    ensures RowsFor([first, second], key) == [first, second]
  {
    assert [first, second][..1] == [first] && [first][..0] == [];
    assert RowsFor([first], key) == [first];
  }

  lemma UnsortedRows()
    ensures BuildsPrices(Unsorted())
    ensures var model := Plainly("m", 1.0);
            Rows(Unsorted().providers) == [Row(Provide("b", [model]), model), Row(Provide("a", [model]), model)]
  {
    var model := Plainly("m", 1.0);
    RowsOfOne("a", [model]);
    assert Unsorted().providers[1..] == [Provide("a", [model])];
  }

  lemma PairStandsBothWays(first: Row, second: Row)
    requires first.provider.priority == second.provider.priority && Before(second.provider.id, first.provider.id)
    ensures Map(Sort([first, second], LowerPriority), RouteName) == [RouteName(first), RouteName(second)]
    ensures Map(Sort([first, second], EndpointExceeds), RouteName) == [RouteName(second), RouteName(first)]
  {
    SortsOfTwo(first, second);
    hide Sort, RouteName;
  }

  lemma UnsortedNames()
    ensures var served := RowsFor(Rows(Unsorted().providers), SHARED_KEY);
            && Map(Sort(served, LowerPriority), RouteName) == ["b/m", "a/m"]
            && Map(Sort(served, EndpointExceeds), RouteName) == ["a/m", "b/m"]
  {
    hide Sort, RowsFor, Rows, EndpointExceeds, LowerPriority, BuildsPrices, Unsorted, Map;
    var model := Plainly("m", 1.0);
    var first, second := Row(Provide("b", [model]), model), Row(Provide("a", [model]), model);
    UnsortedRows();
    BothAreServed(first, second, SHARED_KEY);
    PairStandsBothWays(first, second);
    assert RouteName(first) == "b/m" && RouteName(second) == "a/m";
  }

  /** Two providers of equal priority, listed against their ids: the targets and the routes stand in opposite orders. */
  lemma OrdersDiffer()
    ensures BuildsPrices(Unsorted())
    ensures forall routes: RouteTable :: IsRouteTable(routes, Unsorted()) ==>
              RouteNames(routes, SHARED_KEY) == ["a/m", "b/m"]
    ensures forall models: seq<string>, virtuals: VirtualModels :: IsSidecar(models, virtuals, Unsorted()) ==>
              TargetNames(virtuals, SHARED_KEY) == ["b/m", "a/m"]
  {
    UnsortedRows();
    UnsortedNames();
    hide Sort, RowsFor, Rows, RouteName, IsRouteTable, IsSidecar, BuildsPrices, TargetNames, RouteNames, Unsorted, Map;
    hide FromDistinctProviders, ServeSlug;
    forall routes: RouteTable | IsRouteTable(routes, Unsorted())
      ensures RouteNames(routes, SHARED_KEY) == ["a/m", "b/m"]
    {
      RouteNamesAreSorted(routes, Unsorted(), SHARED_KEY);
    }
    forall models: seq<string>, virtuals: VirtualModels | IsSidecar(models, virtuals, Unsorted())
      ensures TargetNames(virtuals, SHARED_KEY) == ["b/m", "a/m"]
    {
      TargetNamesAreSorted(models, virtuals, Unsorted(), SHARED_KEY);
    }
  }
}
