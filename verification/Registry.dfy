/** The registry: providers, their models, prices and request constraints. */
module Registry {
  import opened Basics

  datatype RoutingProfile = Production | Beta

  datatype Endpoint = Chat | Legacy

  datatype Bounds = Bounds(min: real, max: real)

  datatype Constraints = Constraints(endpoints: set<Endpoint>, supportsStreaming: bool, topP: Option<Bounds>)

  datatype Mapping = Mapping(
    slug: string, upstreamModel: string, input: real, cachedInput: Option<real>, output: real, constraints: Constraints)

  datatype Provider = Provider(
    id: string, enabled: bool, priority: nat, profiles: set<RoutingProfile>, models: seq<Mapping>)

  datatype Registry = Registry(providers: seq<Provider>)

  predicate Permits(constraints: Constraints, endpoint: Endpoint, stream: bool, topP: Option<real>) {
    && endpoint in constraints.endpoints
    && (stream ==> constraints.supportsStreaming)
    && (constraints.topP.Some? && topP.Some? ==>
          constraints.topP.value.min <= topP.value <= constraints.topP.value.max)
  }

  predicate ValidMapping(mapping: Mapping) {
    && mapping.constraints.endpoints != {}
    && (mapping.constraints.topP.Some? ==>
          var bounds := mapping.constraints.topP.value; 0.0 <= bounds.min <= bounds.max <= 1.0)
  }

  predicate ValidProvider(provider: Provider) {
    && provider.profiles != {}
    && forall i :: 0 <= i < |provider.models| ==> ValidMapping(provider.models[i])
  }

  /** What registry validation guarantees about these fields. */
  predicate Validates(registry: Registry) {
    && (forall i, j :: 0 <= i < j < |registry.providers| ==> registry.providers[i].id != registry.providers[j].id)
    && (forall i :: 0 <= i < |registry.providers| ==> ValidProvider(registry.providers[i]))
  }
}
