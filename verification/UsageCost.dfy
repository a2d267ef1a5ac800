/** Strips private metadata from completion JSON and injects the exact served-provider cost. */
module UsageCost {
  import opened Basics
  import opened Json
  import opened Pricing
  import opened Decimals

  datatype CostedUsage = CostedUsage(responseId: Option<string>, usage: Usage, costUnits: nat)

  datatype CostPolicy = UsageCostOnly | DeepInfraEstimatedCost

  datatype CostOmission = MissingUsage | InvalidUsage | InvalidProviderCost | UnresolvedProviderCost

  datatype Rejection = EmbeddedError | UnrecognizedShape

  const PRIVATE_KEY := "provider_specific_fields"

  // ---------------------------------------------------------------- stripping

  /** Removes the private key from every object in the tree. */
  function Strip(v: Json): Json {
    match v
    case Obj(fields) => Obj(map k | k in fields && k != PRIVATE_KEY :: Strip(fields[k]))
    case Arr(items) => Arr(StripItems(v, 0))
    case _ => v
  }

  function StripItems(v: Json, from: nat): (items: seq<Json>)
    requires v.Arr? && from <= |v.items|
    ensures |items| == |v.items| - from
    ensures forall i :: 0 <= i < |items| ==> items[i] == Strip(v.items[from + i])
    decreases v, 0, |v.items| - from
  {
    if from == |v.items| then [] else [Strip(v.items[from])] + StripItems(v, from + 1)
  }

  /** The flag the stripping pass reports: some object in the tree held the private key. */
  predicate Removes(v: Json) {
    match v
    case Obj(fields) =>
      PRIVATE_KEY in fields || exists k :: k in fields && k != PRIVATE_KEY && Removes(fields[k])
    case Arr(items) => exists i :: 0 <= i < |items| && Removes(items[i])
    case _ => false
  }

  datatype PathStep = Key(k: string) | Index(i: nat)

  /** What a client finds by walking down a path. */
  function Lookup(v: Json, path: seq<PathStep>): Option<Json>
    decreases |path|
  {
    if path == [] then Some(v)
    else
      match (v, path[0])
      case (Obj(fields), Key(k)) => if k in fields then Lookup(fields[k], path[1..]) else None
      case (Arr(items), Index(i)) => if i < |items| then Lookup(items[i], path[1..]) else None
      case _ => None
  }

  predicate MentionsPrivateKey(path: seq<PathStep>) {
    Key("provider_specific_fields") in path
  }

  /**
   * Stripping hides exactly the paths through the private key and keeps the rest of the tree:
   * a public path leads to the stripped subtree it led to before, a private one to nothing.
   */
  lemma {:induction false} StripKeepsPublicPaths(v: Json, path: seq<PathStep>)
    ensures Lookup(Strip(v), path) ==
            if MentionsPrivateKey(path) then None
            else match Lookup(v, path) case Some(sub) => Some(Strip(sub)) case None => None
    decreases |path|
  {
    if path != [] {
      var step, rest := path[0], path[1..];
      assert path == [step] + rest;
      assert MentionsPrivateKey(path) <==> step == Key(PRIVATE_KEY) || MentionsPrivateKey(rest);
      match (v, step)
      case (Obj(fields), Key(k)) =>
        if k in fields && k != PRIVATE_KEY {
          StripKeepsPublicPaths(fields[k], rest);
        }
      case (Arr(items), Index(i)) =>
        if i < |items| {
          StripKeepsPublicPaths(items[i], rest);
        }
      case _ =>
    }
  }

  /** The flag is true exactly when stripping changed the value. */
  lemma {:induction false} RemovesIffChanged(v: Json)
    ensures Removes(v) <==> Strip(v) != v
  {
    match v
    case Obj(fields) =>
      forall k | k in fields ensures Removes(fields[k]) <==> Strip(fields[k]) != fields[k] {
        RemovesIffChanged(fields[k]);
      }
      if !Removes(v) {
        assert Strip(v).fields == fields;
      } else if PRIVATE_KEY !in fields {
        var k :| k in fields && Removes(fields[k]);
        assert Strip(v).fields[k] != fields[k];
      }
    case Arr(items) =>
      forall i | 0 <= i < |items| ensures Removes(items[i]) <==> Strip(items[i]) != items[i] {
        RemovesIffChanged(items[i]);
      }
      if !Removes(v) {
        assert StripItems(v, 0) == items;
      } else {
        var i :| 0 <= i < |items| && Removes(items[i]);
        assert StripItems(v, 0)[i] != items[i];
      }
    case _ =>
  }

  /** No object at any depth keeps the private key, so stripping twice is stripping once. */
  lemma {:induction false} StripIsIdempotent(v: Json)
    ensures !Removes(Strip(v)) && Strip(Strip(v)) == Strip(v)
  {
    match v {
      case Obj(fields) =>
        forall k | k in fields ensures !Removes(Strip(fields[k])) {
          StripIsIdempotent(fields[k]);
        }
      case Arr(items) =>
        forall i | 0 <= i < |items| ensures !Removes(Strip(items[i])) {
          StripIsIdempotent(items[i]);
        }
      case _ =>
    }
    RemovesIffChanged(Strip(v));
  }

  // --------------------------------------------------------------- sanitizing

  const PUBLIC_FIELDS: set<string> :=
    {"id", "object", "created", "model", "choices", "usage", "service_tier", "system_fingerprint"}

  const COMPLETION_OBJECTS: set<string> := {"chat.completion", "chat.completion.chunk", "text_completion"}

  /** The value after the call, and why it was rejected if it was. */
  function Sanitize(response: Json, model: string): (Json, Option<Rejection>) {
    if !response.Obj? then (response, Some(UnrecognizedShape))
    else if Get(response, "error") != None && Get(response, "error") != Some(Null) then
      (response, Some(EmbeddedError))
    else if GetStr(response, "id") == None || GetStr(response, "id") == Some("")
            || GetStr(response, "object") == None || GetStr(response, "object").value !in COMPLETION_OBJECTS
            || Get(response, "choices") == None || !Get(response, "choices").value.Arr? then
      (response, Some(UnrecognizedShape))
    else
      var stripped := map k | k in response.fields :: Strip(response.fields[k]);
      var public := map k | k in stripped && k in PUBLIC_FIELDS :: stripped[k];
      (Obj(public["model" := Str(model)]), None)
  }

  predicate IsAbsentOrNull(v: Json, key: string) {
    v.Obj? && (key !in v.fields || v.fields[key] == Null)
  }

  /** An object that carries an error which is not null. */
  predicate CarriesError(v: Json) {
    v.Obj? && !IsAbsentOrNull(v, "error")
  }

  /** An object with a non-empty string id, one of the three object kinds and an array of choices. */
  predicate HasCompletionShape(v: Json) {
    && v.Obj?
    && "id" in v.fields && v.fields["id"].Str? && v.fields["id"].s != ""
    && "object" in v.fields
    && (|| v.fields["object"] == Str("chat.completion")
        || v.fields["object"] == Str("chat.completion.chunk")
        || v.fields["object"] == Str("text_completion"))
    && "choices" in v.fields && v.fields["choices"].Arr?
  }

  predicate IsPublicField(key: string) {
    || key == "id" || key == "object" || key == "created" || key == "model" || key == "choices" || key == "usage"
    || key == "service_tier" || key == "system_fingerprint"
  }

  /** What a client may rely on in every forwarded completion object. */
  ghost predicate IsPublicCompletion(v: Json, model: string) {
    && HasCompletionShape(v)
    && (forall k :: k in v.fields ==> IsPublicField(k))
    && Get(v, "model") == Some(Str(model))
    && !Removes(v)
  }

  /** Exactly what is accepted, and why the rest is not: an error in the object counts before its shape. */
  lemma SanitizeAcceptsExactly(response: Json, model: string)
    ensures var rejection := Sanitize(response, model).1;
            && (rejection == None <==> HasCompletionShape(response) && !CarriesError(response))
            && (rejection == Some(EmbeddedError) <==> CarriesError(response))
  {}

  /** A rejected value is untouched; an accepted one keeps every public field, stripped, apart from `model`. */
  lemma SanitizedIsPublic(response: Json, model: string)
    ensures var (v, rejection) := Sanitize(response, model);
            if rejection.Some? then v == response
            else
              && response.Obj?
              && IsPublicCompletion(v, model)
              && (forall k :: k in v.fields <==> k == "model" || (k in response.fields && IsPublicField(k)))
              && forall k :: k in v.fields && k != "model" ==> v.fields[k] == Strip(response.fields[k])
  {
    SanitizeAcceptsExactly(response, model);
    hide Strip, Removes;
    var (v, rejection) := Sanitize(response, model);
    if rejection.None? {
      StripKeepsKind(response.fields["id"]);
      StripKeepsKind(response.fields["object"]);
      StripKeepsKind(response.fields["choices"]);
      forall k | k in v.fields ensures !Removes(v.fields[k]) {
        if k == "model" { StripKeepsKind(Str(model)); } else { StripIsIdempotent(response.fields[k]); }
      }
      CleanFieldsMakeClean(v);
    }
  }

  /** Stripping works inside objects and arrays only. */
  lemma StripKeepsKind(v: Json)
    ensures Strip(v).Obj? == v.Obj? && Strip(v).Arr? == v.Arr?
    ensures !v.Obj? && !v.Arr? ==> Strip(v) == v && !Removes(v)
    ensures v.Arr? ==> |Strip(v).items| == |v.items|
  {}

  lemma CleanFieldsMakeClean(v: Json)
    requires v.Obj? && PRIVATE_KEY !in v.fields && forall k :: k in v.fields ==> !Removes(v.fields[k])
    ensures !Removes(v)
  {}

  lemma CleanHasCleanFields(v: Json)
    requires v.Obj? && !Removes(v)
    ensures forall k :: k in v.fields ==> !Removes(v.fields[k])
  {}

  /** The values sanitizing accepts unchanged are exactly the public completions. */
  lemma SanitizeFixpoints(v: Json, model: string)
    ensures Sanitize(v, model) == (v, None) <==> IsPublicCompletion(v, model)
  {
    if Sanitize(v, model) == (v, None) {
      SanitizedIsPublic(v, model);
    }
    if IsPublicCompletion(v, model) {
      SanitizeAcceptsExactly(v, model);
      assert !IsPublicField("error");
      CleanHasCleanFields(v);
      hide Strip, Removes;
      forall k | k in v.fields ensures Strip(v.fields[k]) == v.fields[k] {
        RemovesIffChanged(v.fields[k]);
      }
      assert Sanitize(v, model).0.fields == v.fields;
    }
  }

  // ---------------------------------------------------------- cost injection

  /** A cost field that is absent or null reports nothing; one that is not a non-negative number is an error. */
  function ReportedCost(field: Option<Json>): Result<Option<nat>, CostOmission> {
    match field
    case None => Ok(None)
    case Some(Null) => Ok(None)
    case Some(Num(n)) =>
      (match NormalizeCost(Value(n))
       case Some(units) => Ok(Some(units))
       case None => Err(InvalidProviderCost))
    case Some(_) => Err(InvalidProviderCost)
  }

  /** A normalized decimal is written with all ten places. */
  function CostNumber(units: nat): Json {
    Num(Number(false, units, 10, None))
  }

  function CachedTokens(usage: Json): Option<nat> {
    match Get(usage, "prompt_tokens_details")
    case Some(details) => GetU64(details, "cached_tokens")
    case None => None
  }

  function ResolveCost(usage: Json, tokens: Usage, prices: ValidPrices, policy: CostPolicy): Result<nat, CostOmission> {
    match ReportedCost(Get(usage, "cost"))
    case Err(e) => Err(e)
    case Ok(Some(units)) => Ok(units)
    case Ok(None) =>
      var estimate :=
        if policy == DeepInfraEstimatedCost then ReportedCost(Get(usage, "estimated_cost")) else Ok(None);
      match estimate
      case Err(e) => Err(e)
      case Ok(Some(units)) => Ok(units)
      case Ok(None) =>
        match ProviderCost(prices, tokens, CachedTokens(usage))
        case Some(units) => Ok(units)
        case None => Err(UnresolvedProviderCost)
  }

  function WithCost(usage: map<string, Json>, units: nat, policy: CostPolicy): map<string, Json> {
    var costed := usage["cost" := CostNumber(units)];
    if policy == DeepInfraEstimatedCost then costed - {"estimated_cost"} else costed
  }

  /** The value after the call and its outcome. */
  function Inject(response: Json, prices: ValidPrices, policy: CostPolicy)
    : (Json, Result<CostedUsage, CostOmission>)
  {
    match Get(response, "usage")
    case Some(Obj(fields)) =>
      var usage := Obj(fields);
      var prompt := GetU64(usage, "prompt_tokens");
      var completion := GetU64(usage, "completion_tokens");
      if prompt.None? || completion.None? then (response, Err(InvalidUsage))
      else
        var tokens := Usage(prompt.value, completion.value);
        (match ResolveCost(usage, tokens, prices, policy)
         case Err(e) => (response, Err(e))
         case Ok(units) =>
           (Obj(response.fields["usage" := Obj(WithCost(fields, units, policy))]),
            Ok(CostedUsage(GetStr(response, "id"), tokens, units))))
    case _ => (response, Err(MissingUsage))
  }

  ghost predicate Unreported(field: Option<Json>) {
    field == None || field == Some(Null)
  }

  /** The field is a number that names this ledger amount. */
  predicate Reports(field: Option<Json>, units: nat) {
    field.Some? && field.value.Num? && NamesUnits(field.value.n, units)
  }

  lemma ReportedCostMeaning(field: Option<Json>, units: nat)
    ensures ReportedCost(field) == Ok(None) <==> Unreported(field)
    ensures ReportedCost(field) == Ok(Some(units)) <==> Reports(field, units)
  {
    if field.Some? && field.value.Num? {
      NamesUnitsExactly(field.value.n, units);
    }
  }

  /**
   * What a completion costs: a reported `usage.cost` first, then (for DeepInfra alone, and only when `usage.cost` is
   * absent) a reported estimate, then the registry rates.
   */
  ghost predicate Costs(v: Json, prices: ValidPrices, policy: CostPolicy, costed: CostedUsage) {
    && HasUsageObject(v)
    && var usage := v.fields["usage"];
       var cost, estimate := Get(usage, "cost"), Get(usage, "estimated_cost");
       && GetU64(usage, "prompt_tokens") == Some(costed.usage.promptTokens)
       && GetU64(usage, "completion_tokens") == Some(costed.usage.completionTokens)
       && (|| Reports(cost, costed.costUnits)
           || (Unreported(cost) && policy.DeepInfraEstimatedCost? && Reports(estimate, costed.costUnits))
           || (Unreported(cost) && (policy.DeepInfraEstimatedCost? ==> Unreported(estimate))
               && ProviderCost(prices, costed.usage, CachedCount(usage)) == Some(costed.costUnits)))
       && costed.responseId
          == (if "id" in v.fields && v.fields["id"].Str? then Some(v.fields["id"].s) else None)
  }

  /** Exactly when a cost is injected, and which. */
  lemma InjectedCostSource(response: Json, prices: ValidPrices, policy: CostPolicy, costed: CostedUsage)
    ensures Inject(response, prices, policy).1 == Ok(costed) <==> Costs(response, prices, policy, costed)
  {
    match Get(response, "usage")
    case Some(Obj(fields)) =>
      var usage := Obj(fields);
      ReportedCostMeaning(Get(usage, "cost"), costed.costUnits);
      ReportedCostMeaning(Get(usage, "estimated_cost"), costed.costUnits);
      hide ReportedCost, Reports, ProviderCost, WithCost;
    case _ =>
  }

  /** A number that is not negative. */
  predicate IsCost(field: Option<Json>) {
    field.Some? && field.value.Num? && (field.value.n.negative ==> field.value.n.digits == 0)
  }

  predicate HasUsageObject(v: Json) {
    v.Obj? && "usage" in v.fields && v.fields["usage"].Obj?
  }

  function CachedCount(usage: Json): Option<nat> {
    if Get(usage, "prompt_tokens_details").Some?
    then GetU64(Get(usage, "prompt_tokens_details").value, "cached_tokens") else None
  }

  /**
   * Both token counts are there, and a cost can be found: a reported one, or for DeepInfra an estimate, or the registry
   * rates, which need a possible cached count when cached prompts have their own price.
   */
  predicate CanBeCosted(v: Json, prices: ValidPrices, policy: CostPolicy) {
    && HasUsageObject(v)
    && var usage := v.fields["usage"];
       var cost, estimate := Get(usage, "cost"), Get(usage, "estimated_cost");
       var prompt, cached := GetU64(usage, "prompt_tokens"), CachedCount(usage);
       && prompt.Some? && GetU64(usage, "completion_tokens").Some?
       && (|| IsCost(cost)
           || (IsAbsentOrNull(usage, "cost") && policy.DeepInfraEstimatedCost? && IsCost(estimate))
           || (IsAbsentOrNull(usage, "cost")
               && (policy.DeepInfraEstimatedCost? ==> IsAbsentOrNull(usage, "estimated_cost"))
               && (prices.cachedInput.None? || (cached.Some? && cached.value <= prompt.value))))
  }

  lemma InjectsExactly(v: Json, prices: ValidPrices, policy: CostPolicy)
    ensures Inject(v, prices, policy).1.Ok? <==> CanBeCosted(v, prices, policy)
  {
    if HasUsageObject(v) {
      ReportedIsCost(Get(v.fields["usage"], "cost"));
      ReportedIsCost(Get(v.fields["usage"], "estimated_cost"));
      hide ReportedCost, IsCost, CostUsd, CachedCharge, RoundedCost, WithCost;
    }
  }

  lemma ReportedIsCost(field: Option<Json>)
    ensures ReportedCost(field) == Ok(None) <==> field == None || field == Some(Null)
    ensures ReportedCost(field).Ok? && ReportedCost(field).value.Some? <==> IsCost(field)
  {
    if field.Some? && field.value.Num? {
      var n := field.value.n;
      assert n == Number(n.negative, n.digits, n.scale, n.exponent);
      SignedValue(n.digits, n.scale, n.exponent);
      hide Value;
    }
  }

  /** Reading a field of a stripped value is reading the field and stripping it. */
  lemma StripGets(v: Json, key: string)
    requires key != "provider_specific_fields"
    ensures Get(Strip(v), key) == match Get(v, key) case Some(x) => Some(Strip(x)) case None => None
    ensures GetU64(Strip(v), key) == GetU64(v, key)
    ensures IsAbsentOrNull(Strip(v), key) <==> IsAbsentOrNull(v, key)
    ensures IsCost(Get(Strip(v), key)) <==> IsCost(Get(v, key))
    ensures forall units :: Reports(Get(Strip(v), key), units) <==> Reports(Get(v, key), units)
    ensures Unreported(Get(Strip(v), key)) <==> Unreported(Get(v, key))
  {
    hide NamesUnits;
    if Get(v, key).Some? { StripKeepsKind(Get(v, key).value); }
  }

  /** Sanitizing an accepted completion changes nothing about what its usage says. */
  lemma SanitizedUsage(response: Json, model: string, prices: ValidPrices, policy: CostPolicy)
    requires Sanitize(response, model).1 == None
    ensures var v := Sanitize(response, model).0;
            && response.Obj? && v.Obj?
            && ("usage" in v.fields <==> "usage" in response.fields)
            && ("usage" in v.fields ==> v.fields["usage"] == Strip(response.fields["usage"]))
            && (HasUsageObject(v) <==> HasUsageObject(response))
            && (CanBeCosted(v, prices, policy) <==> CanBeCosted(response, prices, policy))
            && (forall costed :: Costs(v, prices, policy, costed) <==> Costs(response, prices, policy, costed))
            && (HasUsageObject(v) ==>
                  SaysAlike(v.fields["usage"], response.fields["usage"], "cost")
                  && SaysAlike(v.fields["usage"], response.fields["usage"], "estimated_cost"))
            && "choices" in v.fields && "choices" in response.fields
            && v.fields["choices"] == Strip(response.fields["choices"])
  {
    SanitizedIsPublic(response, model);
    SanitizeAcceptsExactly(response, model);
    var v := Sanitize(response, model).0;
    assert IsPublicField("usage") && IsPublicField("choices") && IsPublicField("id");
    hide Sanitize, Strip, IsPublicCompletion, Removes, IsPublicField, SaysAlike, Costs, CanBeCosted;
    forall costed ensures Costs(v, prices, policy, costed) <==> Costs(response, prices, policy, costed) {
      StrippedCostsAlike(response, v, prices, policy, costed);
    }
    StrippedCostsAlike(response, v, prices, policy, CostedUsage(None, Usage(0, 0), 0));
    if HasUsageObject(v) { StrippedUsageCosts(response.fields["usage"]); }
  }

  lemma StrippedUsageCosts(usage: Json)
    ensures var clean := Strip(usage);
            && GetU64(clean, "prompt_tokens") == GetU64(usage, "prompt_tokens")
            && GetU64(clean, "completion_tokens") == GetU64(usage, "completion_tokens")
            && CachedCount(clean) == CachedCount(usage)
            && SaysAlike(clean, usage, "cost") && SaysAlike(clean, usage, "estimated_cost")
  {
    StripGets(usage, "prompt_tokens");
    StripGets(usage, "completion_tokens");
    StripGets(usage, "cost");
    StripGets(usage, "estimated_cost");
    StripGets(usage, "prompt_tokens_details");
    if Get(usage, "prompt_tokens_details").Some? {
      StripGets(Get(usage, "prompt_tokens_details").value, "cached_tokens");
    }
    hide Strip, IsCost, IsAbsentOrNull, GetU64, Reports, Unreported;
  }

  /** Both report the same cost in the field, or none. */
  ghost predicate SaysAlike(a: Json, b: Json, key: string) {
    && (IsAbsentOrNull(a, key) <==> IsAbsentOrNull(b, key))
    && (IsCost(Get(a, key)) <==> IsCost(Get(b, key)))
    && (Unreported(Get(a, key)) <==> Unreported(Get(b, key)))
    && forall units :: Reports(Get(a, key), units) <==> Reports(Get(b, key), units)
  }

  /** A completion whose usage and id are stripped costs what it cost before. */
  lemma StrippedCostsAlike(v: Json, clean: Json, prices: ValidPrices, policy: CostPolicy, costed: CostedUsage)
    requires v.Obj? && clean.Obj?
    requires Get(clean, "usage") == match Get(v, "usage") case Some(x) => Some(Strip(x)) case None => None
    requires Get(clean, "id") == match Get(v, "id") case Some(x) => Some(Strip(x)) case None => None
    ensures Costs(clean, prices, policy, costed) <==> Costs(v, prices, policy, costed)
    ensures CanBeCosted(clean, prices, policy) <==> CanBeCosted(v, prices, policy)
    ensures HasUsageObject(clean) <==> HasUsageObject(v)
  {
    if Get(v, "id").Some? { StripKeepsKind(v.fields["id"]); }
    if Get(v, "usage").Some? {
      StripKeepsKind(v.fields["usage"]);
      StrippedUsageCosts(v.fields["usage"]);
    }
    hide Strip, Reports, IsCost, Unreported, IsAbsentOrNull, GetU64, CachedCount, ProviderCost;
  }

  lemma CostNumberReadsBack(units: nat)
    ensures ReportedCost(Some(CostNumber(units))) == Ok(Some(units))
  {
    assert Pow10(10) == 10000000000 by {
      assert Pow10(5) == 100000;
      assert Pow10(7) == 10000000;
    }
    NormalizingIsIdempotent(units);
  }

  /** Injecting into an already costed response finds the same cost and changes nothing; nor does a failure. */
  lemma InjectIsStable(response: Json, prices: ValidPrices, policy: CostPolicy)
    ensures var (v, outcome) := Inject(response, prices, policy);
            if outcome.Ok? then Inject(v, prices, policy) == (v, outcome) else v == response
  {
    hide ReportedCost, CostNumber;
    var (v, outcome) := Inject(response, prices, policy);
    if outcome.Ok? {
      CostNumberReadsBack(outcome.value.costUnits);
      var usage, again := Get(v, "usage").value, Inject(v, prices, policy);
      assert Get(usage, "cost") == Some(CostNumber(outcome.value.costUnits));
      assert again.1 == outcome;
      assert WithCost(usage.fields, outcome.value.costUnits, policy) == usage.fields;
      assert again.0.fields == v.fields;
    }
  }

  /** Injection touches `usage` alone, and inside it only the two cost fields. */
  lemma InjectKeepsOtherFields(response: Json, prices: ValidPrices, policy: CostPolicy)
    ensures var (v, outcome) := Inject(response, prices, policy);
            outcome.Ok? ==>
              && v.Obj? && response.Obj? && v.fields.Keys == response.fields.Keys
              && (forall k :: k in v.fields && k != "usage" ==> v.fields[k] == response.fields[k])
              && (forall k :: k != "cost" && k != "estimated_cost" ==>
                    Get(v.fields["usage"], k) == Get(response.fields["usage"], k))
              && Get(v.fields["usage"], "cost") == Some(Num(Number(false, outcome.value.costUnits, 10, None)))
              && (policy.DeepInfraEstimatedCost? ==> Get(v.fields["usage"], "estimated_cost") == None)
  {}

  // -------------------------------------------------------- price-table keys

  /** Drops a leading `provider/` from a requested model. */
  function CanonicalSlug(requested: string, provider: string): string {
    if provider + "/" < requested then requested[|provider| + 1..] else requested
  }

  /** Both spellings of a model find the same slug exactly when it does not itself start with the provider's id. */
  lemma CanonicalSlugMeaning(slug: string, provider: string)
    ensures slug != "" ==> CanonicalSlug(provider + "/" + slug, provider) == slug
    ensures CanonicalSlug(slug, provider) == slug <==> !(provider + "/" < slug)
  {
    assert (provider + "/" + slug)[|provider| + 1..] == slug;
  }
}
