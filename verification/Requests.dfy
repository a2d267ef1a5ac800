/** Reads routing choices out of a completion request and rewrites it for the selected provider. */
module Requests {
  import opened Basics
  import opened Json
  import opened Select

  datatype RouteError =
    | InvalidModel | InvalidSort | UnknownModel | NoEligibleRoute
    | UnsupportedProviderOverride | InvalidTopP | InvalidStream

  datatype Prepared = Prepared(canonicalModel: string, preference: Preference, stream: bool, topP: Option<real>)

  predicate OverridesProvider(request: Json) {
    match Get(request, "provider")
    case Some(Obj(provider)) => "only" in provider || "ignore" in provider || "order" in provider
    case _ => false
  }

  /** A number is parsed from its plain decimal text; a written exponent does not parse. */
  function ParseTopP(request: Json): Result<Option<real>, RouteError> {
    match Get(request, "top_p")
    case None => Ok(None)
    case Some(Null) => Ok(None)
    case Some(Num(n)) => if n.exponent.None? then Ok(Some(Value(n))) else Err(InvalidTopP)
    case Some(_) => Err(InvalidTopP)
  }

  function ParseStream(request: Json): Result<bool, RouteError> {
    match Get(request, "stream")
    case None => Ok(false)
    case Some(Null) => Ok(false)
    case Some(Bool(b)) => Ok(b)
    case Some(_) => Err(InvalidStream)
  }

  function StripSuffix(s: string, suffix: string): Option<string> {
    if |s| >= |suffix| && s[|s| - |suffix|..] == suffix then Some(s[..|s| - |suffix|]) else None
  }

  function ParseModel(model: string): (string, Preference) {
    match StripSuffix(model, ":nitro")
    case Some(canonical) => (canonical, Throughput)
    case None =>
      match StripSuffix(model, ":floor")
      case Some(canonical) => (canonical, Price)
      case None => (model, Default)
  }

  function ParseSort(request: Json): Result<Option<Preference>, RouteError> {
    match Get(request, "provider")
    case None => Ok(None)
    case Some(provider) =>
      match Get(provider, "sort")
      case None => Ok(None)
      case Some(Str(sort)) =>
        if sort == "price" then Ok(Some(Price))
        else if sort == "throughput" then Ok(Some(Throughput))
        else if sort == "latency" then Ok(Some(Latency))
        else Err(InvalidSort)
      case Some(_) => Err(InvalidSort)
  }

  function Prepare(request: Json): Result<Prepared, RouteError> {
    if OverridesProvider(request) then Err(UnsupportedProviderOverride)
    else match (ParseTopP(request), ParseStream(request), GetStr(request, "model"), ParseSort(request))
      case (Err(e), _, _, _) => Err(e)
      case (_, Err(e), _, _) => Err(e)
      case (_, _, None, _) => Err(InvalidModel)
      case (_, _, _, Err(e)) => Err(e)
      case (Ok(topP), Ok(stream), Some(model), Ok(sort)) =>
        var (canonical, suffixPreference) := ParseModel(model);
        Ok(Prepared(canonical, if sort.Some? then sort.value else suffixPreference, stream, topP))
  }

  // ------------------------------------------------------- what is read, exactly

  /** The client picks or excludes providers itself. */
  predicate NamesProviders(request: Json) {
    && Get(request, "provider").Some? && Get(request, "provider").value.Obj?
    && var provider := Get(request, "provider").value.fields;
       "only" in provider || "ignore" in provider || "order" in provider
  }

  predicate ReadsTopP(request: Json, topP: Option<real>) {
    match Get(request, "top_p")
    case None => topP == None
    case Some(field) =>
      (field == Null && topP == None) || (field.Num? && field.n.exponent == None && topP == Some(Value(field.n)))
  }

  predicate ReadsStream(request: Json, stream: bool) {
    match Get(request, "stream")
    case None => !stream
    case Some(field) => (field == Null && !stream) || field == Bool(stream)
  }

  ghost predicate EndsIn(model: string, suffix: string) {
    exists front: string :: model == front + suffix
  }

  /** The two suffixes stand for throughput and price, and are not part of the model's name. */
  ghost predicate ReadsModel(request: Json, canonical: string, preference: Preference) {
    && Get(request, "model").Some? && Get(request, "model").value.Str?
    && var model := Get(request, "model").value.s;
       || (model == canonical + ":nitro" && preference == Throughput)
       || (model == canonical + ":floor" && preference == Price)
       || (model == canonical && preference == Default && !EndsIn(model, ":nitro") && !EndsIn(model, ":floor"))
  }

  function SortOf(request: Json): Option<Json> {
    if Get(request, "provider").Some? then Get(Get(request, "provider").value, "sort") else None
  }

  predicate IsSort(sort: Json, preference: Preference) {
    || (sort == Str("price") && preference == Price)
    || (sort == Str("throughput") && preference == Throughput)
    || (sort == Str("latency") && preference == Latency)
  }

  /** A sort decides the preference, and without one the suffix does. */
  ghost predicate Reads(request: Json, prepared: Prepared) {
    && !NamesProviders(request)
    && ReadsTopP(request, prepared.topP) && ReadsStream(request, prepared.stream)
    && exists suffixed ::
         && ReadsModel(request, prepared.canonicalModel, suffixed)
         && if SortOf(request).None? then prepared.preference == suffixed
            else IsSort(SortOf(request).value, prepared.preference)
  }

  lemma StripsSuffixExactly(s: string, suffix: string)
    ensures StripSuffix(s, suffix).Some? <==> EndsIn(s, suffix)
    ensures forall front: string :: StripSuffix(s, suffix) == Some(front) <==> s == front + suffix
  {
    forall front: string | s == front + suffix ensures StripSuffix(s, suffix) == Some(front) {
      assert s[|front|..] == suffix && s[..|front|] == front;
    }
    if StripSuffix(s, suffix).Some? {
      assert s == s[..|s| - |suffix|] + s[|s| - |suffix|..];
    }
  }

  lemma NotBothSuffixes(a: string, b: string)
    ensures a + ":nitro" != b + ":floor"
  {
    var s, t := a + ":nitro", b + ":floor";
    assert s[|s| - 1] == 'o' && t[|t| - 1] == 'r';
  }

  lemma ParsesModelExactly(model: string, canonical: string, preference: Preference)
    ensures ParseModel(model) == (canonical, preference) <==>
            || (model == canonical + ":nitro" && preference == Throughput)
            || (model == canonical + ":floor" && preference == Price)
            || (model == canonical && preference == Default && !EndsIn(model, ":nitro") && !EndsIn(model, ":floor"))
  {
    StripsSuffixExactly(model, ":nitro");
    StripsSuffixExactly(model, ":floor");
    hide StripSuffix;
    if EndsIn(model, ":nitro") {
      var front: string :| model == front + ":nitro";
      NotBothSuffixes(front, canonical);
    }
  }

  lemma ParsesSortExactly(request: Json, preference: Preference)
    ensures ParseSort(request) == Ok(None) <==> SortOf(request) == None
    ensures ParseSort(request) == Ok(Some(preference)) <==>
            SortOf(request).Some? && IsSort(SortOf(request).value, preference)
    ensures ParseSort(request).Err? ==> ParseSort(request) == Err(InvalidSort)
  {}

  lemma ParsesFieldsExactly(request: Json, topP: Option<real>, stream: bool)
    ensures ParseTopP(request) == Ok(topP) <==> ReadsTopP(request, topP)
    ensures ParseTopP(request).Err? ==> ParseTopP(request) == Err(InvalidTopP)
    ensures ParseStream(request) == Ok(stream) <==> ReadsStream(request, stream)
    ensures ParseStream(request).Err? ==> ParseStream(request) == Err(InvalidStream)
    ensures OverridesProvider(request) <==> NamesProviders(request)
  {
    hide Value;
  }

  /** Exactly the requests that are read, and how. */
  lemma PreparesExactly(request: Json, prepared: Prepared)
    ensures Prepare(request) == Ok(prepared) <==> Reads(request, prepared)
  {
    var Prepared(canonical, preference, stream, topP) := prepared;
    ParsesFieldsExactly(request, topP, stream);
    forall any: Preference
      ensures ParseSort(request) == Ok(None) <==> SortOf(request) == None
      ensures ParseSort(request) == Ok(Some(any)) <==> SortOf(request).Some? && IsSort(SortOf(request).value, any)
    {
      ParsesSortExactly(request, any);
    }
    if GetStr(request, "model").Some? {
      forall any: Preference
        ensures ParseModel(GetStr(request, "model").value) == (canonical, any) <==> ReadsModel(request, canonical, any)
      {
        ParsesModelExactly(GetStr(request, "model").value, canonical, any);
      }
    }
    hide ParseTopP, ParseStream, ParseModel, ParseSort, OverridesProvider, ReadsTopP, ReadsStream, NamesProviders;
    hide SortOf, IsSort, EndsIn;
  }

  ghost predicate HasTopP(request: Json) {
    exists topP :: ReadsTopP(request, topP)
  }

  ghost predicate HasStream(request: Json) {
    exists stream :: ReadsStream(request, stream)
  }

  /** Exactly why a request is not read, in the order of the checks. */
  lemma RejectsExactly(request: Json)
    ensures Prepare(request) == Err(UnsupportedProviderOverride) <==> NamesProviders(request)
    ensures Prepare(request) == Err(InvalidTopP) <==> !NamesProviders(request) && !HasTopP(request)
    ensures Prepare(request) == Err(InvalidStream) <==>
            !NamesProviders(request) && HasTopP(request) && !HasStream(request)
    ensures var fine := !NamesProviders(request) && HasTopP(request) && HasStream(request);
            var hasModel := Get(request, "model").Some? && Get(request, "model").value.Str?;
            && (Prepare(request) == Err(InvalidModel) <==> fine && !hasModel)
            && (Prepare(request) == Err(InvalidSort) <==>
                fine && hasModel && SortOf(request).Some?
                && !exists preference :: IsSort(SortOf(request).value, preference))
    ensures Prepare(request) != Err(UnknownModel) && Prepare(request) != Err(NoEligibleRoute)
  {
    forall topP: Option<real>, stream: bool
      ensures ParseTopP(request) == Ok(topP) <==> ReadsTopP(request, topP)
      ensures ParseStream(request) == Ok(stream) <==> ReadsStream(request, stream)
    {
      ParsesFieldsExactly(request, topP, stream);
    }
    ParsesFieldsExactly(request, None, false);
    forall any: Preference
      ensures ParseSort(request) == Ok(Some(any)) <==> SortOf(request).Some? && IsSort(SortOf(request).value, any)
    {
      ParsesSortExactly(request, any);
    }
    ParsesSortExactly(request, Default);
    FieldsRead(request);
    hide ParseTopP, ParseStream, ParseModel, ParseSort, OverridesProvider, ReadsTopP, ReadsStream, NamesProviders;
    hide SortOf, IsSort, HasTopP, HasStream;
  }

  lemma FieldsRead(request: Json)
    ensures HasTopP(request) <==> ParseTopP(request).Ok?
    ensures HasStream(request) <==> ParseStream(request).Ok?
    ensures ParseSort(request).Ok? <==>
            SortOf(request) == None || exists preference :: IsSort(SortOf(request).value, preference)
  {
    if ParseTopP(request).Ok? { ParsesFieldsExactly(request, ParseTopP(request).value, false); }
    if ParseStream(request).Ok? { ParsesFieldsExactly(request, None, ParseStream(request).value); }
    if ParseSort(request).Ok? && ParseSort(request).value.Some? {
      ParsesSortExactly(request, ParseSort(request).value.value);
    }
    forall topP | ReadsTopP(request, topP) ensures ParseTopP(request).Ok? { ParsesFieldsExactly(request, topP, false); }
    forall stream | ReadsStream(request, stream) ensures ParseStream(request).Ok? {
      ParsesFieldsExactly(request, None, stream);
    }
    hide Value;
  }

  /** Drops `provider.sort`, and `provider` itself once nothing is left in it. */
  function ConsumeSort(request: Json): Json {
    match Get(request, "provider")
    case Some(Obj(provider)) =>
      var rest := provider - {"sort"};
      if rest == map[] then Obj(request.fields - {"provider"})
      else Obj(request.fields["provider" := Obj(rest)])
    case _ => request
  }

  function WithModel(request: Json, model: string): Json {
    if request.Obj? then Obj(request.fields["model" := Str(model)]) else request
  }

  function Rewrite(request: Json, model: string): Json {
    WithModel(ConsumeSort(request), model)
  }

  /** Whether the model or the sort is written first makes no difference. */
  lemma ModelAndSortCommute(request: Json, model: string)
    requires request.Obj?
    ensures ConsumeSort(WithModel(request, model)) == Rewrite(request, model)
  {
    match Get(request, "provider")
    case Some(Obj(provider)) =>
      var rest := provider - {"sort"};
      var dropped := request.fields - {"provider"};
      assert request.fields["model" := Str(model)] - {"provider"} == dropped["model" := Str(model)];
      assert request.fields["model" := Str(model)]["provider" := Obj(rest)]
          == request.fields["provider" := Obj(rest)]["model" := Str(model)];
    case _ =>
  }

  lemma PreparedIsObject(request: Json)
    requires Prepare(request).Ok?
    ensures request.Obj?
  {}

  /**
   * What the provider receives: the chosen model, no routing sort, no emptied `provider` object, and every
   * other field of the request and of its `provider` as the client sent it. Rewriting for another model keeps that.
   */
  lemma RewriteKeepsTheRest(request: Json, model: string, other: string)
    requires request.Obj?
    ensures var sent := Rewrite(request, model);
            && GetStr(sent, "model") == Some(model)
            && (forall k :: k != "model" && k != "provider" ==> Get(sent, k) == Get(request, k))
            && (match Get(request, "provider")
                case Some(Obj(provider)) =>
                  (match Get(sent, "provider")
                   case None => provider.Keys <= {"sort"}
                   case Some(kept) => && kept.Obj? && kept.fields != map[] && "sort" !in kept.fields
                                      && forall k :: k != "sort" ==> Get(kept, k) == Get(Obj(provider), k))
                case _ => Get(sent, "provider") == Get(request, "provider"))
            && WithModel(sent, other) == Rewrite(request, other)
  {
    match Get(request, "provider")
    case Some(Obj(provider)) =>
      var rest := provider - {"sort"};
      assert forall k :: k in rest <==> k in provider && k != "sort";
      assert rest.Keys == provider.Keys - {"sort"};
      assert WithModel(Rewrite(request, model), other).fields == Rewrite(request, other).fields;
    case _ =>
      assert WithModel(Rewrite(request, model), other).fields == Rewrite(request, other).fields;
  }
}
