/** Exactly which upstream byte streams are delivered without a generic error. */
module Acceptance {
  import opened Basics
  import opened Json
  import opened Pricing
  import opened UsageCost
  import opened Framing
  import opened Transformer
  import opened ChunkIndependence
  import opened StreamShape

  /** The JSON of a data event, None when the event is not one line of data that parses. */
  function JsonOf(config: Config, event: string): Option<Json>
    requires |event| >= 2
  {
    match SingleDataLine(SplitSeparator(event).0)
    case None => None
    case Some((_, data)) => if data == "[DONE]" then None else config.parse(data)
  }

  /** The body of the event is the `[DONE]` line, with or without the space. */
  predicate IsDoneEvent(event: string)
    requires |event| >= 2
  {
    SplitSeparator(event).0 == "data:[DONE]" || SplitSeparator(event).0 == "data: [DONE]"
  }

  /** The unfinished rest is the `[DONE]` line, with at most one line end behind it. */
  predicate IsDoneRest(rest: string) {
    || rest == "data:[DONE]" || rest == "data:[DONE]\n" || rest == "data:[DONE]\r\n"
    || rest == "data: [DONE]" || rest == "data: [DONE]\n" || rest == "data: [DONE]\r\n"
  }

  /** DeepInfra usage beside choices, with neither a cost nor an estimate. */
  predicate IsPreliminary(v: Json, policy: CostPolicy) {
    && policy.DeepInfraEstimatedCost?
    && HasUsageObject(v)
    && "choices" in v.fields && v.fields["choices"].Arr? && v.fields["choices"].items != []
    && IsAbsentOrNull(v.fields["usage"], "cost") && IsAbsentOrNull(v.fields["usage"], "estimated_cost")
  }

  /** The event shows final usage: an object that is not preliminary. */
  predicate ShowsUsage(config: Config, event: string)
    requires |event| >= 2
  {
    && JsonOf(config, event).Some?
    && var v := JsonOf(config, event).value; HasUsageObject(v) && !IsPreliminary(v, config.policy)
  }

  /** A completion object without an error, whose final usage, if it shows any, can be costed. */
  predicate IsAcceptable(config: Config, event: string)
    requires |event| >= 2 && config.prices.Some?
  {
    && JsonOf(config, event).Some?
    && var v := JsonOf(config, event).value;
       && HasCompletionShape(v) && !CarriesError(v)
       && (ShowsUsage(config, event) ==> CanBeCosted(v, config.prices.value, config.policy))
  }

  /** The stream is ended by its event `k`, or by the rest when there are only `k` events. */
  predicate EndsAt(events: seq<string>, rest: string, k: nat)
    requires AreEvents(events)
  {
    && k <= |events|
    && (if k < |events| then IsDoneEvent(events[k]) else IsDoneRest(rest))
    && forall i :: 0 <= i < k ==> !IsDoneEvent(events[i])
  }

  /** Every event before the first `[DONE]` is acceptable, and one of them shows final usage unless one already has. */
  ghost predicate SucceedsAt(config: Config, shown: bool, events: seq<string>, rest: string, k: nat)
    requires config.prices.Some? && AreEvents(events)
  {
    && EndsAt(events, rest, k)
    && (forall i :: 0 <= i < k ==> IsAcceptable(config, events[i]))
    && (shown || exists i :: 0 <= i < k && ShowsUsage(config, events[i]))
  }

  lemma EventOutcome(config: Config, model: string, costed: Option<CostedUsage>, event: string)
    requires PricedPublic(config, model) && |event| >= 2
    ensures var r := PublicReaction(config, model, costed, event);
            if IsDoneEvent(event) then
              r.closes && (r.output.completed.Some? <==> costed.Some?)
            else if IsAcceptable(config, event) then
              !r.closes && r.output.completed == None
              && (r.costed.Some? <==> costed.Some? || ShowsUsage(config, event))
            else r == Reject(model)
  {
    DoneLineIsDone(SplitSeparator(event).0);
    if JsonOf(config, event).Some? {
      var v := JsonOf(config, event).value;
      ReadsAlike(v, model, config.prices.value, config.policy);
    }
    hide Sanitize, Inject, IsTerminalUsage, IsPreliminaryUsage, WithNullUsage, SplitSeparator, IsDoneLine, CanBeCosted;
    hide HasCompletionShape, CarriesError, HasUsageObject, IsPreliminary;
  }

  lemma DoneLineIsDone(line: string)
    ensures IsDoneLine(line) <==> line == "data:[DONE]" || line == "data: [DONE]"
  {
    DataLineRecombines(line);
    PrefixedDataIsOneLine("data:", "[DONE]");
    PrefixedDataIsOneLine("data: ", "[DONE]");
    assert "data:" + "[DONE]" == "data:[DONE]" && "data: " + "[DONE]" == "data: [DONE]";
    hide SingleDataLine;
  }

  lemma DoneRestIsDone(rest: string)
    ensures IsDoneLine(WithoutLineEnd(rest)) <==> IsDoneRest(rest)
  {
    var line := WithoutLineEnd(rest);
    DoneLineIsDone(line);
    LineEndDropped(rest);
    hide WithoutLineEnd, IsDoneLine;
    DoneWithEnds("data:[DONE]");
    DoneWithEnds("data: [DONE]");
  }

  lemma DoneWithEnds(line: string)
    requires line == "data:[DONE]" || line == "data: [DONE]"
    ensures forall ending <- {"", "\n", "\r\n"} :: WithoutLineEnd(line + ending) == line
    ensures line + "" == line
    ensures IsDoneRest(line) && IsDoneRest(line + "\n") && IsDoneRest(line + "\r\n")
  {
    forall ending <- {"", "\n", "\r\n"} ensures WithoutLineEnd(line + ending) == line {
      BareLineHasNoEnd(line, ending);
    }
  }

  lemma LineEndDropped(rest: string)
    ensures var line := WithoutLineEnd(rest); rest == line || rest == line + "\n" || rest == line + "\r\n"
  {}

  /** What the transformer asks of the sanitized JSON can be read off the JSON as it came. */
  lemma ReadsAlike(v: Json, model: string, prices: ValidPrices, policy: CostPolicy)
    ensures var (clean, rejection) := Sanitize(v, model);
            && (rejection == None <==> HasCompletionShape(v) && !CarriesError(v))
            && (rejection == None ==>
                  && (IsTerminalUsage(clean) <==> HasUsageObject(v))
                  && (IsPreliminaryUsage(clean, policy) <==> IsPreliminary(v, policy))
                  && (Inject(clean, prices, policy).1.Ok? <==> CanBeCosted(v, prices, policy)))
  {
    SanitizeAcceptsExactly(v, model);
    var (clean, rejection) := Sanitize(v, model);
    if rejection == None {
      SanitizedUsage(v, model, prices, policy);
      InjectsExactly(clean, prices, policy);
      StripKeepsKind(v.fields["choices"]);
      hide Sanitize, Inject, Strip, CanBeCosted, HasCompletionShape, CarriesError;
    }
  }

  lemma SucceedsLater(config: Config, shown: bool, events: seq<string>, rest: string, k: nat)
    requires config.prices.Some? && AreEvents(events) && events != [] && k > 0
    requires !IsDoneEvent(events[0]) && IsAcceptable(config, events[0])
    ensures AreEvents(events[1..])
    ensures SucceedsAt(config, shown, events, rest, k) <==>
            SucceedsAt(config, shown || ShowsUsage(config, events[0]), events[1..], rest, k - 1)
  {
    hide IsAcceptable, ShowsUsage, IsDoneEvent, IsDoneRest;
    var later := events[1..];
    if k <= |events| {
      assert forall i :: 0 < i < k ==> later[i - 1] == events[i];
      assert forall i :: 0 <= i < k - 1 ==> events[i + 1] == later[i];
    }
    if exists i :: 0 <= i < k && k <= |events| && ShowsUsage(config, events[i]) {
      var i :| 0 <= i < k && k <= |events| && ShowsUsage(config, events[i]);
      if i > 0 { assert ShowsUsage(config, later[i - 1]); }
    }
    if exists i :: 0 <= i < k - 1 && k - 1 <= |later| && ShowsUsage(config, later[i]) {
      var i :| 0 <= i < k - 1 && k - 1 <= |later| && ShowsUsage(config, later[i]);
      assert ShowsUsage(config, events[i + 1]);
    }
  }

  lemma {:induction false} ReplaySucceedsExactly(config: Config, model: string, costed: Option<CostedUsage>,
                                                 events: seq<string>, rest: string)
    requires PricedPublic(config, model) && AreEvents(events)
    ensures Replay(config, costed, events, rest).completed.Some? <==>
            exists k: nat :: SucceedsAt(config, costed.Some?, events, rest, k)
    decreases |events|
  {
    hide PublicReaction, IsAcceptable, ShowsUsage, IsDoneEvent, IsDoneRest;
    if events == [] {
      DoneRestIsDone(rest);
      assert SucceedsAt(config, costed.Some?, events, rest, 0) <==>
             IsDoneRest(rest) && costed.Some?;
    } else {
      EventOutcome(config, model, costed, events[0]);
      if IsDoneEvent(events[0]) {
        assert SucceedsAt(config, costed.Some?, events, rest, 0) <==> costed.Some?;
      } else if IsAcceptable(config, events[0]) {
        var shown := costed.Some? || ShowsUsage(config, events[0]);
        var r := React(config, costed, events[0]);
        ReplaySucceedsExactly(config, model, r.costed, events[1..], rest);
        forall k: nat | k > 0
          ensures SucceedsAt(config, costed.Some?, events, rest, k) <==>
                  SucceedsAt(config, shown, events[1..], rest, k - 1)
        {
          SucceedsLater(config, costed.Some?, events, rest, k);
        }
        if exists k: nat :: SucceedsAt(config, shown, events[1..], rest, k) {
          var k: nat :| SucceedsAt(config, shown, events[1..], rest, k);
          assert SucceedsAt(config, costed.Some?, events, rest, k + 1);
        }
      }
    }
  }

  /**
   * For every input and chunking: the client is spared the generic error exactly when the upstream sends `[DONE]`,
   * every event before it is an acceptable completion, and one of these shows final usage. What follows the
   * `[DONE]` does not matter.
   */
  lemma StreamSucceedsExactly(config: Config, model: string, chunks: seq<string>)
    requires PricedPublic(config, model)
    ensures var (events, rest) := Cut(Concat(chunks));
            && AreEvents(events)
            && (!Failed(Session(config, chunks).frames) <==>
                exists k: nat :: SucceedsAt(config, false, events, rest, k))
  {
    hide Session, Replay, IsPublicStream, LastCost, SucceedsAt, Cut, Failed;
    SessionIsReplay(config, chunks);
    PricedSession(config, model, chunks);
    ReplaySucceedsExactly(config, model, None, Cut(Concat(chunks)).0, Cut(Concat(chunks)).1);
  }

  // ------------------------------------------------------- what is delivered

  /** What a client sees of an acceptable event: preliminary usage as null, final usage costed, the rest as it is. */
  function Shown(config: Config, model: string, event: string): Json
    requires |event| >= 2 && config.prices.Some? && IsAcceptable(config, event)
  {
    var clean := Sanitize(JsonOf(config, event).value, model).0;
    if IsPreliminaryUsage(clean, config.policy) then WithNullUsage(clean)
    else if IsTerminalUsage(clean) then Inject(clean, config.prices.value, config.policy).0
    else clean
  }

  /** The frame keeps the event's own prefix and separator around what is shown. */
  ghost predicate Shows(config: Config, model: string, frame: Frame, event: string)
    requires |event| >= 2 && config.prices.Some?
  {
    && IsAcceptable(config, event)
    && SingleDataLine(SplitSeparator(event).0).Some?
    && var (body, separator) := SplitSeparator(event);
       frame == Data(SingleDataLine(body).value.0, Shown(config, model, event), separator)
  }

  lemma EventIsShown(config: Config, model: string, costed: Option<CostedUsage>, event: string)
    requires PricedPublic(config, model) && |event| >= 2
    requires IsAcceptable(config, event) && !IsDoneEvent(event)
    ensures var r := PublicReaction(config, model, costed, event);
            !r.closes && |r.output.frames| == 1 && Shows(config, model, r.output.frames[0], event)
  {
    DoneLineIsDone(SplitSeparator(event).0);
    ReadsAlike(JsonOf(config, event).value, model, config.prices.value, config.policy);
    hide Sanitize, Inject, IsTerminalUsage, IsPreliminaryUsage, WithNullUsage, SplitSeparator, IsDoneLine, CanBeCosted;
    hide HasCompletionShape, CarriesError, HasUsageObject, IsPreliminary;
  }

  /** The data frames are the first events, one for one and in order. */
  ghost predicate ShowsInOrder(config: Config, model: string, frames: seq<Frame>, events: seq<string>)
    requires AreEvents(events) && config.prices.Some?
  {
    forall i :: 0 <= i < |frames| && frames[i].Data? ==> i < |events| && Shows(config, model, frames[i], events[i])
  }

  lemma ClosingShowsNothing(config: Config, model: string, costed: Option<CostedUsage>, event: string)
    requires PricedPublic(config, model) && IsEvent(event) && |event| >= 2
    requires PublicReaction(config, model, costed, event).closes
    ensures forall frame <- PublicReaction(config, model, costed, event).output.frames :: !frame.Data?
    ensures PublicReaction(config, model, costed, event).output.completed.Some? ==>
              |PublicReaction(config, model, costed, event).output.frames| == 1
  {
    PublicReactionShape(config, model, costed, event);
    hide PublicReaction, IsEvent, IsGoodData, FrameCost;
  }

  lemma ShowsOneMore(config: Config, model: string, frame: Frame, frames: seq<Frame>, events: seq<string>)
    requires AreEvents(events) && config.prices.Some? && events != [] && Shows(config, model, frame, events[0])
    requires AreEvents(events[1..]) && ShowsInOrder(config, model, frames, events[1..])
    ensures ShowsInOrder(config, model, [frame] + frames, events)
  {
    hide Shows;
    var all, later := [frame] + frames, events[1..];
    forall i | 0 <= i < |all| && all[i].Data? ensures i < |events| && Shows(config, model, all[i], events[i]) {
      if i > 0 { assert all[i] == frames[i - 1] && later[i - 1] == events[i]; }
    }
  }

  lemma {:induction false} ReplayShowsInOrder(config: Config, model: string, costed: Option<CostedUsage>,
                                              events: seq<string>, rest: string)
    requires PricedPublic(config, model) && AreEvents(events)
    requires forall i :: 0 <= i < |events| ==> IsEvent(events[i])
    ensures ShowsInOrder(config, model, Replay(config, costed, events, rest).frames, events)
    ensures forall k: nat :: SucceedsAt(config, costed.Some?, events, rest, k) ==>
              |Replay(config, costed, events, rest).frames| == k + 1
    decreases |events|
  {
    hide PublicReaction, IsAcceptable, ShowsUsage, IsDoneEvent, IsDoneRest, IsDoneLine, WithoutLineEnd, IsEvent, Shows;
    if events == [] {
      DoneRestIsDone(rest);
    } else {
      EventOutcome(config, model, costed, events[0]);
      var r := React(config, costed, events[0]);
      if !r.closes {
        EventIsShown(config, model, costed, events[0]);
        ReplayShowsInOrder(config, model, r.costed, events[1..], rest);
        var later := Replay(config, r.costed, events[1..], rest).frames;
        assert r.output.frames == [r.output.frames[0]];
        ShowsOneMore(config, model, r.output.frames[0], later, events);
        forall k: nat | SucceedsAt(config, costed.Some?, events, rest, k) ensures |later| == k {
          SucceedsLater(config, costed.Some?, events, rest, k);
        }
      } else {
        assert IsEvent(events[0]);
        ClosingShowsNothing(config, model, costed, events[0]);
        ReplaySucceedsExactly(config, model, costed, events, rest);
      }
    }
  }

  /**
   * For every input and chunking: the data frames show the upstream's events one for one and in order, each the
   * sanitized JSON of its event in its own framing; and a stream that succeeds at its event `k` delivers exactly `k`
   * of them before the `[DONE]`.
   */
  lemma StreamShowsItsEvents(config: Config, model: string, chunks: seq<string>)
    requires PricedPublic(config, model)
    ensures var (events, rest) := Cut(Concat(chunks));
            var frames := Session(config, chunks).frames;
            && AreEvents(events) && ShowsInOrder(config, model, frames, events)
            && forall k: nat :: SucceedsAt(config, false, events, rest, k) ==> |frames| == k + 1
  {
    hide Session, Replay, SucceedsAt, Cut, IsEvent, ShowsInOrder;
    SessionIsReplay(config, chunks);
    CutYieldsEvents(Concat(chunks));
    ReplayShowsInOrder(config, model, None, Cut(Concat(chunks)).0, Cut(Concat(chunks)).1);
  }

  /** What a client reads in the JSON shown for an acceptable event, field by field, and what it is charged. */
  lemma ShownExactly(config: Config, model: string, event: string)
    requires |event| >= 2 && config.prices.Some? && IsAcceptable(config, event)
    ensures var v, shown := JsonOf(config, event).value, Shown(config, model, event);
            && v.Obj? && shown.Obj?
            && (forall k :: k in shown.fields <==> k == "model" || (k in v.fields && IsPublicField(k)))
            && shown.fields["model"] == Str(model)
            && (forall k :: k in shown.fields && k != "model" && k != "usage" ==> shown.fields[k] == Strip(v.fields[k]))
            && ("usage" in v.fields && !HasUsageObject(v) ==> shown.fields["usage"] == Strip(v.fields["usage"]))
            && (IsPreliminary(v, config.policy) ==> shown.fields["usage"] == Null)
            && (ShowsUsage(config, event) ==>
                  && shown.fields["usage"].Obj?
                  && (exists costed ::
                        && Costs(v, config.prices.value, config.policy, costed)
                        && Get(shown.fields["usage"], "cost") == Some(Num(Number(false, costed.costUnits, 10, None))))
                  && (config.policy.DeepInfraEstimatedCost? ==> Get(shown.fields["usage"], "estimated_cost") == None)
                  && (forall k :: k != "cost" && k != "estimated_cost" ==>
                        Get(shown.fields["usage"], k) == Get(Strip(v.fields["usage"]), k)))
  {
    var v := JsonOf(config, event).value;
    var clean := Sanitize(v, model).0;
    ReadsAlike(v, model, config.prices.value, config.policy);
    SanitizedIsPublic(v, model);
    SanitizedUsage(v, model, config.prices.value, config.policy);
    InjectKeepsOtherFields(clean, config.prices.value, config.policy);
    if Inject(clean, config.prices.value, config.policy).1.Ok? {
      var costed := Inject(clean, config.prices.value, config.policy).1.value;
      InjectedCostSource(clean, config.prices.value, config.policy, costed);
      assert Costs(clean, config.prices.value, config.policy, costed);
    }
    assert IsPublicField("usage");
    hide Sanitize, Inject, Strip, CanBeCosted, HasCompletionShape, CarriesError, JsonOf, IsPublicCompletion, Removes;
    hide IsPublicField, IsPreliminary, Costs, SaysAlike;
  }

  /**
   * In every session, no frame shows preliminary DeepInfra usage: the frame of an event that carries it shows null
   * there and counts for no cost, and shows every other field as it is.
   */
  lemma PreliminaryUsageIsNeverShown(config: Config, model: string, chunks: seq<string>, i: nat)
    requires PricedPublic(config, model)
    requires i < |Session(config, chunks).frames| && Session(config, chunks).frames[i].Data?
    ensures var frame, events := Session(config, chunks).frames[i], Cut(Concat(chunks)).0;
            && !IsPreliminary(frame.value, config.policy)
            && AreEvents(events) && i < |events| && JsonOf(config, events[i]).Some?
            && var v := JsonOf(config, events[i]).value;
               IsPreliminary(v, config.policy) ==>
                 && Get(frame.value, "usage") == Some(Null) && FrameCost(frame) == None
                 && forall k :: k != "usage" && k != "model" && IsPublicField(k) ==>
                      Get(frame.value, k) == Get(Strip(v), k)
  {
    StreamShowsItsEvents(config, model, chunks);
    var frame, event := Session(config, chunks).frames[i], Cut(Concat(chunks)).0[i];
    assert Shows(config, model, frame, event);
    ShownIsNotPreliminary(config, model, event);
  }

  lemma ShownIsNotPreliminary(config: Config, model: string, event: string)
    requires |event| >= 2 && config.prices.Some? && IsAcceptable(config, event)
    ensures var v, shown := JsonOf(config, event).value, Shown(config, model, event);
            && !IsPreliminary(shown, config.policy)
            && (IsPreliminary(v, config.policy) ==> Get(shown, "usage") == Some(Null) && !IsTerminalUsage(shown))
            && forall k :: k != "usage" && k != "model" && IsPublicField(k) ==> Get(shown, k) == Get(Strip(v), k)
  {
    ShownExactly(config, model, event);
    hide Shown, JsonOf, CanBeCosted, HasCompletionShape, CarriesError;
    var v, shown := JsonOf(config, event).value, Shown(config, model, event);
    forall k | k != "usage" && k != "model" && IsPublicField(k) ensures Get(shown, k) == Get(Strip(v), k) {
      PublicFieldIsStripped(v, k);
    }
    hide Strip;
  }

  lemma PublicFieldIsStripped(v: Json, k: string)
    requires v.Obj? && IsPublicField(k)
    ensures Get(Strip(v), k) == match Get(v, k) case Some(x) => Some(Strip(x)) case None => None
  {
    StripGets(v, k);
  }

  /**
   * An upstream error inside a completion object is never hidden: when an event before the first `[DONE]` carries one,
   * the client gets the generic error, and no usage is completed.
   */
  lemma EmbeddedErrorFails(config: Config, model: string, chunks: seq<string>, i: nat)
    requires PricedPublic(config, model)
    requires AreEvents(Cut(Concat(chunks)).0) && i < |Cut(Concat(chunks)).0|
    requires forall j :: 0 <= j <= i ==> !IsDoneEvent(Cut(Concat(chunks)).0[j])
    requires var parsed := JsonOf(config, Cut(Concat(chunks)).0[i]);
             parsed.Some? && parsed.value.Obj?
             && "error" in parsed.value.fields && parsed.value.fields["error"] != Null
    ensures Failed(Session(config, chunks).frames) && Session(config, chunks).completed == None
  {
    StreamSucceedsExactly(config, model, chunks);
    PricedSession(config, model, chunks);
    var (events, rest) := Cut(Concat(chunks));
    assert !IsAcceptable(config, events[i]);
    hide Session, Failed, Cut, JsonOf, ShowsUsage, IsDoneEvent, IsDoneRest, IsPublicStream, LastCost, IsAcceptable;
    assert forall k: nat :: SucceedsAt(config, false, events, rest, k) ==> k <= i;
  }
}
