/** A stream without a public model is relayed event by event, with costs and without private metadata. */
module InternalStreams {
  import opened Basics
  import opened Json
  import opened Pricing
  import opened UsageCost
  import opened Framing
  import opened Transformer
  import opened ChunkIndependence
  import opened Acceptance

  predicate IsDeferred(config: Config, event: string)
    requires |event| >= 2
  {
    JsonOf(config, event).Some? && IsPreliminary(JsonOf(config, event).value, config.policy)
  }

  /** Final usage that can be costed. */
  predicate IsCosted(config: Config, event: string)
    requires |event| >= 2
  {
    && JsonOf(config, event).Some? && config.prices.Some? && !IsDeferred(config, event)
    && CanBeCosted(JsonOf(config, event).value, config.prices.value, config.policy)
  }

  predicate HoldsPrivate(config: Config, event: string)
    requires |event| >= 2
  {
    JsonOf(config, event).Some? && Removes(JsonOf(config, event).value)
  }

  /** The JSON relayed for `v`: stripped, with preliminary usage as null and final usage costed. */
  ghost predicate IsRelayedAs(config: Config, event: string, shown: Json)
    requires |event| >= 2 && JsonOf(config, event).Some?
  {
    var v := JsonOf(config, event).value;
    if IsDeferred(config, event) then
      && shown.Obj? && Get(shown, "usage") == Some(Null)
      && forall k :: k != "usage" ==> Get(shown, k) == Get(Strip(v), k)
    else if IsCosted(config, event) then
      && shown.Obj? && (forall k :: k != "usage" ==> Get(shown, k) == Get(Strip(v), k))
      && Get(shown, "usage").Some?
      && var usage := Get(shown, "usage").value;
         && (exists costed ::
               && Costs(v, config.prices.value, config.policy, costed)
               && Get(usage, "cost") == Some(Num(Number(false, costed.costUnits, 10, None))))
         && (config.policy.DeepInfraEstimatedCost? ==> Get(usage, "estimated_cost") == None)
         && forall k :: k != "cost" && k != "estimated_cost" ==>
              Get(usage, k) == Get(Strip(v.fields["usage"]), k)
    else shown == Strip(v)
  }

  /** An event that needs no change is relayed byte for byte, any other in its own framing. */
  ghost predicate IsRelayed(config: Config, frame: Frame, event: string)
    requires |event| >= 2
  {
    if IsDeferred(config, event) || IsCosted(config, event) || HoldsPrivate(config, event) then
      var (body, separator) := SplitSeparator(event);
      && SingleDataLine(body).Some?
      && frame.Data? && frame.prefix == SingleDataLine(body).value.0 && frame.separator == separator
      && IsRelayedAs(config, event, frame.value)
    else frame == Raw(event)
  }

  lemma StrippedReadsAlike(v: Json, policy: CostPolicy)
    ensures IsTerminalUsage(Strip(v)) <==> HasUsageObject(v)
    ensures IsPreliminaryUsage(Strip(v), policy) <==> IsPreliminary(v, policy)
  {
    StripGets(v, "usage");
    StripGets(v, "choices");
    StripKeepsKind(v);
    if Get(v, "choices").Some? { StripKeepsKind(Get(v, "choices").value); }
    if Get(v, "usage").Some? {
      StripKeepsKind(Get(v, "usage").value);
      StripGets(Get(v, "usage").value, "cost");
      StripGets(Get(v, "usage").value, "estimated_cost");
    }
    hide Strip, IsCost, Reports, Unreported, GetU64;
  }

  lemma StrippedInjects(v: Json, prices: ValidPrices, policy: CostPolicy)
    requires HasUsageObject(v)
    ensures var (shown, outcome) := Inject(Strip(v), prices, policy);
            && (outcome.Ok? <==> CanBeCosted(v, prices, policy))
            && (outcome.Ok? ==> Costs(v, prices, policy, outcome.value))
            && (outcome.Err? ==> shown == Strip(v))
  {
    var clean := Strip(v);
    StripGets(v, "usage");
    StripGets(v, "id");
    InjectsExactly(clean, prices, policy);
    InjectIsStable(clean, prices, policy);
    var outcome := Inject(clean, prices, policy).1;
    var costed := if outcome.Ok? then outcome.value else CostedUsage(None, Usage(0, 0), 0);
    StrippedCostsAlike(v, clean, prices, policy, costed);
    hide Strip, Inject, CanBeCosted, Costs;
    if outcome.Ok? { InjectedCostSource(clean, prices, policy, outcome.value); }
  }

  lemma DeferredIsRelayed(config: Config, event: string)
    requires |event| >= 2 && IsDeferred(config, event)
    ensures Strip(JsonOf(config, event).value).Obj?
    ensures IsRelayedAs(config, event, WithNullUsage(Strip(JsonOf(config, event).value)))
  {
    var v := JsonOf(config, event).value;
    StripKeepsKind(v);
    hide Strip, JsonOf;
  }

  lemma CostedIsRelayed(config: Config, event: string)
    requires |event| >= 2 && IsCosted(config, event)
    ensures IsRelayedAs(config, event, Inject(Strip(JsonOf(config, event).value), config.prices.value, config.policy).0)
  {
    var v := JsonOf(config, event).value;
    StrippedInjects(v, config.prices.value, config.policy);
    InjectKeepsOtherFields(Strip(v), config.prices.value, config.policy);
    StripGets(v, "usage");
    hide Strip, Inject, JsonOf, Costs;
    var (shown, outcome) := Inject(Strip(v), config.prices.value, config.policy);
    assert Get(shown, "usage").Some?;
  }

  /** Every internal event becomes one frame, and none closes the stream. */
  lemma EventIsRelayed(config: Config, costed: Option<CostedUsage>, event: string)
    requires config.responseModel == None && |event| >= 2
    ensures var r := React(config, costed, event);
            !r.closes && |r.output.frames| == 1 && IsRelayed(config, r.output.frames[0], event)
  {
    DoneLineIsDone(SplitSeparator(event).0);
    if JsonOf(config, event).Some? {
      var v := JsonOf(config, event).value;
      StrippedReadsAlike(v, config.policy);
      if IsDeferred(config, event) {
        DeferredIsRelayed(config, event);
      } else if IsCosted(config, event) {
        CostedIsRelayed(config, event);
      }
      if HasUsageObject(v) && config.prices.Some? { StrippedInjects(v, config.prices.value, config.policy); }
    }
    hide Strip, Inject, IsTerminalUsage, IsPreliminaryUsage, WithNullUsage, Costs, Removes, HasUsageObject;
    hide IsPreliminary, SplitSeparator, IsDoneLine;
  }

  /** Final usage is kept as its cost, which the next `[DONE]` completes and forgets. */
  lemma EventIsCounted(config: Config, costed: Option<CostedUsage>, event: string)
    requires config.responseModel == None && |event| >= 2
    ensures var r := React(config, costed, event);
            && r.output.completed == (if IsDoneEvent(event) then costed else None)
            && (IsDoneEvent(event) ==> r.costed == None && !IsCosted(config, event))
            && (!IsDoneEvent(event) && !IsCosted(config, event) ==> r.costed == costed)
            && (IsCosted(config, event) ==>
                  r.costed.Some?
                  && Costs(JsonOf(config, event).value, config.prices.value, config.policy, r.costed.value))
  {
    DoneLineIsDone(SplitSeparator(event).0);
    if JsonOf(config, event).Some? {
      var v := JsonOf(config, event).value;
      StrippedReadsAlike(v, config.policy);
      if HasUsageObject(v) && config.prices.Some? { StrippedInjects(v, config.prices.value, config.policy); }
    }
    hide Strip, Inject, IsTerminalUsage, IsPreliminaryUsage, WithNullUsage, Costs, Removes, HasUsageObject;
    hide IsPreliminary, SplitSeparator, IsDoneLine;
  }

  // ----------------------------------------------------------- whole streams

  /** A `[DONE]` comes after event `i`. */
  predicate DoneFollows(events: seq<string>, rest: string, i: int)
    requires AreEvents(events)
  {
    IsDoneRest(rest) || exists j :: i < j < |events| && 0 <= j && IsDoneEvent(events[j])
  }

  /** The cost of event `i` is final: a `[DONE]` comes after it. */
  predicate IsSettledCost(config: Config, events: seq<string>, rest: string, i: nat)
    requires AreEvents(events) && i < |events|
  {
    IsCosted(config, events[i]) && DoneFollows(events, rest, i)
  }

  /** The last cost that a `[DONE]` follows; `carried` stands for one from before the first event. */
  ghost predicate IsCompleted(config: Config, carried: Option<CostedUsage>, events: seq<string>, rest: string,
                              completed: Option<CostedUsage>)
    requires AreEvents(events)
  {
    if forall i :: 0 <= i < |events| ==> !IsSettledCost(config, events, rest, i) then
      completed == if DoneFollows(events, rest, -1) then carried else None
    else
      && completed.Some?
      && exists i ::
           && 0 <= i < |events| && IsSettledCost(config, events, rest, i)
           && Costs(JsonOf(config, events[i]).value, config.prices.value, config.policy, completed.value)
           && forall j :: i < j < |events| ==> !IsSettledCost(config, events, rest, j)
  }

  lemma OneEventEarlier(config: Config, events: seq<string>, rest: string)
    requires AreEvents(events) && events != []
    ensures AreEvents(events[1..])
    ensures forall i :: 0 <= i < |events| ==>
              (DoneFollows(events, rest, i) <==> DoneFollows(events[1..], rest, i - 1))
    ensures forall i :: 1 <= i < |events| ==>
              (IsSettledCost(config, events, rest, i) <==> IsSettledCost(config, events[1..], rest, i - 1))
    ensures DoneFollows(events, rest, -1) <==> IsDoneEvent(events[0]) || DoneFollows(events[1..], rest, -1)
  {
    hide IsCosted, IsDoneEvent, IsDoneRest;
    var later := events[1..];
    assert forall j :: 0 <= j < |later| ==> later[j] == events[j + 1];
    forall i | -1 <= i < |events| ensures DoneFollows(events, rest, i) <==>
                (i == -1 && IsDoneEvent(events[0])) || DoneFollows(later, rest, if i == -1 then -1 else i - 1) {
      if j :| i < j < |events| && 0 < j && IsDoneEvent(events[j]) { assert IsDoneEvent(later[j - 1]); }
      if j :| i - 1 < j < |later| && 0 <= j && IsDoneEvent(later[j]) { assert IsDoneEvent(events[j + 1]); }
    }
  }

  lemma {:induction false} ReplayCompletes(config: Config, carried: Option<CostedUsage>, events: seq<string>,
                                           rest: string)
    requires config.responseModel == None && AreEvents(events)
    ensures IsCompleted(config, carried, events, rest, Replay(config, carried, events, rest).completed)
    decreases |events|
  {
    hide React, IsRelayed, Costs, IsCosted, IsDoneEvent, IsDoneRest, WithoutLineEnd, IsDoneLine;
    if events == [] {
      DoneRestIsDone(rest);
    } else {
      EventIsRelayed(config, carried, events[0]);
      EventIsCounted(config, carried, events[0]);
      OneEventEarlier(config, events, rest);
      var r := React(config, carried, events[0]);
      ReplayCompletes(config, r.costed, events[1..], rest);
      var later := Replay(config, r.costed, events[1..], rest).completed;
      CompletedOneEarlier(config, carried, r.costed, events, rest, later);
    }
  }

  /** What completes the later events, or the `[DONE]` that is the first one, completes them all. */
  lemma CompletedOneEarlier(config: Config, carried: Option<CostedUsage>, kept: Option<CostedUsage>,
                            events: seq<string>, rest: string, later: Option<CostedUsage>)
    requires AreEvents(events) && events != [] && AreEvents(events[1..])
    requires IsDoneEvent(events[0]) ==> kept == None && !IsCosted(config, events[0])
    requires !IsDoneEvent(events[0]) && !IsCosted(config, events[0]) ==> kept == carried
    requires IsCosted(config, events[0]) ==>
               kept.Some? && Costs(JsonOf(config, events[0]).value, config.prices.value, config.policy, kept.value)
    requires IsCompleted(config, kept, events[1..], rest, later)
    ensures IsCompleted(config, carried, events, rest, Later(if IsDoneEvent(events[0]) then carried else None, later))
  {
    OneEventEarlier(config, events, rest);
    hide Costs, IsCosted, IsDoneEvent, IsDoneRest, JsonOf, DoneFollows;
    var rests := events[1..];
    assert forall j :: 1 <= j < |events| ==> rests[j - 1] == events[j];
    if i :| 0 <= i < |rests| && IsSettledCost(config, rests, rest, i) {
      LaterCostStands(config, carried, kept, events, rest, later);
    } else {
      assert forall j :: 0 < j < |events| ==> !IsSettledCost(config, events, rest, j);
      assert later == if DoneFollows(rests, rest, -1) then kept else None;
      assert IsSettledCost(config, events, rest, 0) <==> IsCosted(config, events[0]) && DoneFollows(events, rest, 0);
      assert DoneFollows(events, rest, 0) <==> DoneFollows(rests, rest, -1);
    }
  }

  lemma LaterCostStands(config: Config, carried: Option<CostedUsage>, kept: Option<CostedUsage>,
                        events: seq<string>, rest: string, later: Option<CostedUsage>)
    requires AreEvents(events) && events != [] && AreEvents(events[1..])
    requires exists i :: 0 <= i < |events[1..]| && IsSettledCost(config, events[1..], rest, i)
    requires IsCompleted(config, kept, events[1..], rest, later)
    ensures later.Some? && IsCompleted(config, carried, events, rest, later)
  {
    OneEventEarlier(config, events, rest);
    hide Costs, IsSettledCost, JsonOf, DoneFollows;
    var rests := events[1..];
    var k :| 0 <= k < |rests| && IsSettledCost(config, rests, rest, k)
             && Costs(JsonOf(config, rests[k]).value, config.prices.value, config.policy, later.value)
             && forall j :: k < j < |rests| ==> !IsSettledCost(config, rests, rest, j);
    assert IsSettledCost(config, events, rest, k + 1) && events[k + 1] == rests[k];
    assert forall j :: k + 1 < j < |events| ==> !IsSettledCost(config, events, rest, j);
  }

  lemma {:induction false} ReplayRelays(config: Config, costed: Option<CostedUsage>, events: seq<string>, rest: string)
    requires config.responseModel == None && AreEvents(events)
    ensures var frames := Replay(config, costed, events, rest).frames;
            && |frames| == |events| + 1 && frames[|events|] == Raw(rest)
            && forall i :: 0 <= i < |events| ==> IsRelayed(config, frames[i], events[i])
    decreases |events|
  {
    hide React, IsRelayed, IsDoneLine, WithoutLineEnd;
    if events != [] {
      var later := events[1..];
      var r := React(config, costed, events[0]);
      EventIsRelayed(config, costed, events[0]);
      ReplayRelays(config, r.costed, later, rest);
      var frames, after := Replay(config, costed, events, rest).frames, Replay(config, r.costed, later, rest).frames;
      assert frames == [r.output.frames[0]] + after;
      forall i | 0 <= i < |events| ensures IsRelayed(config, frames[i], events[i]) {
        if i > 0 { assert frames[i] == after[i - 1] && events[i] == later[i - 1]; }
      }
    }
  }

  /**
   * For every input and chunking of an internal stream: every event is relayed in order, and the unfinished rest after
   * them as it came; there is no error, and what completes is the last cost that a `[DONE]` follows.
   */
  lemma InternalStream(config: Config, chunks: seq<string>)
    requires config.responseModel == None
    ensures var (events, rest) := Cut(Concat(chunks));
            var output := Session(config, chunks);
            && AreEvents(events)
            && |output.frames| == |events| + 1 && output.frames[|events|] == Raw(rest)
            && (forall i :: 0 <= i < |events| ==> IsRelayed(config, output.frames[i], events[i]))
            && IsCompleted(config, None, events, rest, output.completed)
  {
    hide Session, Replay, Cut, IsCompleted, IsRelayed;
    SessionIsReplay(config, chunks);
    ReplayRelays(config, None, Cut(Concat(chunks)).0, Cut(Concat(chunks)).1);
    ReplayCompletes(config, None, Cut(Concat(chunks)).0, Cut(Concat(chunks)).1);
  }

  lemma {:induction false} RawTextIsConcat(frames: seq<Frame>, events: seq<string>, rest: string)
    requires |frames| == |events| + 1 && frames[|events|] == Raw(rest)
    requires forall i :: 0 <= i < |events| ==> frames[i] == Raw(events[i])
    ensures Text(frames) == Concat(events) + rest
  {
    if events == [] {
      assert frames == [Raw(rest)];
      SingleText(Raw(rest));
    } else {
      RawTextIsConcat(frames[1..], events[1..], rest);
      Regroup(events[0], Concat(events[1..]), rest);
    }
  }

  /** An internal stream that holds no private key and shows no usage to cost or defer is relayed byte for byte. */
  lemma PlainStreamIsUntouched(config: Config, chunks: seq<string>)
    requires config.responseModel == None && AreEvents(Cut(Concat(chunks)).0)
    requires forall event <- Cut(Concat(chunks)).0 ::
               !IsDeferred(config, event) && !IsCosted(config, event) && !HoldsPrivate(config, event)
    ensures Text(Session(config, chunks).frames) == Concat(chunks)
  {
    InternalStream(config, chunks);
    CutIsLossless(Concat(chunks));
    hide Session, Cut, IsDeferred, IsCosted, HoldsPrivate, Text;
    var (events, rest) := Cut(Concat(chunks));
    RawTextIsConcat(Session(config, chunks).frames, events, rest);
  }
}
