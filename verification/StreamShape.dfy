/** What a client of a priced public stream receives: one-line JSON frames, one `[DONE]`, and the recorded cost. */
module StreamShape {
  import opened Basics
  import opened Json
  import opened Pricing
  import opened UsageCost
  import opened Framing
  import opened Transformer
  import opened ChunkIndependence

  predicate PricedPublic(config: Config, model: string) {
    config.prices.Some? && config.responseModel == Some(model)
  }

  /** The usage and cost a client reads out of an emitted completion object. */
  function ReadBack(v: Json): Option<CostedUsage> {
    match Get(v, "usage")
    case Some(usage) =>
      (match (GetU64(usage, "prompt_tokens"), GetU64(usage, "completion_tokens"), Get(usage, "cost"))
       case (Some(prompt), Some(completion), Some(Num(Number(false, units, 10, None)))) =>
         Some(CostedUsage(GetStr(v, "id"), Usage(prompt, completion), units))
       case _ => None)
    case None => None
  }

  function FrameCost(frame: Frame): Option<CostedUsage> {
    if frame.Data? && IsTerminalUsage(frame.value) then ReadBack(frame.value) else None
  }

  function LastCost(frames: seq<Frame>): Option<CostedUsage> {
    if frames == [] then None else Later(FrameCost(frames[0]), LastCost(frames[1..]))
  }

  /** `LastCost` is the cost in the last frame that carries one. */
  lemma {:induction false} LastCostIsLast(frames: seq<Frame>, i: nat)
    requires i < |frames| && FrameCost(frames[i]).Some?
    requires forall j :: i < j < |frames| ==> FrameCost(frames[j]).None?
    ensures LastCost(frames) == FrameCost(frames[i])
  {
    if i == 0 {
      NoLaterCost(frames[1..]);
    } else {
      LastCostIsLast(frames[1..], i - 1);
    }
  }

  lemma {:induction false} NoLaterCost(frames: seq<Frame>)
    requires forall j :: 0 <= j < |frames| ==> FrameCost(frames[j]).None?
    ensures LastCost(frames) == None
  {
    if frames != [] { NoLaterCost(frames[1..]); }
  }

  /** A single-line public completion object; if it shows usage, it shows its cost to ten places. */
  ghost predicate IsGoodData(frame: Frame, model: string) {
    && frame.Data?
    && IsDataPrefix(frame.prefix) && IsSeparator(frame.separator)
    && IsPublicCompletion(frame.value, model)
    && (IsTerminalUsage(frame.value) ==> ReadBack(frame.value).Some?)
  }

  predicate IsLineEnd(text: string) {
    text == "" || text == "\n" || text == "\r\n" || IsSeparator(text)
  }

  ghost predicate IsDoneText(text: string) {
    exists prefix, ending ::
      IsDataPrefix(prefix) && IsLineEnd(ending) && text == prefix + "[DONE]" + ending
  }

  predicate Failed(frames: seq<Frame>) {
    |frames| >= 2 && frames[|frames| - 2].Failure?
  }

  /** Data frames, at most one generic error right before the end, and exactly one `[DONE]`, at the end. */
  ghost predicate IsPublicStream(frames: seq<Frame>, model: string) {
    && |frames| >= 1
    && frames[|frames| - 1].Done? && IsDoneText(frames[|frames| - 1].text)
    && forall i :: 0 <= i < |frames| - 1 ==>
         IsGoodData(frames[i], model) || (i == |frames| - 2 && frames[i] == Failure(model))
  }

  // ------------------------------------------------------------- one event

  lemma NullUsageStaysPublic(v: Json, model: string)
    requires IsPublicCompletion(v, model)
    ensures IsPublicCompletion(WithNullUsage(v), model)
    ensures FrameCost(Data("data:", WithNullUsage(v), "\n\n")) == None
  {}

  lemma CostedUsageStaysClean(usage: map<string, Json>, units: nat, policy: CostPolicy)
    requires !Removes(Obj(usage))
    ensures !Removes(Obj(WithCost(usage, units, policy)))
  {
    var costed := WithCost(usage, units, policy);
    forall k | k in costed ensures !Removes(costed[k]) {
      if k != "cost" { assert costed[k] == usage[k]; }
    }
  }

  lemma CostedReadsBack(v: Json, prices: ValidPrices, policy: CostPolicy)
    requires Inject(v, prices, policy).1.Ok?
    ensures IsTerminalUsage(Inject(v, prices, policy).0)
    ensures ReadBack(Inject(v, prices, policy).0) == Some(Inject(v, prices, policy).1.value)
  {
    InjectKeepsOtherFields(v, prices, policy);
    InjectReadsTokens(v, prices, policy);
    hide Inject;
    var costed := Inject(v, prices, policy).0;
    var before, usage := v.fields["usage"], costed.fields["usage"];
    assert Get(usage, "prompt_tokens") == Get(before, "prompt_tokens");
    assert Get(usage, "completion_tokens") == Get(before, "completion_tokens");
    assert Get(costed, "id") == Get(v, "id");
  }

  lemma InjectReadsTokens(v: Json, prices: ValidPrices, policy: CostPolicy)
    requires Inject(v, prices, policy).1.Ok?
    ensures IsTerminalUsage(v) && IsTerminalUsage(Inject(v, prices, policy).0)
    ensures var usage, costed := Get(v, "usage").value, Inject(v, prices, policy).1.value;
            && GetU64(usage, "prompt_tokens") == Some(costed.usage.promptTokens)
            && GetU64(usage, "completion_tokens") == Some(costed.usage.completionTokens)
            && costed.responseId == GetStr(v, "id")
  {
    hide ResolveCost;
  }

  lemma InjectStaysClean(v: Json, prices: ValidPrices, policy: CostPolicy)
    requires !Removes(v) && Inject(v, prices, policy).1.Ok?
    ensures !Removes(Inject(v, prices, policy).0)
  {
    hide ResolveCost, WithCost;
    var (costed, outcome) := Inject(v, prices, policy);
    CostedUsageStaysClean(v.fields["usage"].fields, outcome.value.costUnits, policy);
    forall k | k in costed.fields ensures !Removes(costed.fields[k]) {
      if k != "usage" { assert costed.fields[k] == v.fields[k]; }
    }
  }

  lemma CostedStaysPublic(v: Json, prices: ValidPrices, policy: CostPolicy, model: string)
    requires IsPublicCompletion(v, model) && Inject(v, prices, policy).1.Ok?
    ensures IsPublicCompletion(Inject(v, prices, policy).0, model)
  {
    InjectKeepsOtherFields(v, prices, policy);
    InjectStaysClean(v, prices, policy);
    hide Inject, Removes;
    var costed := Inject(v, prices, policy).0;
    assert Get(costed, "model") == Get(v, "model") && Get(costed, "choices") == Get(v, "choices");
    assert Get(costed, "id") == Get(v, "id") && Get(costed, "object") == Get(v, "object");
  }

  lemma DoneText(prefix: string, ending: string)
    requires IsDataPrefix(prefix) && IsLineEnd(ending)
    ensures IsDoneText(prefix + "[DONE]" + ending)
  {}

  lemma DoneEventIsDoneText(event: string)
    requires IsEvent(event)
    requires |event| >= 2 && IsDoneLine(SplitSeparator(event).0)
    ensures IsDoneText(event)
  {
    SplitRecombines(event);
    var (body, separator) := SplitSeparator(event);
    DataLineRecombines(body);
    DoneText(SingleDataLine(body).value.0, separator);
  }

  /** One good data frame, whose cost, if it shows one, is the usage kept from now on. */
  ghost predicate ForwardsOneFrame(r: Reaction, model: string, costed: Option<CostedUsage>) {
    && |r.output.frames| == 1
    && IsGoodData(r.output.frames[0], model)
    && r.output.completed == None && !r.closes
    && r.costed == Later(costed, FrameCost(r.output.frames[0]))
  }

  lemma NullUsageFrame(v: Json, prefix: string, separator: string, model: string)
    requires IsPublicCompletion(v, model) && IsDataPrefix(prefix) && IsSeparator(separator)
    ensures IsGoodData(Data(prefix, WithNullUsage(v), separator), model)
    ensures FrameCost(Data(prefix, WithNullUsage(v), separator)) == None
  {
    NullUsageStaysPublic(v, model);
  }

  lemma CostedFrame(v: Json, prices: ValidPrices, policy: CostPolicy, prefix: string, separator: string, model: string)
    requires IsPublicCompletion(v, model) && IsDataPrefix(prefix) && IsSeparator(separator)
    requires Inject(v, prices, policy).1.Ok?
    ensures var (costed, outcome) := Inject(v, prices, policy);
            && IsGoodData(Data(prefix, costed, separator), model)
            && FrameCost(Data(prefix, costed, separator)) == Some(outcome.value)
  {
    CostedStaysPublic(v, prices, policy, model);
    CostedReadsBack(v, prices, policy);
  }

  lemma PublicDataShape(config: Config, model: string, costed: Option<CostedUsage>,
                        prefix: string, data: string, separator: string)
    requires PricedPublic(config, model) && IsDataPrefix(prefix) && IsSeparator(separator)
    ensures var r := PublicData(config, model, costed, prefix, data, separator);
            r == Reject(model) || ForwardsOneFrame(r, model, costed)
  {
    hide IsPublicCompletion, Sanitize, Inject, IsPreliminaryUsage, ReadBack;
    match config.parse(data)
    case None =>
    case Some(parsed) =>
      var (clean, rejection) := Sanitize(parsed, model);
      if rejection.None? {
        assert IsPublicCompletion(clean, model) by { SanitizedIsPublic(parsed, model); }
        if IsPreliminaryUsage(clean, config.policy) {
          NullUsageFrame(clean, prefix, separator, model);
        } else if !IsTerminalUsage(clean) {
          assert IsGoodData(Data(prefix, clean, separator), model);
        } else if Inject(clean, config.prices.value, config.policy).1.Ok? {
          CostedFrame(clean, config.prices.value, config.policy, prefix, separator, model);
        }
      }
  }

  /**
   * One event of a priced public stream: a generic error that closes it, the `[DONE]` that closes it with
   * the usage kept so far, or one good data frame.
   */
  lemma PublicReactionShape(config: Config, model: string, costed: Option<CostedUsage>, event: string)
    requires PricedPublic(config, model) && IsEvent(event) && |event| >= 2
    ensures var r := PublicReaction(config, model, costed, event);
            || r == Reject(model)
            || (costed.Some? && r == Reaction(Output([Done(event)], costed), None, true) && IsDoneText(event))
            || ForwardsOneFrame(r, model, costed)
  {
    var (body, separator) := SplitSeparator(event);
    SplitRecombines(event);
    DataLineRecombines(body);
    if SingleDataLine(body).Some? {
      var (prefix, data) := SingleDataLine(body).value;
      if data == "[DONE]" {
        DoneEventIsDoneText(event);
      } else {
        PublicDataShape(config, model, costed, prefix, data, separator);
      }
    }
  }

  lemma FinishShape(config: Config, model: string, costed: Option<CostedUsage>, rest: string)
    requires PricedPublic(config, model)
    ensures var output := FinishWith(config, State(rest, costed, false));
            || output == Output(ErrorFrames(model), None)
            || (costed.Some? && output == Output([Done(rest)], costed) && IsDoneText(rest))
  {
    var line := WithoutLineEnd(rest);
    if IsDoneLine(line) {
      DataLineRecombines(line);
      var ending := rest[|line|..];
      assert rest == line + ending;
      DoneText(SingleDataLine(line).value.0, ending);
    }
  }

  // ------------------------------------------------------- the whole stream

  lemma ErrorStream(model: string)
    ensures IsPublicStream(ErrorFrames(model), model) && Failed(ErrorFrames(model))
  {
    DoneText("data: ", "\n\n");
    assert DONE_FRAME.text == "data: " + "[DONE]" + "\n\n";
  }

  lemma DoneStream(text: string, model: string)
    requires IsDoneText(text)
    ensures IsPublicStream([Done(text)], model) && !Failed([Done(text)]) && LastCost([Done(text)]) == None
  {
  }

  lemma PrependData(frame: Frame, frames: seq<Frame>, model: string)
    requires IsGoodData(frame, model) && IsPublicStream(frames, model)
    ensures IsPublicStream([frame] + frames, model)
    ensures Failed([frame] + frames) <==> Failed(frames)
    ensures LastCost([frame] + frames) == Later(FrameCost(frame), LastCost(frames))
  {
    var all := [frame] + frames;
    assert all[1..] == frames;
    forall i | 0 <= i < |all| - 1
      ensures IsGoodData(all[i], model) || (i == |all| - 2 && all[i] == Failure(model))
    {
      if i > 0 { assert all[i] == frames[i - 1]; }
    }
  }

  lemma {:induction false} ReplayShape(config: Config, model: string, costed: Option<CostedUsage>,
                                       events: seq<string>, rest: string)
    requires PricedPublic(config, model) && AreEvents(events)
    requires forall i :: 0 <= i < |events| ==> IsEvent(events[i])
    ensures var output := Replay(config, costed, events, rest);
            && IsPublicStream(output.frames, model)
            && (if Failed(output.frames) then output.completed == None
                else output.completed.Some? && output.completed == Later(costed, LastCost(output.frames)))
    decreases |events|
  {
    hide IsGoodData, IsDoneText, IsEvent, PublicReaction, FinishWith, IsPublicStream, Failed, LastCost, FrameCost;
    ErrorStream(model);
    if events == [] {
      FinishShape(config, model, costed, rest);
      if IsDoneText(rest) { DoneStream(rest, model); }
    } else {
      assert IsEvent(events[0]);
      if IsDoneText(events[0]) { DoneStream(events[0], model); }
      PublicReactionShape(config, model, costed, events[0]);
      var reaction := React(config, costed, events[0]);
      if !reaction.closes {
        ReplayShape(config, model, reaction.costed, events[1..], rest);
        PrependData(reaction.output.frames[0], Replay(config, reaction.costed, events[1..], rest).frames, model);
        assert reaction.output.frames == [reaction.output.frames[0]];
      }
    }
  }

  /**
   * For every input and every chunking of it: the client gets good data frames and exactly one `[DONE]`, and a
   * usage is completed exactly when no generic error was sent, as the one shown by the last frame with usage.
   */
  lemma PricedSession(config: Config, model: string, chunks: seq<string>)
    requires PricedPublic(config, model)
    ensures var output := Session(config, chunks);
            && IsPublicStream(output.frames, model)
            && (output.completed.Some? <==> !Failed(output.frames))
            && (output.completed.Some? ==> output.completed == LastCost(output.frames))
  {
    SessionIsReplay(config, chunks);
    CutYieldsEvents(Concat(chunks));
    ReplayShape(config, model, None, Cut(Concat(chunks)).0, Cut(Concat(chunks)).1);
  }

  // ------------------------------------------------------ the client's bytes

  function FrameTexts(frames: seq<Frame>): (texts: seq<string>)
    ensures |texts| == |frames|
    ensures forall i :: 0 <= i < |frames| ==> texts[i] == FrameText(frames[i])
  {
    if frames == [] then [] else [FrameText(frames[0])] + FrameTexts(frames[1..])
  }

  lemma {:induction false} TextIsConcat(frames: seq<Frame>)
    ensures Text(frames) == Concat(FrameTexts(frames))
  {
    if frames != [] { TextIsConcat(frames[1..]); }
  }

  function Payload(frame: Frame): Json
    requires frame.Data? || frame.Failure?
  {
    if frame.Data? then frame.value else GenericError(frame.model)
  }

  /** A data or error frame reaches the client as one event whose data is exactly its JSON text. */
  lemma FrameIsOneEvent(frame: Frame, model: string)
    requires IsGoodData(frame, model) || frame == Failure(model)
    ensures IsEvent(FrameText(frame)) && |FrameText(frame)| >= 2
    ensures var line := SingleDataLine(SplitSeparator(FrameText(frame)).0);
            line.Some? && line.value.1 == Print(Payload(frame)) && line.value.1 != "[DONE]"
  {
    var prefix := if frame.Data? then frame.prefix else "data: ";
    var separator := if frame.Data? then frame.separator else "\n\n";
    var json := Print(Payload(frame));
    PrintOneLine(Payload(frame));
    OneLineFrameIsEvent(prefix + json, separator);
    PrefixedDataIsOneLine(prefix, json);
  }

  lemma DoneIsOneEventOrRest(text: string)
    requires IsDoneText(text)
    ensures IsEvent(text) || NextEventEnd(text) == None
    ensures IsEvent(text) ==> |text| >= 2 && IsDoneLine(SplitSeparator(text).0)
    ensures !IsEvent(text) ==> IsDoneLine(WithoutLineEnd(text))
  {
    var prefix, ending :| IsDataPrefix(prefix) && IsLineEnd(ending) && text == prefix + "[DONE]" + ending;
    var line := prefix + "[DONE]";
    PrefixedDataIsOneLine(prefix, "[DONE]");
    if IsSeparator(ending) {
      OneLineFrameIsEvent(line, ending);
    } else {
      BareLineHasNoEnd(line, ending);
      NextEventEndIsLeast(text, |text|);
    }
  }

  lemma BareLineHasNoEnd(line: string, ending: string)
    requires '\n' !in line && '\r' !in line && line != ""
    requires ending == "" || ending == "\n" || ending == "\r\n"
    ensures NextEventEnd(line + ending) == None
    ensures WithoutLineEnd(line + ending) == line
  {
    var text := line + ending;
    assert text[|line|..] == ending && text[..|line|] == line;
    forall i | 0 <= i < |line| ensures text[i] != '\n' && text[i] != '\r' {
      assert text[i] in line;
    }
    NextEventEndIsLeast(text, 0);
    assert EndsWith(text, "\r\n") ==>
        text[|text| - 2..][0] == text[|text| - 2] && text[|text| - 2..][1] == text[|text| - 1];
    assert EndsWith(text, "\n") ==> text[|text| - 1..][0] == text[|text| - 1];
  }

  /** The client reads one event with this frame's JSON, which is not `[DONE]`. */
  ghost predicate CarriesPayload(text: string, frame: Frame) {
    && (frame.Data? || frame.Failure?)
    && IsEvent(text) && |text| >= 2
    && var line := SingleDataLine(SplitSeparator(text).0);
       line.Some? && line.value.1 == Print(Payload(frame)) && line.value.1 != "[DONE]"
  }

  lemma ClientReadsEachFrame(frames: seq<Frame>, model: string, i: nat)
    requires IsPublicStream(frames, model) && i < |frames| - 1
    ensures CarriesPayload(FrameText(frames[i]), frames[i])
  {
    FrameIsOneEvent(frames[i], model);
  }

  /**
   * A client that cuts the output the way the router cuts its input recovers exactly the frames: one event for
   * every frame but the last, and then the one `[DONE]` line, as a last event or as the rest.
   */
  lemma ClientRecoversFrames(frames: seq<Frame>, model: string)
    requires IsPublicStream(frames, model)
    ensures var front, last := FrameTexts(frames[..|frames| - 1]), FrameText(frames[|frames| - 1]);
            var (events, rest) := Cut(Text(frames));
            && IsDoneText(last)
            && ((events == front + [last] && rest == "") || (events == front && rest == last))
  {
    hide IsGoodData, NextEventEnd, IsDoneText, FrameText, Text, Concat, Cut, AreWholeEvents;
    PublicParts(frames, model);
    var front, last := frames[..|frames| - 1], frames[|frames| - 1];
    assert frames == front + [last];
    PartsAreRecovered(frames, front, last);
  }

  lemma PartsAreRecovered(frames: seq<Frame>, front: seq<Frame>, last: Frame)
    requires frames == front + [last]
    requires AreWholeEvents(FrameTexts(front)) && IsDoneText(FrameText(last))
    ensures var (events, rest) := Cut(Text(frames));
            || (events == FrameTexts(front) + [FrameText(last)] && rest == "")
            || (events == FrameTexts(front) && rest == FrameText(last))
  {
    TextParts(front, last);
    CutPublicText(FrameTexts(front), FrameText(last));
  }

  lemma PublicParts(frames: seq<Frame>, model: string)
    requires IsPublicStream(frames, model)
    ensures |frames| >= 1
    ensures IsDoneText(FrameText(frames[|frames| - 1]))
    ensures AreWholeEvents(FrameTexts(frames[..|frames| - 1]))
  {
    hide IsGoodData, NextEventEnd, IsDoneText;
    var front := frames[..|frames| - 1];
    forall i | 0 <= i < |front| ensures IsEvent(FrameTexts(front)[i]) {
      FrameIsOneEvent(front[i], model);
    }
  }

  ghost predicate AreWholeEvents(texts: seq<string>) {
    forall i :: 0 <= i < |texts| ==> IsEvent(texts[i])
  }

  lemma TextParts(front: seq<Frame>, last: Frame)
    ensures FrameTexts(front + [last]) == FrameTexts(front) + [FrameText(last)]
    ensures Text(front + [last]) == Concat(FrameTexts(front)) + FrameText(last)
  {
    TextSplits(front, [last]);
    SingleText(last);
    TextIsConcat(front);
  }

  lemma CutPublicText(front: seq<string>, last: string)
    requires AreWholeEvents(front)
    requires IsDoneText(last)
    ensures Cut(Concat(front) + last) == (front + [last], "") || Cut(Concat(front) + last) == (front, last)
  {
    DoneIsOneEventOrRest(last);
    CutFrontAndLast(front, last);
  }

  lemma CutFrontAndLast(front: seq<string>, last: string)
    requires AreWholeEvents(front)
    requires IsEvent(last) || NextEventEnd(last) == None
    ensures Cut(Concat(front) + last) == if IsEvent(last) then (front + [last], "") else (front, last)
  {
    if IsEvent(last) {
      ConcatSplits(front, [last]);
      assert Concat([last]) == last + Concat([]) == last;
      BoundaryInRange("");
      CutIsUnique(front + [last], "");
      assert Concat(front + [last]) + "" == Concat(front) + last;
    } else {
      CutIsUnique(front, last);
    }
  }
}
