/** The transformer is a projection: fed its own output, in any chunks, it repeats it and completes the same usage. */
module Relay {
  import opened Basics
  import opened Json
  import opened JsonReader
  import opened Pricing
  import opened UsageCost
  import opened Framing
  import opened Transformer
  import opened ChunkIndependence
  import opened StreamShape

  /** The parser reads the JSON of every frame back; `[DONE]` has none. */
  predicate ReadsBack(config: Config, frames: seq<Frame>) {
    forall i :: 0 <= i < |frames| && (frames[i].Data? || frames[i].Failure?) ==>
      config.parse(Print(Payload(frames[i]))) == Some(Payload(frames[i]))
  }

  /** A costed completion is public, is not preliminary and is costed the same again. */
  lemma CostedIsFixed(v: Json, prices: ValidPrices, policy: CostPolicy, model: string)
    requires IsPublicCompletion(v, model) && Inject(v, prices, policy).1.Ok?
    ensures var (costed, outcome) := Inject(v, prices, policy);
            && Sanitize(costed, model) == (costed, None)
            && IsTerminalUsage(costed) && !IsPreliminaryUsage(costed, policy)
            && Inject(costed, prices, policy) == (costed, outcome)
  {
    CostedStaysPublic(v, prices, policy, model);
    CostedReadsBack(v, prices, policy);
    SanitizeFixpoints(Inject(v, prices, policy).0, model);
    InjectIsStable(v, prices, policy);
    InjectKeepsOtherFields(v, prices, policy);
    hide Inject, Sanitize, IsPublicCompletion, ReadBack;
  }

  lemma NullUsageIsFixed(v: Json, policy: CostPolicy, model: string)
    requires IsPublicCompletion(v, model)
    ensures var shown := WithNullUsage(v);
            && Sanitize(shown, model) == (shown, None)
            && !IsTerminalUsage(shown) && !IsPreliminaryUsage(shown, policy)
  {
    NullUsageStaysPublic(v, model);
    SanitizeFixpoints(WithNullUsage(v), model);
  }

  /** A forwarded value, read again, is forwarded again and keeps the same usage. */
  lemma DataIsFixed(config: Config, model: string, costed: Option<CostedUsage>,
                    prefix: string, data: string, separator: string)
    requires PricedPublic(config, model)
    requires IsDataPrefix(prefix) && IsSeparator(separator)
    requires !PublicData(config, model, costed, prefix, data, separator).closes
    ensures var r := PublicData(config, model, costed, prefix, data, separator);
            && |r.output.frames| == 1 && r.output.frames[0].Data?
            && var frame := r.output.frames[0];
               && frame.prefix == prefix && frame.separator == separator && IsGoodData(frame, model)
               && forall text :: config.parse(text) == Some(frame.value) ==>
                    PublicData(config, model, costed, prefix, text, separator) == r
  {
    hide IsPublicCompletion, Sanitize, Inject, IsPreliminaryUsage, IsTerminalUsage, WithNullUsage, IsGoodData;
    var parsed := config.parse(data).value;
    var clean := Sanitize(parsed, model).0;
    assert IsPublicCompletion(clean, model) && clean.Obj? by {
      SanitizedIsPublic(parsed, model);
      PublicIsObject(clean, model);
    }
    PublicDataShape(config, model, costed, prefix, data, separator);
    if IsPreliminaryUsage(clean, config.policy) {
      NullUsageIsFixed(clean, config.policy, model);
    } else if IsTerminalUsage(clean) {
      CostedIsFixed(clean, config.prices.value, config.policy, model);
    } else {
      SanitizeFixpoints(clean, model);
    }
  }

  lemma PublicIsObject(v: Json, model: string)
    requires IsPublicCompletion(v, model)
    ensures v.Obj?
  {}

  /** An event made of a prefix, the JSON of a frame and a separator is taken apart into exactly these. */
  lemma FrameParts(prefix: string, v: Json, separator: string)
    requires IsDataPrefix(prefix) && IsSeparator(separator) && v.Obj?
    ensures var text := prefix + Print(v) + separator;
            && IsEvent(text) && |text| >= 2
            && SplitSeparator(text) == (prefix + Print(v), separator)
            && SingleDataLine(prefix + Print(v)) == Some((prefix, Print(v)))
            && Print(v) != "[DONE]"
  {
    PrintOneLine(v);
    OneLineFrameIsEvent(prefix + Print(v), separator);
    PrefixedDataIsOneLine(prefix, Print(v));
  }

  /** An event that is forwarded is forwarded again when the client sends it back in. */
  lemma EventIsFixed(config: Config, model: string, costed: Option<CostedUsage>, event: string)
    requires PricedPublic(config, model) && IsEvent(event) && |event| >= 2
    requires !PublicReaction(config, model, costed, event).closes
    requires ReadsBack(config, PublicReaction(config, model, costed, event).output.frames)
    ensures var r := PublicReaction(config, model, costed, event);
            && |r.output.frames| == 1
            && var text := FrameText(r.output.frames[0]);
               IsEvent(text) && |text| >= 2 && PublicReaction(config, model, costed, text) == r
  {
    var (body, separator) := SplitSeparator(event);
    SplitRecombines(event);
    DataLineRecombines(body);
    var (prefix, data) := SingleDataLine(body).value;
    DataIsFixed(config, model, costed, prefix, data, separator);
    hide PublicData, IsEvent, Print, SplitSeparator, SingleDataLine;
    var frame := PublicData(config, model, costed, prefix, data, separator).output.frames[0];
    assert config.parse(Print(Payload(frame))) == Some(Payload(frame));
    FrameParts(prefix, frame.value, separator);
  }

  /** The generic error is rejected again. */
  lemma ErrorIsFixed(config: Config, model: string, costed: Option<CostedUsage>)
    requires PricedPublic(config, model) && ReadsBack(config, ErrorFrames(model))
    ensures var text := FrameText(Failure(model));
            IsEvent(text) && |text| >= 2 && PublicReaction(config, model, costed, text) == Reject(model)
  {
    assert config.parse(Print(Payload(ErrorFrames(model)[0]))) == Some(GenericError(model));
    FrameParts("data: ", GenericError(model), "\n\n");
    assert Get(GenericError(model), "error").Some?;
  }

  /** The events and the rest that a stream of frames reads as: only the last frame may lack a separator. */
  ghost function Recut(frames: seq<Frame>): (seq<string>, string)
    requires frames != []
  {
    var text := FrameText(frames[0]);
    if |frames| > 1 then ([text] + Recut(frames[1..]).0, Recut(frames[1..]).1)
    else if IsEvent(text) then ([text], "")
    else ([], text)
  }

  ghost predicate IsRepeated(config: Config, costed: Option<CostedUsage>, output: Output) {
    && output.frames != []
    && AreEvents(Recut(output.frames).0)
    && Replay(config, costed, Recut(output.frames).0, Recut(output.frames).1) == output
  }

  lemma ReplayClosesAt(config: Config, costed: Option<CostedUsage>, event: string, later: seq<string>, rest: string)
    requires |event| >= 2 && AreEvents(later) && React(config, costed, event).closes
    ensures AreEvents([event] + later)
    ensures Replay(config, costed, [event] + later, rest) == React(config, costed, event).output
  {
    hide React;
  }

  lemma ReplayGoesOn(config: Config, costed: Option<CostedUsage>, event: string, later: seq<string>, rest: string)
    requires |event| >= 2 && AreEvents(later) && !React(config, costed, event).closes
    ensures AreEvents([event] + later)
    ensures var r := React(config, costed, event);
            Replay(config, costed, [event] + later, rest) == Join(r.output, Replay(config, r.costed, later, rest))
  {
    hide React, FinishWith;
    assert ([event] + later)[1..] == later;
  }

  lemma DoneFrameIsEvent()
    ensures IsEvent(FrameText(DONE_FRAME)) && |FrameText(DONE_FRAME)| >= 2
  {
    OneLineFrameIsEvent("data: [DONE]", "\n\n");
    assert DONE_FRAME.text == "data: [DONE]" + "\n\n";
    hide IsEvent;
  }

  lemma RecutTwo(first: Frame, last: Frame)
    requires IsEvent(FrameText(last))
    ensures Recut([first, last]) == ([FrameText(first)] + [FrameText(last)], "")
  {
    hide IsEvent, FrameText;
    assert [first, last][1..] == [last];
    assert Recut([last]) == ([FrameText(last)], "");
  }

  lemma ErrorRepeats(config: Config, model: string, costed: Option<CostedUsage>)
    requires PricedPublic(config, model) && ReadsBack(config, ErrorFrames(model))
    ensures IsRepeated(config, costed, Output(ErrorFrames(model), None))
  {
    ErrorIsFixed(config, model, costed);
    DoneFrameIsEvent();
    RecutTwo(Failure(model), DONE_FRAME);
    hide IsEvent, PublicReaction, FrameText, Replay, Recut, ReadsBack;
    ReplayClosesAt(config, costed, FrameText(Failure(model)), [FrameText(DONE_FRAME)], "");
  }

  lemma DoneEventRepeats(config: Config, costed: Option<CostedUsage>, event: string, output: Output)
    requires IsEvent(event) && |event| >= 2
    requires React(config, costed, event).closes && React(config, costed, event).output == output
    requires output.frames == [Done(event)]
    ensures IsRepeated(config, costed, output)
  {
    hide IsEvent, React;
    ReplayClosesAt(config, costed, event, [], "");
    assert [event] + [] == [event];
  }

  lemma RestRepeats(config: Config, costed: Option<CostedUsage>, rest: string, output: Output)
    requires NextEventEnd(rest) == None
    requires FinishWith(config, State(rest, costed, false)) == output && output.frames == [Done(rest)]
    ensures IsRepeated(config, costed, output)
  {
    hide NextEventEnd, FinishWith;
    assert !IsEvent(rest);
  }

  lemma RecutPrepends(frame: Frame, frames: seq<Frame>)
    requires frames != []
    ensures Recut([frame] + frames) == ([FrameText(frame)] + Recut(frames).0, Recut(frames).1)
  {
    hide IsEvent, FrameText;
    assert ([frame] + frames)[1..] == frames;
  }

  lemma FrameThenRepeats(config: Config, model: string, costed: Option<CostedUsage>, event: string, tail: Output)
    requires PricedPublic(config, model) && IsEvent(event) && |event| >= 2
    requires !PublicReaction(config, model, costed, event).closes
    requires ReadsBack(config, PublicReaction(config, model, costed, event).output.frames)
    requires IsRepeated(config, PublicReaction(config, model, costed, event).costed, tail)
    ensures IsRepeated(config, costed, Join(PublicReaction(config, model, costed, event).output, tail))
  {
    EventIsFixed(config, model, costed, event);
    hide PublicReaction, IsEvent, FrameText, Replay, ReadsBack, Recut;
    var r := PublicReaction(config, model, costed, event);
    var frame := r.output.frames[0];
    assert r.output.frames == [frame];
    RecutPrepends(frame, tail.frames);
    var (later, rest) := Recut(tail.frames);
    ReplayGoesOn(config, costed, FrameText(frame), later, rest);
  }

  lemma {:induction false} ReplayRepeats(config: Config, model: string, costed: Option<CostedUsage>,
                                         events: seq<string>, rest: string)
    requires PricedPublic(config, model) && AreEvents(events)
    requires forall i :: 0 <= i < |events| ==> IsEvent(events[i])
    requires NextEventEnd(rest) == None
    requires ReadsBack(config, Replay(config, costed, events, rest).frames)
    ensures IsRepeated(config, costed, Replay(config, costed, events, rest))
    decreases |events|
  {
    hide IsEvent, PublicReaction, FinishWith, IsRepeated, NextEventEnd, IsGoodData, IsDoneText, FrameCost, ReadsBack;
    var output := Replay(config, costed, events, rest);
    if events == [] {
      FinishShape(config, model, costed, rest);
      if output == Output(ErrorFrames(model), None) {
        ErrorRepeats(config, model, costed);
      } else {
        RestRepeats(config, costed, rest, output);
      }
    } else {
      assert IsEvent(events[0]);
      PublicReactionShape(config, model, costed, events[0]);
      var reaction := React(config, costed, events[0]);
      if !reaction.closes {
        var tail := Replay(config, reaction.costed, events[1..], rest);
        ReadsBackParts(config, reaction.output.frames, tail.frames);
        ReplayRepeats(config, model, reaction.costed, events[1..], rest);
        FrameThenRepeats(config, model, costed, events[0], tail);
      } else if reaction == Reject(model) {
        ErrorRepeats(config, model, costed);
      } else {
        DoneEventRepeats(config, costed, events[0], output);
      }
    }
  }

  lemma ReadsBackParts(config: Config, a: seq<Frame>, b: seq<Frame>)
    requires ReadsBack(config, a + b)
    ensures ReadsBack(config, a) && ReadsBack(config, b)
  {
    hide Print;
    var all := a + b;
    assert forall i :: 0 <= i < |a| ==> all[i] == a[i];
    assert forall i :: 0 <= i < |b| ==> all[|a| + i] == b[i];
  }

  /**
   * For every input, every chunking of it, and every chunking of what it was turned into: a second transformer with
   * the same prices and model emits exactly the same frames and completes with exactly the same usage.
   */
  lemma RelayIsTransparent(config: Config, model: string, chunks: seq<string>, again: seq<string>)
    requires PricedPublic(config, model)
    requires ReadsBack(config, Session(config, chunks).frames)
    requires Concat(again) == Text(Session(config, chunks).frames)
    ensures Session(config, again) == Session(config, chunks)
  {
    hide IsEvent, Replay, Session, Text, FrameText, ReadsBack, IsPublicStream, NextEventEnd, Failed, LastCost, Recut;
    var bytes, output := Concat(chunks), Session(config, chunks);
    SessionIsReplay(config, chunks);
    SessionIsReplay(config, again);
    CutYieldsEvents(bytes);
    CutIsLossless(bytes);
    PricedSession(config, model, chunks);
    ReplayRepeats(config, model, None, Cut(bytes).0, Cut(bytes).1);
    OutputIsRecut(output.frames, model);
  }

  /** With a parser that reads every printed value back, the second transformer always repeats the first one. */
  lemma ReadersRelayTransparently(config: Config, model: string, chunks: seq<string>, again: seq<string>)
    requires PricedPublic(config, model) && IsReader(config.parse)
    requires Concat(again) == Text(Session(config, chunks).frames)
    ensures Session(config, again) == Session(config, chunks)
  {
    hide Session, Print, Payload, Text, Concat;
    assert ReadsBack(config, Session(config, chunks).frames);
    RelayIsTransparent(config, model, chunks, again);
  }

  lemma {:induction false} RecutReadsText(frames: seq<Frame>)
    requires frames != []
    requires forall i :: 0 <= i < |frames| - 1 ==> IsEvent(FrameText(frames[i]))
    requires var last := FrameText(frames[|frames| - 1]); IsEvent(last) || NextEventEnd(last) == None
    ensures var (events, rest) := Recut(frames);
            && Concat(events) + rest == Text(frames)
            && AreWholeEvents(events) && NextEventEnd(rest) == None
  {
    hide FrameText, NextEventEnd, IsEvent;
    var text := FrameText(frames[0]);
    if |frames| > 1 {
      RecutReadsText(frames[1..]);
      var (events, rest) := Recut(frames[1..]);
      assert ([text] + events)[1..] == events;
      Regroup(text, Concat(events), rest);
    } else {
      assert frames == [frames[0]];
      SingleText(frames[0]);
      BoundaryInRange("");
      assert Concat([text]) == text + "" == text;
      assert "" + text == text;
    }
  }

  /** A client that cuts the output gets the frames' texts back. */
  lemma OutputIsRecut(frames: seq<Frame>, model: string)
    requires IsPublicStream(frames, model)
    ensures frames != [] && Cut(Text(frames)) == Recut(frames)
  {
    hide IsGoodData, NextEventEnd, IsDoneText, FrameText, Text, Concat, Cut, Recut;
    forall i | 0 <= i < |frames| - 1 ensures IsEvent(FrameText(frames[i])) {
      FrameIsOneEvent(frames[i], model);
    }
    var last := frames[|frames| - 1];
    DoneFrameIsItsText(last);
    DoneIsOneEventOrRest(FrameText(last));
    RecutReadsText(frames);
    CutIsUnique(Recut(frames).0, Recut(frames).1);
  }

  lemma DoneFrameIsItsText(frame: Frame)
    requires frame.Done?
    ensures FrameText(frame) == frame.text
  {}
}
