/**
 * The streaming cost transformer. `React`, `Drain`, `Feed` and `FinishWith` specify it on frames;
 * the class works on bytes in place and is proved to compute exactly their text.
 */
module Transformer {
  import opened Basics
  import opened Json
  import opened Pricing
  import opened UsageCost
  import opened Framing

  /** `parse` stands for the JSON parser; `responseModel` selects public mode. */
  datatype Config = Config(
    parse: string -> Option<Json>,
    prices: Option<ValidPrices>,
    responseModel: Option<string>,
    policy: CostPolicy)

  datatype State = State(pending: string, costed: Option<CostedUsage>, closed: bool)

  const FRESH := State("", None, false)

  datatype Frame =
    | Data(prefix: string, value: Json, separator: string)
    | Failure(model: string)
    | Done(text: string)
    | Raw(text: string)

  datatype Output = Output(frames: seq<Frame>, completed: Option<CostedUsage>)

  const SILENT := Output([], None)

  /** What one event does: its frames, the usage kept for `[DONE]`, and whether the stream closes. */
  datatype Reaction = Reaction(output: Output, costed: Option<CostedUsage>, closes: bool)

  function GenericError(model: string): Json {
    Obj(map["error" := Obj(map[
      "code" := Str("upstream_error"),
      "message" := Str("upstream request failed"),
      "metadata" := Obj(map["model" := Str(model)])])])
  }

  function FrameText(frame: Frame): string {
    match frame
    case Data(prefix, value, separator) => prefix + Print(value) + separator
    case Failure(model) => "data: " + Print(GenericError(model)) + "\n\n"
    case Done(text) => text
    case Raw(text) => text
  }

  function Text(frames: seq<Frame>): string {
    if frames == [] then "" else FrameText(frames[0]) + Text(frames[1..])
  }

  const DONE_FRAME := Done("data: [DONE]\n\n")

  function Later(earlier: Option<CostedUsage>, later: Option<CostedUsage>): Option<CostedUsage> {
    if later.Some? then later else earlier
  }

  function Join(first: Output, second: Output): Output {
    Output(first.frames + second.frames, Later(first.completed, second.completed))
  }

  // ----------------------------------------------------------- specification

  function ErrorFrames(model: string): seq<Frame> {
    [Failure(model), DONE_FRAME]
  }

  function Reject(model: string): Reaction {
    Reaction(Output(ErrorFrames(model), None), None, true)
  }

  predicate IsTerminalUsage(v: Json) {
    Get(v, "usage").Some? && Get(v, "usage").value.Obj?
  }

  predicate AbsentOrNull(v: Json, key: string) {
    Get(v, key).None? || Get(v, key).value.Null?
  }

  predicate IsPreliminaryUsage(v: Json, policy: CostPolicy) {
    && policy.DeepInfraEstimatedCost?
    && Get(v, "choices").Some? && Get(v, "choices").value.Arr? && Get(v, "choices").value.items != []
    && IsTerminalUsage(v)
    && AbsentOrNull(Get(v, "usage").value, "cost")
    && AbsentOrNull(Get(v, "usage").value, "estimated_cost")
  }

  function WithNullUsage(v: Json): Json
    requires v.Obj?
  {
    Obj(v.fields["usage" := Null])
  }

  function PublicData(config: Config, model: string, costed: Option<CostedUsage>,
                      prefix: string, data: string, separator: string): Reaction
  {
    match config.parse(data)
    case None => Reject(model)
    case Some(parsed) =>
      var (clean, rejection) := Sanitize(parsed, model);
      if rejection.Some? then Reject(model)
      else if IsPreliminaryUsage(clean, config.policy) then
        Reaction(Output([Data(prefix, WithNullUsage(clean), separator)], None), costed, false)
      else if IsTerminalUsage(clean) && config.prices.Some? then
        var (value, outcome) := Inject(clean, config.prices.value, config.policy);
        if outcome.Err? then Reject(model)
        else Reaction(Output([Data(prefix, value, separator)], None), Some(outcome.value), false)
      else Reaction(Output([Data(prefix, clean, separator)], None), costed, false)
  }

  function PublicReaction(config: Config, model: string, costed: Option<CostedUsage>, event: string): Reaction
    requires |event| >= 2
  {
    var (body, separator) := SplitSeparator(event);
    match SingleDataLine(body)
    case None => Reject(model)
    case Some((prefix, data)) =>
      if data == "[DONE]" then
        if config.prices.Some? && costed.None? then Reject(model)
        else Reaction(Output([Done(event)], costed), None, true)
      else PublicData(config, model, costed, prefix, data, separator)
  }

  function InternalReaction(config: Config, costed: Option<CostedUsage>, event: string): Reaction
    requires |event| >= 2
  {
    var passedThrough := Reaction(Output([Raw(event)], None), costed, false);
    var (body, separator) := SplitSeparator(event);
    match SingleDataLine(body)
    case None => passedThrough
    case Some((prefix, data)) =>
      if data == "[DONE]" then Reaction(Output([Raw(event)], costed), None, false)
      else match config.parse(data)
        case None => passedThrough
        case Some(parsed) =>
          var clean := Strip(parsed);
          if IsPreliminaryUsage(clean, config.policy) then
            Reaction(Output([Data(prefix, WithNullUsage(clean), separator)], None), costed, false)
          else
            var (value, found) :=
              if config.prices.Some? && IsTerminalUsage(clean) then
                var (injected, outcome) := Inject(clean, config.prices.value, config.policy);
                (injected, if outcome.Ok? then Some(outcome.value) else None)
              else (clean, None);
            if found.None? && !Removes(parsed) then passedThrough
            else Reaction(Output([Data(prefix, value, separator)], None), Later(costed, found), false)
  }

  function React(config: Config, costed: Option<CostedUsage>, event: string): Reaction
    requires |event| >= 2
  {
    match config.responseModel
    case Some(model) => PublicReaction(config, model, costed, event)
    case None => InternalReaction(config, costed, event)
  }

  /** Handles every complete event that is pending, and drops the rest once the stream closes. */
  function Drain(config: Config, state: State): (State, Output)
    decreases |state.pending|
  {
    match NextEventEnd(state.pending)
    case None => (state, SILENT)
    case Some(end) =>
      BoundaryInRange(state.pending);
      var reaction := React(config, state.costed, state.pending[..end]);
      if reaction.closes then (State("", reaction.costed, true), reaction.output)
      else
        var (last, output) := Drain(config, State(state.pending[end..], reaction.costed, false));
        (last, Join(reaction.output, output))
  }

  function Feed(config: Config, state: State, bytes: string): (State, Output) {
    if state.closed then (state, SILENT)
    else Drain(config, state.(pending := state.pending + bytes))
  }

  function WithoutLineEnd(line: string): string {
    if EndsWith(line, "\r\n") then line[..|line| - 2]
    else if EndsWith(line, "\n") then line[..|line| - 1]
    else line
  }

  predicate IsDoneLine(line: string) {
    SingleDataLine(line).Some? && SingleDataLine(line).value.1 == "[DONE]"
  }

  function FinishWith(config: Config, state: State): Output {
    var isDone := IsDoneLine(WithoutLineEnd(state.pending));
    if state.closed then SILENT
    else match config.responseModel
      case Some(model) =>
        if !isDone || (config.prices.Some? && state.costed.None?) then Output(ErrorFrames(model), None)
        else Output([Done(state.pending)], state.costed)
      case None => Output([Raw(state.pending)], if isDone then state.costed else None)
  }

  // ---------------------------------------------------------- implementation

  lemma {:induction false} TextSplits(a: seq<Frame>, b: seq<Frame>)
    ensures Text(a + b) == Text(a) + Text(b)
  {
    if a == [] {
      assert a + b == b;
    } else {
      hide FrameText;
      var all := a + b;
      assert all[0] == a[0] && all[1..] == a[1..] + b;
      TextSplits(a[1..], b);
      Regroup(FrameText(a[0]), Text(a[1..]), Text(b));
    }
  }

  lemma SingleText(frame: Frame)
    ensures Text([frame]) == FrameText(frame)
  {
    assert FrameText(frame) + Text([]) == FrameText(frame);
  }

  lemma JoinIsAssociative(a: Output, b: Output, c: Output)
    ensures Join(Join(a, b), c) == Join(a, Join(b, c))
    ensures Join(a, SILENT) == a == Join(SILENT, a)
  {}

  function GenericErrorEvent(model: string): string {
    "data: " + Print(GenericError(model)) + "\n\ndata: [DONE]\n\n"
  }

  lemma ErrorText(model: string)
    ensures Text(ErrorFrames(model)) == GenericErrorEvent(model)
  {
    var frames := ErrorFrames(model);
    assert frames[1..] == [DONE_FRAME];
    SingleText(DONE_FRAME);
    Regroup("data: " + Print(GenericError(model)), "\n\n", "data: [DONE]\n\n");
    assert "\n\n" + "data: [DONE]\n\n" == "\n\ndata: [DONE]\n\n";
  }

  class UsageCostTransformer {
    const config: Config
    var pending: string
    var costedUsage: Option<CostedUsage>
    var closed: bool

    constructor (config: Config)
      ensures this.config == config && Current() == FRESH
    {
      this.config := config;
      pending, costedUsage, closed := "", None, false;
    }

    ghost function Current(): State
      reads this
    {
      State(pending, costedUsage, closed)
    }

    /** Appends a chunk and handles every event it completes. */
    method Transform(bytes: string) returns (output: string, completed: Option<CostedUsage>)
      modifies this
      ensures var (state, expected) := Feed(config, old(Current()), bytes);
              Current() == state && output == Text(expected.frames) && completed == expected.completed
    {
      if closed {
        return "", None;
      }
      pending := pending + bytes;
      output, completed := "", None;
      ghost var start, done := Current(), SILENT;
      JoinIsAssociative(Drain(config, start).1, SILENT, SILENT);
      var end := NextEventEnd(pending);
      while end.Some?
        invariant end == NextEventEnd(pending) && !closed
        invariant output == Text(done.frames) && completed == done.completed
        invariant Drain(config, start)
               == (Drain(config, Current()).0, Join(done, Drain(config, Current()).1))
        decreases |pending|
      {
        BoundaryInRange(pending);
        ghost var before := Current();
        var event := pending[..end.value];
        pending := pending[end.value..];
        var transformed, eventCompletion := TransformEvent(event);
        ghost var reaction := React(config, before.costed, event);
        TextSplits(done.frames, reaction.output.frames);
        output := output + transformed;
        if eventCompletion.Some? {
          completed := eventCompletion;
        }
        ghost var remaining := Drain(config, State(pending, costedUsage, false)).1;
        JoinIsAssociative(done, reaction.output, remaining);
        done := Join(done, reaction.output);
        if closed {
          pending := "";
          return;
        }
        end := NextEventEnd(pending);
      }
      JoinIsAssociative(done, SILENT, SILENT);
    }

    /** Flushes what is pending when the source ends. */
    method Finish() returns (output: string, completed: Option<CostedUsage>)
      modifies this`costedUsage
      ensures output == Text(FinishWith(config, old(Current())).frames)
      ensures completed == FinishWith(config, old(Current())).completed
    {
      if closed {
        return "", None;
      }
      var finalLine := WithoutLineEnd(pending);
      SingleText(Done(pending));
      SingleText(Raw(pending));
      match config.responseModel {
        case Some(model) =>
          ErrorText(model);
          if IsDoneLine(finalLine) {
            if config.prices.Some? && costedUsage.None? {
              return GenericErrorEvent(model), None;
            }
            output, completed := pending, costedUsage;
            costedUsage := None;
            return;
          }
          costedUsage := None;
          return GenericErrorEvent(model), None;
        case None =>
          output, completed := pending, None;
          if IsDoneLine(finalLine) {
            completed := costedUsage;
            costedUsage := None;
          }
      }
    }

    method TransformEvent(event: string) returns (output: string, completed: Option<CostedUsage>)
      requires |event| >= 2 && !closed
      modifies this`costedUsage, this`closed
      ensures var reaction := React(config, old(costedUsage), event);
              && output == Text(reaction.output.frames) && completed == reaction.output.completed
              && costedUsage == reaction.costed && closed == reaction.closes
    {
      match config.responseModel
      case Some(model) => output, completed := TransformPublicEvent(event, model);
      case None => output, completed := TransformInternalEvent(event);
    }

    method TransformPublicEvent(event: string, model: string)
      returns (output: string, completed: Option<CostedUsage>)
      requires |event| >= 2 && !closed
      modifies this`costedUsage, this`closed
      ensures var reaction := PublicReaction(config, model, old(costedUsage), event);
              && output == Text(reaction.output.frames) && completed == reaction.output.completed
              && costedUsage == reaction.costed && closed == reaction.closes
    {
      var (body, separator) := SplitSeparator(event);
      var line := SingleDataLine(body);
      if line.None? {
        output, completed := CloseWithGenericError(model);
        return;
      }
      var (prefix, data) := line.value;
      if data == "[DONE]" {
        if config.prices.Some? && costedUsage.None? {
          output, completed := CloseWithGenericError(model);
          return;
        }
        closed := true;
        output, completed := event, costedUsage;
        costedUsage := None;
        SingleText(Done(event));
        return;
      }
      var parsed := config.parse(data);
      if parsed.None? {
        output, completed := CloseWithGenericError(model);
        return;
      }
      var (value, rejection) := Sanitize(parsed.value, model);
      if rejection.Some? {
        output, completed := CloseWithGenericError(model);
        return;
      }
      var deferUsage := IsPreliminaryUsage(value, config.policy);
      var found: Option<CostedUsage> := None;
      if deferUsage {
        value := WithNullUsage(value);
      }
      if !deferUsage && IsTerminalUsage(value) && config.prices.Some? {
        var (injected, outcome) := Inject(value, config.prices.value, config.policy);
        if outcome.Err? {
          output, completed := CloseWithGenericError(model);
          return;
        }
        value, found := injected, Some(outcome.value);
      }
      if found.Some? {
        costedUsage := found;
      }
      SingleText(Data(prefix, value, separator));
      return prefix + Print(value) + separator, None;
    }

    method TransformInternalEvent(event: string) returns (output: string, completed: Option<CostedUsage>)
      requires |event| >= 2 && !closed
      modifies this`costedUsage
      ensures var reaction := InternalReaction(config, old(costedUsage), event);
              && output == Text(reaction.output.frames) && completed == reaction.output.completed
              && costedUsage == reaction.costed && !reaction.closes
    {
      SingleText(Raw(event));
      var (body, separator) := SplitSeparator(event);
      var line := SingleDataLine(body);
      if line.None? {
        return event, None;
      }
      var (prefix, data) := line.value;
      if data == "[DONE]" {
        output, completed := event, costedUsage;
        costedUsage := None;
        return;
      }
      var parsed := config.parse(data);
      if parsed.None? {
        return event, None;
      }
      var sanitized, value := Removes(parsed.value), Strip(parsed.value);
      var deferUsage := IsPreliminaryUsage(value, config.policy);
      var found: Option<CostedUsage> := None;
      if deferUsage {
        value := WithNullUsage(value);
      }
      if config.prices.Some? && !deferUsage && IsTerminalUsage(value) {
        var (injected, outcome) := Inject(value, config.prices.value, config.policy);
        value := injected;
        if outcome.Ok? {
          found := Some(outcome.value);
        }
      }
      if found.None? && !sanitized && !deferUsage {
        return event, None;
      }
      if found.Some? {
        costedUsage := found;
      }
      SingleText(Data(prefix, value, separator));
      return prefix + Print(value) + separator, None;
    }

    method CloseWithGenericError(model: string) returns (output: string, completed: Option<CostedUsage>)
      modifies this`costedUsage, this`closed
      ensures closed && costedUsage == None
      ensures output == Text(ErrorFrames(model)) && completed == None
    {
      closed, costedUsage := true, None;
      ErrorText(model);
      return GenericErrorEvent(model), None;
    }
  }
}
