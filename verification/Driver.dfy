/** The downstream body: polls the upstream, runs the transformer and consumes the generation context. */
module Driver {
  import opened Basics
  import opened UsageCost
  import opened Framing
  import opened Transformer
  import opened ChunkIndependence

  /** What the upstream yields until it ends. */
  datatype Poll = Chunk(bytes: string) | Fault

  datatype Item = Bytes(bytes: string) | StreamError

  /** How the generation context was used up. */
  datatype Consumption = Recorded(costed: CostedUsage) | Warned

  /** A transformer that was taken and not put back is None; `log` lists every consumption of the generation context. */
  datatype Stream = Stream(source: seq<Poll>, transformer: Option<State>, generation: bool, log: seq<Consumption>)

  function Start(source: seq<Poll>): Stream {
    Stream(source, Some(FRESH), true, [])
  }

  // ----------------------------------------------------------- specification

  function Take(stream: Stream, how: Consumption): Stream {
    if stream.generation then stream.(generation := false, log := stream.log + [how]) else stream
  }

  function Settle(stream: Stream, completed: Option<CostedUsage>, over: bool): Stream {
    if completed.Some? then Take(stream, Recorded(completed.value))
    else if over then Take(stream, Warned)
    else stream
  }

  function NonEmpty(text: string): Option<Item> {
    if text == "" then None else Some(Bytes(text))
  }

  /** One poll of the upstream. */
  function OnePoll(config: Config, stream: Stream): (Option<Item>, Stream)
    requires stream.transformer.Some?
  {
    var state := stream.transformer.value;
    if stream.source == [] then
      var output := FinishWith(config, state);
      (NonEmpty(Text(output.frames)), Settle(stream.(transformer := None), output.completed, true))
    else
      var rest := stream.source[1..];
      match stream.source[0]
      case Fault => (Some(StreamError), Take(stream.(source := rest, transformer := None), Warned))
      case Chunk(bytes) =>
        var (next, output) := Feed(config, state, bytes);
        (NonEmpty(Text(output.frames)),
         Settle(stream.(source := rest, transformer := if next.closed then None else Some(next)),
                output.completed, next.closed))
  }

  /** The next item of the downstream body, or None at its end. */
  function NextItem(config: Config, stream: Stream): (Option<Item>, Stream)
    decreases |stream.source|, stream.transformer.Some?
  {
    if stream.transformer.None? then (None, stream)
    else
      var (item, next) := OnePoll(config, stream);
      if item.Some? || next.transformer.None? then (item, next) else NextItem(config, next)
  }

  lemma {:induction false} NextItemProgresses(config: Config, stream: Stream)
    requires stream.transformer.Some?
    ensures var next := NextItem(config, stream).1;
            |next.source| < |stream.source| || (|next.source| == |stream.source| && next.transformer.None?)
    decreases |stream.source|
  {
    var (item, next) := OnePoll(config, stream);
    if !(item.Some? || next.transformer.None?) {
      NextItemProgresses(config, next);
    }
  }

  /** Everything the client receives, and the state in the end. */
  function Run(config: Config, stream: Stream): (seq<Item>, Stream)
    decreases |stream.source|, stream.transformer.Some?
  {
    var (item, next) := NextItem(config, stream);
    if item.None? then ([], next)
    else
      assert stream.transformer.Some?;
      NextItemProgresses(config, stream);
      var (items, last) := Run(config, next);
      ([item.value] + items, last)
  }

  // ---------------------------------------------------------- implementation

  lemma DataClosesByRejecting(config: Config, model: string, costed: Option<CostedUsage>,
                              prefix: string, data: string, separator: string)
    ensures PublicData(config, model, costed, prefix, data, separator).closes ==>
              PublicData(config, model, costed, prefix, data, separator) == Reject(model)
  {
    hide Sanitize, Inject, IsPreliminaryUsage, IsTerminalUsage;
  }

  lemma ClosingReactionIsLoud(config: Config, costed: Option<CostedUsage>, event: string)
    requires |event| >= 2 && React(config, costed, event).closes
    ensures Text(React(config, costed, event).output.frames) != ""
  {
    hide PublicData, Sanitize, Inject;
    var model := config.responseModel.value;
    ErrorText(model);
    SingleText(Done(event));
    var (body, separator) := SplitSeparator(event);
    if SingleDataLine(body).Some? {
      var (prefix, data) := SingleDataLine(body).value;
      DataClosesByRejecting(config, model, costed, prefix, data, separator);
    }
  }

  /** The transformer never closes without output. */
  lemma {:induction false} ClosingIsLoud(config: Config, state: State)
    requires !state.closed && Drain(config, state).0.closed
    ensures Text(Drain(config, state).1.frames) != ""
    decreases |state.pending|
  {
    var end := NextEventEnd(state.pending).value;
    BoundaryInRange(state.pending);
    var reaction := React(config, state.costed, state.pending[..end]);
    if reaction.closes {
      ClosingReactionIsLoud(config, state.costed, state.pending[..end]);
    } else {
      var next := State(state.pending[end..], reaction.costed, false);
      ClosingIsLoud(config, next);
      TextSplits(reaction.output.frames, Drain(config, next).1.frames);
    }
  }

  class ResponseStream {
    const config: Config
    var source: seq<Poll>
    var transformer: UsageCostTransformer?
    var generation: bool
    var log: seq<Consumption>

    ghost predicate Valid()
      reads this, transformer
    {
      transformer != null ==> transformer.config == config && !transformer.closed
    }

    ghost function Current(): Stream
      reads this, transformer
    {
      Stream(source, if transformer == null then None else Some(transformer.Current()), generation, log)
    }

    constructor (config: Config, source: seq<Poll>)
      ensures Valid() && fresh(transformer)
      ensures this.config == config && Current() == Start(source)
    {
      this.config, this.source := config, source;
      transformer := new UsageCostTransformer(config);
      generation, log := true, [];
    }

    method ConsumeGeneration(how: Consumption)
      modifies this`generation, this`log
      ensures Current() == Take(old(Current()), how)
    {
      if generation {
        generation, log := false, log + [how];
      }
    }

    /** Polls the upstream until there is something to send; a transformer is present on every poll. */
    method Next() returns (item: Option<Item>)
      requires Valid()
      modifies this`source, this`transformer, this`generation, this`log, transformer
      ensures Valid()
      ensures (item, Current()) == NextItem(config, old(Current()))
    {
      if transformer == null {
        return None;
      }
      var current := transformer;
      while true
        invariant transformer == current && Valid()
        invariant NextItem(config, Current()) == NextItem(config, old(Current()))
        decreases |source|
      {
        transformer := null;
        if source == [] {
          var output, completed := current.Finish();
          if completed.Some? {
            ConsumeGeneration(Recorded(completed.value));
          }
          ConsumeGeneration(Warned);
          return NonEmpty(output);
        }
        var poll := source[0];
        source := source[1..];
        match poll {
          case Fault =>
            ConsumeGeneration(Warned);
            return Some(StreamError);
          case Chunk(bytes) =>
            ghost var before := current.Current();
            var output, completed := current.Transform(bytes);
            if !current.closed {
              transformer := current;
            } else {
              ClosingIsLoud(config, before.(pending := before.pending + bytes));
            }
            if completed.Some? {
              ConsumeGeneration(Recorded(completed.value));
            }
            if current.closed && completed.None? {
              ConsumeGeneration(Warned);
            }
            if output != "" {
              return Some(Bytes(output));
            }
        }
      }
    }
  }

  // --------------------------------------------------------------- all runs

  /** The chunks before the first upstream error, and whether there is one. */
  function Upstream(source: seq<Poll>): (seq<string>, bool) {
    if source == [] then ([], false)
    else match source[0]
      case Fault => ([], true)
      case Chunk(bytes) =>
        var (chunks, faults) := Upstream(source[1..]);
        ([bytes] + chunks, faults)
  }

  function Received(items: seq<Item>): string {
    if items == [] then ""
    else (match items[0] case Bytes(bytes) => bytes case StreamError => "") + Received(items[1..])
  }

  /** Bytes all through, and after them the upstream's error if there was one. */
  predicate EndsWithFault(items: seq<Item>, faulted: bool) {
    && (forall i :: 0 <= i < |items| - 1 ==> items[i].Bytes?)
    && (items != [] ==> (items[|items| - 1] == StreamError <==> faulted))
    && (items == [] ==> !faulted)
  }

  /** What the whole run should amount to: the transformer's output, flushed only when the upstream ended by itself. */
  function Expected(config: Config, state: State, source: seq<Poll>): (Output, bool) {
    var (chunks, faults) := Upstream(source);
    var (last, output) := FeedAll(config, state, chunks);
    if last.closed then (output, false)
    else if faults then (output, true)
    else (Join(output, FinishWith(config, last)), false)
  }

  lemma RunSkips(config: Config, stream: Stream)
    requires stream.transformer.Some?
    ensures var (item, next) := OnePoll(config, stream);
            var (items, last) := Run(config, next);
            Run(config, stream) == (if item.Some? then [item.value] + items else items, last)
  {}

  lemma AfterClose(config: Config, stream: Stream)
    requires stream.transformer.None?
    ensures Run(config, stream) == ([], stream)
  {}

  lemma {:induction false} ClosedStaysClosed(config: Config, state: State, chunks: seq<string>)
    requires state.closed
    ensures FeedAll(config, state, chunks) == (state, SILENT)
    decreases |chunks|
  {
    if chunks != [] {
      ClosedStaysClosed(config, state, chunks[1..]);
      JoinIsAssociative(SILENT, SILENT, SILENT);
    }
  }

  /** In public mode a usage is completed only by the event that closes the stream. */
  lemma {:induction false} CompletionCloses(config: Config, state: State)
    requires config.responseModel.Some? && !state.closed && Drain(config, state).1.completed.Some?
    ensures Drain(config, state).0.closed
    decreases |state.pending|
  {
    var end := NextEventEnd(state.pending).value;
    BoundaryInRange(state.pending);
    var reaction := React(config, state.costed, state.pending[..end]);
    if !reaction.closes {
      CompletionCloses(config, State(state.pending[end..], reaction.costed, false));
    }
  }

  lemma FinishConsumes(config: Config, stream: Stream)
    requires stream.transformer.Some? && stream.source == [] && stream.generation && stream.log == []
    ensures var (items, last) := Run(config, stream);
            var output := FinishWith(config, stream.transformer.value);
            && Received(items) == Text(output.frames) && EndsWithFault(items, false)
            && last.log == [if output.completed.Some? then Recorded(output.completed.value) else Warned]
  {
    RunSkips(config, stream);
    AfterClose(config, OnePoll(config, stream).1);
  }

  /** The client's bytes, where an error stands, and the one use of the generation context. */
  ghost predicate RunsAsExpected(config: Config, stream: Stream)
    requires stream.transformer.Some?
  {
    var (items, last) := Run(config, stream);
    var (output, faulted) := Expected(config, stream.transformer.value, stream.source);
    && Received(items) == Text(output.frames)
    && EndsWithFault(items, faulted)
    && last.log == [if output.completed.Some? then Recorded(output.completed.value) else Warned]
  }

  /**
   * For every upstream, in public mode: the client receives the transformer's output; an upstream error only if the
   * stream had not closed before it, and then as the last item; and the generation context is consumed exactly once.
   */
  lemma {:induction false} RunIsExpected(config: Config, stream: Stream)
    requires config.responseModel.Some?
    requires stream.transformer.Some? && !stream.transformer.value.closed
    requires stream.generation && stream.log == []
    ensures RunsAsExpected(config, stream)
    decreases |stream.source|, 2
  {
    var state := stream.transformer.value;
    var (item, next) := OnePoll(config, stream);
    RunSkips(config, stream);
    if stream.source == [] {
      FinishConsumes(config, stream);
      JoinIsAssociative(FinishWith(config, state), SILENT, SILENT);
    } else {
      match stream.source[0]
      case Fault =>
        AfterClose(config, next);
      case Chunk(bytes) =>
        ChunkStep(config, stream, bytes);
    }
  }

  lemma {:induction false} ChunkStep(config: Config, stream: Stream, bytes: string)
    requires config.responseModel.Some?
    requires stream.transformer.Some? && !stream.transformer.value.closed
    requires stream.generation && stream.log == []
    requires stream.source != [] && stream.source[0] == Chunk(bytes)
    ensures RunsAsExpected(config, stream)
    decreases |stream.source|, 1
  {
    var state := stream.transformer.value;
    var after := Feed(config, state, bytes).0;
    var (chunks, faults) := Upstream(stream.source[1..]);
    assert Upstream(stream.source) == ([bytes] + chunks, faults);
    assert ([bytes] + chunks)[1..] == chunks;
    hide Upstream;
    if after.closed {
      ClosingChunk(config, stream, bytes, chunks, faults);
    } else {
      OpenChunk(config, stream, bytes, chunks, faults);
    }
  }

  lemma BytesFirst(text: string, items: seq<Item>, faulted: bool)
    requires EndsWithFault(items, faulted)
    ensures var all := (if text == "" then [] else [Bytes(text)]) + items;
            EndsWithFault(all, faulted) && Received(all) == text + Received(items)
  {
    if text == "" {
      assert [] + items == items;
    } else {
      var all := [Bytes(text)] + items;
      assert all[1..] == items;
      forall i | 0 <= i < |all| - 1 ensures all[i].Bytes? {
        if i > 0 { assert all[i] == items[i - 1]; }
      }
    }
  }

  lemma ClosingChunk(config: Config, stream: Stream, bytes: string, chunks: seq<string>, faults: bool)
    requires config.responseModel.Some?
    requires stream.transformer.Some? && !stream.transformer.value.closed
    requires stream.generation && stream.log == []
    requires stream.source != [] && stream.source[0] == Chunk(bytes)
    requires Upstream(stream.source) == ([bytes] + chunks, faults)
    requires Feed(config, stream.transformer.value, bytes).0.closed
    ensures RunsAsExpected(config, stream)
  {
    hide Upstream, Feed, Drain, FinishWith;
    var state := stream.transformer.value;
    var (after, first) := Feed(config, state, bytes);
    assert ([bytes] + chunks)[1..] == chunks;
    ClosedStaysClosed(config, after, chunks);
    JoinIsAssociative(first, SILENT, SILENT);
    FeedIsDrain(config, state, bytes);
    ClosingIsLoud(config, state.(pending := state.pending + bytes));
    RunSkips(config, stream);
    AfterClose(config, OnePoll(config, stream).1);
    hide Run;
    BytesFirst(Text(first.frames), [], false);
  }

  lemma FeedIsDrain(config: Config, state: State, bytes: string)
    requires !state.closed
    ensures Feed(config, state, bytes) == Drain(config, state.(pending := state.pending + bytes))
  {}

  lemma {:induction false} OpenChunk(config: Config, stream: Stream, bytes: string, chunks: seq<string>, faults: bool)
    requires config.responseModel.Some?
    requires stream.transformer.Some? && !stream.transformer.value.closed
    requires stream.generation && stream.log == []
    requires stream.source != [] && stream.source[0] == Chunk(bytes)
    requires Upstream(stream.source) == ([bytes] + chunks, faults)
    requires Upstream(stream.source[1..]) == (chunks, faults)
    requires !Feed(config, stream.transformer.value, bytes).0.closed
    ensures RunsAsExpected(config, stream)
    decreases |stream.source|, 0
  {
    hide Upstream, Feed, Drain, FinishWith;
    var state, next := stream.transformer.value, OnePoll(config, stream).1;
    var (after, first) := Feed(config, state, bytes);
    assert ([bytes] + chunks)[1..] == chunks;
    FeedIsDrain(config, state, bytes);
    if first.completed.Some? { CompletionCloses(config, state.(pending := state.pending + bytes)); }
    RunSkips(config, stream);
    hide Run;
    RunIsExpected(config, next);
    var (last, output) := FeedAll(config, after, chunks);
    JoinIsAssociative(first, output, FinishWith(config, last));
    TextSplits(first.frames, Expected(config, after, stream.source[1..]).0.frames);
    BytesFirst(Text(first.frames), Run(config, next).0, Expected(config, after, stream.source[1..]).1);
  }
}
