/** However the source cuts its bytes into chunks, the transformer behaves as on the whole input. */
module ChunkIndependence {
  import opened Basics
  import opened UsageCost
  import opened Framing
  import opened Transformer

  function FeedAll(config: Config, state: State, chunks: seq<string>): (State, Output)
    decreases |chunks|
  {
    if chunks == [] then (state, SILENT)
    else
      var (next, first) := Feed(config, state, chunks[0]);
      var (last, others) := FeedAll(config, next, chunks[1..]);
      (last, Join(first, others))
  }

  /** A whole stream: every chunk, then the end of the source. */
  function Session(config: Config, chunks: seq<string>): Output {
    var (last, output) := FeedAll(config, FRESH, chunks);
    Join(output, FinishWith(config, last))
  }

  /** No complete event is waiting. */
  predicate Settled(state: State) {
    state.closed || NextEventEnd(state.pending).None?
  }

  lemma {:induction false} DrainSettles(config: Config, state: State)
    requires !state.closed
    ensures Settled(Drain(config, state).0)
    decreases |state.pending|
  {
    hide React, NextEventEnd;
    match NextEventEnd(state.pending)
    case None =>
    case Some(end) =>
      BoundaryInRange(state.pending);
      var reaction := React(config, state.costed, state.pending[..end]);
      if !reaction.closes {
        DrainSettles(config, State(state.pending[end..], reaction.costed, false));
      }
  }

  lemma FreshIsSettled()
    ensures Settled(FRESH)
  {
    BoundaryInRange("");
  }

  lemma SettledIsQuiet(config: Config, state: State)
    requires Settled(state)
    ensures Feed(config, state, "") == (state, SILENT)
  {
    assert state.pending + "" == state.pending;
  }

  /** Draining early and feeding the rest later is draining everything at once. */
  lemma {:induction false} DrainThenFeed(config: Config, state: State, more: string)
    requires !state.closed
    ensures var (mid, first) := Drain(config, state);
            var (last, second) := Feed(config, mid, more);
            Drain(config, state.(pending := state.pending + more)) == (last, Join(first, second))
    decreases |state.pending|
  {
    hide React, NextEventEnd;
    var pending, all := state.pending, state.pending + more;
    var (mid, first) := Drain(config, state);
    var (last, second) := Feed(config, mid, more);
    NextEventEndIsStable(pending, more);
    match NextEventEnd(pending)
    case None =>
      JoinIsAssociative(second, SILENT, SILENT);
    case Some(end) =>
      BoundaryInRange(pending);
      BoundaryInRange(all);
      assert all[..end] == pending[..end] && all[end..] == pending[end..] + more;
      var reaction := React(config, state.costed, pending[..end]);
      if reaction.closes {
        JoinIsAssociative(reaction.output, SILENT, SILENT);
      } else {
        var next := State(pending[end..], reaction.costed, false);
        DrainThenFeed(config, next, more);
        JoinIsAssociative(reaction.output, Drain(config, next).1, second);
      }
  }

  lemma FeedTwice(config: Config, state: State, a: string, b: string)
    ensures var (mid, first) := Feed(config, state, a);
            var (last, second) := Feed(config, mid, b);
            Feed(config, state, a + b) == (last, Join(first, second))
    ensures Settled(state) ==> Settled(Feed(config, state, a).0)
  {
    hide React, NextEventEnd, Drain;
    if state.closed {
      JoinIsAssociative(SILENT, SILENT, SILENT);
    } else {
      Regroup(state.pending, a, b);
      DrainThenFeed(config, state.(pending := state.pending + a), b);
      DrainSettles(config, state.(pending := state.pending + a));
    }
  }

  /** Feeding chunks one by one reaches the same state, frames and usage as feeding their concatenation. */
  lemma {:induction false} ChunksDoNotMatter(config: Config, state: State, chunks: seq<string>)
    requires Settled(state)
    ensures FeedAll(config, state, chunks) == Feed(config, state, Concat(chunks))
    decreases |chunks|
  {
    hide React, NextEventEnd, Drain, Feed;
    if chunks == [] {
      SettledIsQuiet(config, state);
    } else {
      FeedTwice(config, state, chunks[0], Concat(chunks[1..]));
      ChunksDoNotMatter(config, Feed(config, state, chunks[0]).0, chunks[1..]);
    }
  }

  // ------------------------------------------- the whole-input specification

  predicate AreEvents(events: seq<string>) {
    forall i :: 0 <= i < |events| ==> |events[i]| >= 2
  }

  /** Handles a list of complete events and an unfinished rest, stopping at the first event that closes the stream. */
  function Replay(config: Config, costed: Option<CostedUsage>, events: seq<string>, rest: string): Output
    requires AreEvents(events)
    decreases |events|
  {
    if events == [] then FinishWith(config, State(rest, costed, false))
    else
      var reaction := React(config, costed, events[0]);
      if reaction.closes then reaction.output
      else Join(reaction.output, Replay(config, reaction.costed, events[1..], rest))
  }

  lemma EventsAreLong(bytes: string)
    ensures AreEvents(Cut(bytes).0)
  {
    CutYieldsEvents(bytes);
    forall i | 0 <= i < |Cut(bytes).0| ensures |Cut(bytes).0[i]| >= 2 {
      BoundaryInRange(Cut(bytes).0[i]);
    }
  }

  lemma NothingAfterClose(config: Config, state: State)
    requires state.closed
    ensures FinishWith(config, state) == SILENT
  {}

  lemma {:induction false} DrainIsReplay(config: Config, costed: Option<CostedUsage>, bytes: string)
    requires AreEvents(Cut(bytes).0)
    ensures var (last, output) := Drain(config, State(bytes, costed, false));
            Join(output, FinishWith(config, last)) == Replay(config, costed, Cut(bytes).0, Cut(bytes).1)
    decreases |bytes|
  {
    hide React, NextEventEnd, FinishWith;
    match NextEventEnd(bytes)
    case None =>
    case Some(end) =>
      CutUnfolds(bytes, end);
      var reaction := React(config, costed, bytes[..end]);
      var events := Cut(bytes[end..]).0;
      assert Cut(bytes).0[0] == bytes[..end] && Cut(bytes).0[1..] == events;
      assert AreEvents(events) by {
        assert forall i :: 0 <= i < |events| ==> events[i] == Cut(bytes).0[i + 1];
      }
      if reaction.closes {
        NothingAfterClose(config, State("", reaction.costed, true));
        JoinIsAssociative(reaction.output, SILENT, SILENT);
      } else {
        var next := State(bytes[end..], reaction.costed, false);
        DrainIsReplay(config, reaction.costed, bytes[end..]);
        var (last, output) := Drain(config, next);
        JoinIsAssociative(reaction.output, output, FinishWith(config, last));
      }
  }

  /** Any chunking of a stream is the replay of the whole input's events. */
  lemma SessionIsReplay(config: Config, chunks: seq<string>)
    ensures AreEvents(Cut(Concat(chunks)).0)
    ensures Session(config, chunks)
         == Replay(config, None, Cut(Concat(chunks)).0, Cut(Concat(chunks)).1)
  {
    hide React, NextEventEnd, Drain, FinishWith, Replay;
    var bytes := Concat(chunks);
    EventsAreLong(bytes);
    FreshIsSettled();
    ChunksDoNotMatter(config, FRESH, chunks);
    assert "" + bytes == bytes;
    DrainIsReplay(config, None, bytes);
  }

  /** Two cuttings of the same bytes are indistinguishable: state, output bytes and recorded usage agree. */
  lemma ChunkIndependence(config: Config, chunks: seq<string>, others: seq<string>)
    requires Concat(chunks) == Concat(others)
    ensures FeedAll(config, FRESH, chunks) == FeedAll(config, FRESH, others)
    ensures Session(config, chunks) == Session(config, others)
    ensures Text(Session(config, chunks).frames) == Text(Session(config, others).frames)
  {
    hide React, NextEventEnd, Drain, FinishWith;
    FreshIsSettled();
    ChunksDoNotMatter(config, FRESH, chunks);
    ChunksDoNotMatter(config, FRESH, others);
  }
}
