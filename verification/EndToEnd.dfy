/** What one priced public completion stream amounts to, from upstream polls to the client and the ledger. */
module EndToEnd {
  import opened Basics
  import opened UsageCost
  import opened Framing
  import opened Transformer
  import opened ChunkIndependence
  import opened StreamShape
  import opened Driver

  const I64_BOUND: nat := 0x8000_0000_0000_0000

  datatype LedgerRow = LedgerRow(id: string, promptTokens: nat, completionTokens: nat, costUnits: nat)

  /** Recording writes a row unless the id is missing or a token count does not fit the ledger's BIGINT. */
  function RowFor(costed: CostedUsage): Option<LedgerRow> {
    if costed.responseId.None? then None
    else if costed.usage.promptTokens >= I64_BOUND then None
    else if costed.usage.completionTokens >= I64_BOUND then None
    else Some(LedgerRow(costed.responseId.value, costed.usage.promptTokens, costed.usage.completionTokens,
                        costed.costUnits))
  }

  lemma {:induction false} ShownCostHasId(frames: seq<Frame>, model: string)
    requires forall i :: 0 <= i < |frames| ==> IsGoodData(frames[i], model) || !frames[i].Data?
    requires LastCost(frames).Some?
    ensures LastCost(frames).value.responseId.Some?
  {
    if LastCost(frames[1..]).Some? {
      ShownCostHasId(frames[1..], model);
    } else {
      assert IsGoodData(frames[0], model);
    }
  }

  /** Whatever has been sent before the stream closes is good data. */
  lemma OpenStreamIsGoodData(config: Config, model: string, chunks: seq<string>)
    requires PricedPublic(config, model)
    requires !FeedAll(config, FRESH, chunks).0.closed
    ensures forall frame <- FeedAll(config, FRESH, chunks).1.frames :: IsGoodData(frame, model)
  {
    hide IsGoodData, Feed, FinishWith, LastCost;
    var (last, output) := FeedAll(config, FRESH, chunks);
    var ending := FinishWith(config, last);
    var all := Session(config, chunks);
    PricedSession(config, model, chunks);
    FinishShape(config, model, last.costed, last.pending);
    forall i | 0 <= i < |output.frames| ensures IsGoodData(output.frames[i], model) {
      assert all.frames[i] == output.frames[i];
      if ending.frames != ErrorFrames(model) {
        assert all.completed.Some?;
      }
    }
  }

  /**
   * For every upstream. Without an upstream error in the open stream the client gets exactly the session's frames:
   * good data, at most one generic error, one `[DONE]`; and the one consumption of the generation context records
   * the cost the client was last shown, exactly when no generic error was sent. With such an error the client gets
   * exactly what the chunks before it were turned into, all of it good data, and then the error; nothing is recorded.
   */
  lemma StreamEndToEnd(config: Config, model: string, source: seq<Poll>)
    requires PricedPublic(config, model)
    ensures var (items, last) := Run(config, Start(source));
            var chunks := Upstream(source).0;
            var frames, sent := Session(config, chunks).frames, FeedAll(config, FRESH, chunks).1.frames;
            && EndsWithFault(items, StreamError in items)
            && if StreamError in items then
              && last.log == [Warned]
              && Received(items) == Text(sent) && forall frame <- sent :: IsGoodData(frame, model)
            else
              && Received(items) == Text(frames)
              && IsPublicStream(frames, model)
              && (if Failed(frames) then last.log == [Warned]
                  else && LastCost(frames).Some?
                       && last.log == [Recorded(LastCost(frames).value)])
  {
    hide IsGoodData, IsPublicStream, FinishWith, Drain, Run, LastCost, Failed;
    var chunks := Upstream(source).0;
    RunIsExpected(config, Start(source));
    PricedSession(config, model, chunks);
    var (state, output) := FeedAll(config, FRESH, chunks);
    if Expected(config, FRESH, source).1 {
      OpenStreamIsGoodData(config, model, chunks);
      OpenStreamIsIncomplete(config, chunks);
    } else if state.closed {
      NothingAfterClose(config, state);
      JoinIsAssociative(output, SILENT, SILENT);
    }
  }

  /** Nothing is completed while a public stream is open. */
  lemma OpenStreamIsIncomplete(config: Config, chunks: seq<string>)
    requires config.responseModel.Some? && !FeedAll(config, FRESH, chunks).0.closed
    ensures FeedAll(config, FRESH, chunks).1.completed == None
  {
    hide Drain;
    var bytes := Concat(chunks);
    FreshIsSettled();
    ChunksDoNotMatter(config, FRESH, chunks);
    assert "" + bytes == bytes;
    if Feed(config, FRESH, bytes).1.completed.Some? {
      CompletionCloses(config, FRESH.(pending := bytes));
    }
  }

  /** A recorded stream always has a provider id, so its row is written exactly when both token counts fit. */
  lemma RecordedRow(config: Config, model: string, source: seq<Poll>, costed: CostedUsage)
    requires PricedPublic(config, model)
    requires Run(config, Start(source)).1.log == [Recorded(costed)]
    ensures costed.responseId.Some?
    ensures RowFor(costed)
         == if costed.usage.promptTokens <= 9223372036854775807 && costed.usage.completionTokens <= 9223372036854775807
            then Some(LedgerRow(costed.responseId.value, costed.usage.promptTokens, costed.usage.completionTokens,
                                costed.costUnits))
            else None
  {
    hide Session, IsGoodData, Run, LastCost, IsDoneText, Text, Received, Upstream, Failed;
    StreamEndToEnd(config, model, source);
    ShownCostHasId(Session(config, Upstream(source).0).frames, model);
  }
}
