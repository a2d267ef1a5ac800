# A verified model of seren-router's cost stream and routing policy

seren-router sits between OpenAI-compatible clients and several inference providers. This project models the two
engines that decide what a client is charged and who serves it, and proves properties of them in Dafny.

* **The cost stream.** `src/sse.rs` cuts the upstream body into server-sent events, whatever the HTTP chunks are,
  removes private JSON fields, writes the exact cost into every event that shows usage, and closes with a generic
  error when anything is wrong. `src/proxy.rs` drives it and uses the generation context up. The modules are `Framing`,
  `Json`, `JsonReader`, `Decimals`, `Pricing`, `UsageCost`, `Transformer`, `ErrorBytes`, `ChunkIndependence`,
  `StreamShape`, `Acceptance`, `InternalStreams`, `Relay`, `Driver` and `EndToEnd`.
* **The routing policy.** `src/policy` keeps a sliding window of selections per (profile, model), weighs candidates by
  smoothed throughput with hysteresis, and plans a whole fallback chain by repeated selection. The modules are
  `ShareTracker`, `Select`, `Ranking`, `Plans`, `ShareSafety`, `Smoothing`, `Requests`, `Routing`, `Decisions` and
  `Traffic`.
* **Smaller machines.** The pre-commit retry chain (`Retry`), the database supervisor (`DatabaseHealth`), and the four
  tables derived from one registry (`Registry`, `Tables`, `TableContents`, `Agreement`, `Naming`, `FailoverOrder`).
  `Journey` follows one request from its routing to its price.

`Basics` and `Lexical` hold an `Option`/`Result` pair and the byte-wise string order.

## How to read it

The code that changes state is imperative here too: `UsageCostTransformer`, `ResponseStream`, `ShareTracker`,
`RoutingPolicy` and `MeasurementStore` are classes, and planning, retrying and table building are loops. Each of their
methods is proved equal to a function of the old state (`Transformer.Feed`, `Driver.NextItem`, `ShareTracker.Slide`,
`Plans.Plan`, `Smoothing.Replay`, `Routing.Respond`, `Routing.Remember`, `Tables.IsRouteTable` and its neighbours), and the
theorems are about those functions:

* `ChunkIndependence.ChunkIndependence`: any two ways of chunking the same bytes give the client the same output and
  the ledger the same usage.
* `StreamShape.PricedSession`, `StreamShape.ClientRecoversFrames`, `EndToEnd.StreamEndToEnd`: for every upstream, the
  client reads whole one-line public frames and exactly one `[DONE]`, and what is recorded once, or not at all, is the
  cost the client was last shown.
* `Acceptance.StreamSucceedsExactly`, `Acceptance.ShownExactly`: which byte streams escape the generic error, both
  directions, and what of each event a client is shown and charged, read off the upstream's own JSON.
  `InternalStreams.InternalStream` does the same for streams without a public model.
* `Relay.ReadersRelayTransparently`: fed its own output, in any chunks, the transformer repeats it and completes the
  same usage, with any parser that reads printed values back. `JsonReader.PrintReadsBack` proves that one does.
* `Plans.PlanIsOrderedPermutation`, `Retry.DecisionContactsEachProviderOnce`: every plan, under every preference and
  every random draw, is an ordered permutation of exactly the candidates that qualify.
* `ShareSafety.RunKeepsQuotaIffAllowed`, `ShareSafety.DefaultRunKeepsQuota`, `ShareSafety.DefaultSelectionProgresses`:
  the share cap over whole runs, with its exact condition, and progress by counting. `Traffic.DefaultTrafficKeepsQuota`
  lifts it to whole runs of requests over every profile and model.
* `Decisions.AnswerFollowsRequest`, `Decisions.FaultIsAnswered`: what the router answers, for every request, read off the
  request's JSON: the whole chain and its order, or the first fault.
* `Smoothing.MeasurementsAreWeightedSums`, `DatabaseHealth.NoLostWakeUp`, `DatabaseHealth.RecoveryIsInevitable`,
  `Agreement.TablesAgree`, and `Journey.RequestReachesItsPrice`, which joins routing, retrying, the tables and prices.

What is accepted, shown, charged, answered and retried is stated in terms of the inputs: with field names, products,
thresholds and status codes written out, and not through the functions that compute it.

Four statements one might expect are false. Each has a concrete input on which it fails, and its exact condition:

* **The share cap** fails in runs under every preference but the default one, which record selections that the tracker
  would refuse (`ShareSafety.OtherRunsExceedQuota`). It holds throughout a run exactly when every selection was
  allowed (`ShareSafety.RunKeepsQuotaIffAllowed`), and so whenever all selections in a window were default ones.
* **The price of a served model** can be missed, or be another model's, in a valid, priced and routed registry
  (`Naming.PriceIsMissed`, `Naming.OtherPriceIsCharged`). The lookup succeeds exactly when the slug does not start with
  the provider's id and a slash, or the provider also serves the rest of the slug; and it finds the model's own prices
  exactly when, in the second case, that other model has the same (`Naming.RequestFindsItsPrice`).
* **A model string** need not name one provider's route alone (`Naming.RoutesShareAName`). It does exactly when no other
  provider's id and slug overlap with it, and always when ids hold no slash (`Naming.NameIsItsOwnExactly`,
  `Naming.PlainIdsDoNotClash`).
* **The sidecar's failover order** need not be the router's (`FailoverOrder.OrdersDiffer`). It is exactly when the
  registry lists the providers of equal priority that serve the model by id (`FailoverOrder.OrdersAgreeExactly`).

`docs/02-routing.md:91` speaks of one retry with the next provider; `src/proxy.rs:425-445` walks the whole chain. The
model follows the code.

Prices, thresholds and measurements are exact reals; a normalized cost is a whole number of 10^-10 USD. Bytes are the
characters of a `string`, and every theorem holds for all strings. The JSON parser is a function given with the
configuration, and a random draw is any number from 0 to below 1.

## Model

| member | source | states |
|---|---|---|
| Framing.NextEventEndIsLeast | src/sse.rs:281-291 | the boundary found is the least prefix ending in either separator, and none is found exactly when there is none |
| Framing.FindsFirstOccurrence | src/sse.rs:312-316 | the subslice search returns the first occurrence, or nothing exactly when the needle does not occur |
| Framing.NextEventEndIsStable | src/sse.rs:68-73 | more bytes never move a boundary that was found, and a new one lies beyond the bytes that had none |
| Framing.CutIsLossless | src/sse.rs:72-83 | the drained events and the rest concatenate to the bytes received, and the rest holds no further event |
| Framing.CutIsUnique | src/sse.rs:72-83 | a list of events followed by an unfinished rest is cut back into exactly itself: framing is a round trip |
| Framing.SplitRecombines | src/sse.rs:293-299 | an event is its body and one of the two separators |
| Framing.DataLineRecombines | src/sse.rs:301-310 | exactly the one-line bodies starting with `data:` are data lines, and prefix and data recombine to the body |
| Framing.PrefixedDataIsOneLine | src/sse.rs:301-310 | a data prefix followed by one line of data is read back as that prefix and that data |
| Framing.OneLineFrameIsEvent | src/sse.rs:172-177 | a line and a separator form exactly one event, split back into the two |
| JsonReader.PrintReadsBack | src/sse.rs:142-168 | compact JSON is unambiguous: a reader gets every value back from its own text, so different values never print alike |
| JsonReader.NumberReadsBack | src/usage_cost.rs:150-152 | a printed number is read back digit for digit, with its places and exponent |
| Json.PrintOneLine | src/sse.rs:166-168 | serialized JSON never holds a raw CR or LF, and an object starts with a brace |
| Json.ReadsField | src/usage_cost.rs:107-140 | a field is read exactly as it stands, and as a count exactly when it is a plain integer literal below 2^64 |
| UsageCost.StripKeepsPublicPaths | src/usage_cost.rs:242-260 | after stripping, a path leads where it led before (stripped) unless it goes through the private key, and then nowhere |
| UsageCost.RemovesIffChanged | src/usage_cost.rs:242-260 | the function reports a removal exactly when it changed the value |
| UsageCost.StripIsIdempotent | src/usage_cost.rs:242-260 | a stripped value holds nothing more to strip and is left alone |
| UsageCost.SanitizeAcceptsExactly | src/usage_cost.rs:191-222 | a response is accepted exactly when it is an object with a non-empty string id, one of the three object kinds, an array of choices, and no error but null; an error in it is reported before its shape |
| UsageCost.SanitizedIsPublic | src/usage_cost.rs:191-240 | an accepted response keeps exactly its eight public fields, each stripped, under the canonical model; a rejected one is untouched |
| UsageCost.SanitizeFixpoints | src/usage_cost.rs:191-240 | the responses accepted unchanged are exactly the public completions, so sanitizing twice is sanitizing once |
| UsageCost.ReportedCostMeaning | src/usage_cost.rs:172-189 | a cost field reports nothing exactly when absent or null, and otherwise the ledger amount that its sign, digits, scale and exponent name in integers |
| Decimals.PlainValue | src/usage_cost.rs:182-188 | a literal without an exponent, times ten to the number of its places, is its digits |
| Decimals.MovedValue | src/usage_cost.rs:182-188 | an exponent k moves the point by k places, and -k by as many back |
| Decimals.SignedValue | src/usage_cost.rs:182-188 | a literal is negative exactly when it has a minus sign and a digit that is not zero |
| Decimals.NamesUnitsExactly | src/usage_cost.rs:172-189 | a number is normalized to exactly the ledger amount its digits, scale and exponent name, stated in integers |
| UsageCost.InjectedCostSource | src/usage_cost.rs:107-161 | exactly which cost is injected: the amount that `usage.cost` names, then the DeepInfra estimate, then the registry rates on the counts in the named fields |
| UsageCost.InjectsExactly | src/usage_cost.rs:107-161 | injection succeeds exactly when both counts are there and a cost is reported, or none is and the cached count suffices for the registry rates |
| UsageCost.StrippedCostsAlike | src/usage_cost.rs:107-161 | stripping changes neither what a completion costs nor whether it can be costed |
| UsageCost.InjectIsStable | src/usage_cost.rs:107-161 | injecting again gives the same cost and the same JSON; a failed injection leaves the JSON as it was |
| UsageCost.InjectKeepsOtherFields | src/usage_cost.rs:145-155 | injection touches only `usage.cost` and, for DeepInfra, `usage.estimated_cost` |
| UsageCost.CanonicalSlugMeaning | src/usage_cost.rs:262-268 | a provider-qualified model finds its slug; a bare slug finds itself exactly when it does not start with the provider's id and a slash |
| Pricing.NormalizedIsNearest | src/pricing.rs:148-157 | normalizing rejects exactly negative costs and otherwise gives the nearest multiple of 10^-10, the larger on a tie |
| Pricing.NormalizingIsIdempotent | src/pricing.rs:148-162 | a cost of ten decimal places is left alone |
| Pricing.CostIsNearestToExact | src/pricing.rs:122-162 | the cost is the ledger amount nearest to the products of tokens and prices, written out, over 10^6, and is missing exactly when a cache price meets an unknown or impossible cached count |
| Pricing.CostIsMonotone | src/pricing.rs:122-146 | at a fixed cached count, more prompt or completion tokens never cost less |
| Pricing.CachingNeverRaisesCost | src/pricing.rs:129-146 | with a discounted cache price, more cached tokens never cost more, none gives the uncached formula, and the uncached cost is an upper bound |
| Transformer.UsageCostTransformer.Transform | src/sse.rs:64-86 | the draining loop computes exactly the specified state, output bytes and completed usage |
| Transformer.UsageCostTransformer.Finish | src/sse.rs:88-112 | flushing emits and completes exactly what the specification says |
| Transformer.UsageCostTransformer.TransformEvent | src/sse.rs:114-120 | one event reacts as its mode specifies |
| Transformer.UsageCostTransformer.TransformPublicEvent | src/sse.rs:122-178 | the public reaction: output, kept usage and closing |
| Transformer.UsageCostTransformer.TransformInternalEvent | src/sse.rs:180-224 | the internal reaction, which passes through what it does not change and never closes |
| Transformer.UsageCostTransformer.CloseWithGenericError | src/sse.rs:226-253 | closes, forgets the usage, and emits the error frame and one `[DONE]` |
| ErrorBytes.GenericErrorText | src/sse.rs:233-253 | the generic error and its `[DONE]`, byte for byte, keys in byte order and the model escaped |
| ChunkIndependence.ChunkIndependence | src/sse.rs:64-112 | two chunkings of the same bytes (empty chunks included) yield the same frames, completion, closing and kept usage, in both modes |
| ChunkIndependence.ChunksDoNotMatter | src/sse.rs:64-86 | feeding chunks one by one is feeding their concatenation, from every state a stream can be in |
| ChunkIndependence.SessionIsReplay | src/sse.rs:64-112 | a whole session is a fold over the events of the whole input, ended by the first event that closes |
| StreamShape.PublicReactionShape | src/sse.rs:122-178 | every event of a priced public stream rejects, ends with `[DONE]`, or forwards one good data frame whose shown cost is the kept one |
| StreamShape.CostedReadsBack | src/usage_cost.rs:141-161 | a client reads the id, tokens and ten-place cost of the completed usage back out of the emitted event |
| StreamShape.PricedSession | src/sse.rs:64-112 | for every input and chunking: good data, one `[DONE]` at the end, and a usage is completed exactly when no generic error was sent, as last shown |
| StreamShape.LastCostIsLast | src/sse.rs:169-171 | the cost that counts is that of the last frame that shows usage |
| StreamShape.ClientReadsEachFrame | src/sse.rs:172-177 | each frame before the `[DONE]` reaches the client as one event carrying exactly its JSON |
| StreamShape.ClientRecoversFrames | src/sse.rs:172-177 | cutting the emitted bytes gives back exactly the frames, and then the one `[DONE]` line |
| Acceptance.EventOutcome | src/sse.rs:122-178 | exactly which event ends a stream, which is forwarded, and which rejects it, read off the event and its JSON |
| Acceptance.StreamSucceedsExactly | src/sse.rs:64-178 | no generic error is sent exactly when a `[DONE]` comes, every event before it is an error-free completion object whose final usage can be costed, and one of them shows final usage |
| Acceptance.StreamShowsItsEvents | src/sse.rs:64-178 | for every input and chunking, the data frames show the events one for one and in order, each sanitized, with preliminary usage null and final usage costed; a stream that succeeds at event k delivers k of them |
| Acceptance.ShownExactly | src/sse.rs:122-178 | field by field, the JSON shown for an accepted event: the public fields stripped, the canonical model, preliminary usage null, final usage under the cost that the upstream JSON names |
| Acceptance.EmbeddedErrorFails | src/sse.rs:141-148 | in every session, an error that is not null in an event before the first `[DONE]` brings the generic error, and nothing is completed |
| Acceptance.PreliminaryUsageIsNeverShown | src/sse.rs:145-148 | in every session no frame shows preliminary usage; the frame of an event that carries it shows null, counts for no cost and keeps every other public field |
| InternalStreams.EventIsRelayed | src/sse.rs:180-224 | an internal event is relayed byte for byte unless it holds a private key, preliminary usage or usage that can be costed, and then changed exactly as stated |
| InternalStreams.EventIsCounted | src/sse.rs:180-224 | exactly which internal event keeps a cost, which, and that the next `[DONE]` completes and forgets it |
| InternalStreams.InternalStream | src/sse.rs:64-112 | for every input and chunking, an internal stream relays every event in order and the rest as it came, and completes the last cost that a `[DONE]` follows |
| InternalStreams.PlainStreamIsUntouched | src/sse.rs:180-224 | an internal stream with nothing to strip, defer or cost comes out byte for byte |
| Relay.EventIsFixed | src/sse.rs:122-178 | a forwarded event, fed back in, is forwarded unchanged and keeps the same usage |
| Relay.RelayIsTransparent | src/sse.rs:64-178 | for every input and every pair of chunkings, a second transformer repeats the output of the first, frame by frame, and completes the same usage |
| Relay.ReadersRelayTransparently | src/sse.rs:64-178 | the same for every parser that reads printed values back, with nothing assumed of the stream |
| Driver.ResponseStream.Next | src/proxy.rs:544-615 | each poll yields the specified item and state, and a transformer is present at every poll |
| Driver.ResponseStream.ConsumeGeneration | src/proxy.rs:565-577 | the generation context is taken at most once |
| Driver.ClosingIsLoud | src/proxy.rs:562-584 | whatever closes a public stream also emits something, so no poll follows a close |
| Driver.RunIsExpected | src/proxy.rs:534-616 | for every upstream the client receives the transformer's output, an upstream error at most once and last, and the context is consumed exactly once: recorded if a usage completed, warned otherwise |
| EndToEnd.StreamEndToEnd | src/proxy.rs:534-616 | polls to client and ledger: what is recorded is the cost last shown, exactly when neither a generic nor an upstream error ended the stream; before an upstream error the client gets exactly the output of the chunks so far |
| EndToEnd.OpenStreamIsIncomplete | src/proxy.rs:585-590 | nothing is completed while a public stream is open, so an upstream error is always warned |
| EndToEnd.RecordedRow | src/proxy.rs:716-730 | a recorded priced stream always has a response id; its row holds the id, both counts and the cost, and is written exactly when both counts are below 2^63 |
| ShareTracker.ShareTracker.Record | src/policy/select.rs:155-174 | recording slides the window and keeps the count index exactly the multiset of the history |
| ShareTracker.ShareTracker.constructor | src/policy/select.rs:143-153 | a new tracker is empty and its index exact |
| ShareTracker.IncumbentMeaning | src/policy/select.rs:202-210 | the incumbent has the largest count and, among those, was selected last; only an empty window has none |
| ShareTracker.CountIsExact | src/policy/select.rs:212-214 | the cached count is the number of entries in the history |
| Select.MaxWeight | src/policy/select.rs:331-344 | the maximum that normalizes weights bounds every one of them and, unless zero, is one of them |
| Select.Cheapest | src/policy/select.rs:300-306 | the cheapest price is attained and is a lower bound |
| Lexical.BeforeDiverges | src/policy/select.rs:392-396 | a string is before another exactly when it is a proper prefix of it or has the smaller byte where they first differ |
| Ranking.StrictIsTotal | src/policy/select.rs:350-396 | the price, throughput and latency comparators order distinct providers totally: unmeasured last, ties by priority and then by id |
| Ranking.StrictIsTransitive | src/policy/select.rs:350-396 | those orders are transitive |
| Ranking.PickLandsInsideWeight | src/policy/select.rs:331-344 | the pick is the index whose stretch of the cumulative sums holds the target |
| Ranking.PickIsPositive | src/policy/select.rs:331-344 | a pick succeeds exactly when some weight is positive and never lands on weight zero |
| Ranking.PickIsProportional | src/policy/select.rs:331-344 | normalizing does not bias the pick: the picked candidate's stretch of the cumulative given weights holds the draw's share of their total |
| Ranking.DefaultSharesByThroughput | src/policy/select.rs:243-287 | with a measured eligible provider, the default pick holds the draw's share of the throughputs, changed only within the hysteresis band of a measured eligible incumbent |
| Ranking.FirstSharesFollowThroughput | src/policy/select.rs:243-287 | without a measured eligible incumbent the pick holds the draw's share of the measured throughputs alone |
| Ranking.BalancedSharesByPrice | src/policy/select.rs:289-318 | the balanced pick is even among free providers, and otherwise proportional to weights that, times the squared price, are equal for all |
| Ranking.HysteresisHolds | src/policy/select.rs:266-283 | a challenger outweighs a measured incumbent exactly when faster by more than the band, ties it within the band, and otherwise counts at its own speed |
| Ranking.MinByLeads | src/policy/select.rs:233-240 | the minimum by a comparator leads all others of distinct id |
| Ranking.MaxByLeads | src/policy/select.rs:236-238 | the maximum by a comparator leads all others of distinct id |
| Ranking.DefaultSelection | src/policy/select.rs:243-287 | the default pick qualifies and puts measured providers first and the rest by priority |
| Ranking.BalancedSelection | src/policy/select.rs:289-318 | the balanced pick is free whenever a free provider is healthy, and exists whenever any is healthy |
| Ranking.SelectionLeads | src/policy/select.rs:223-241 | under every preference and draw the selected candidate may stand before every other that qualifies; none is selected only when none qualifies |
| Plans.PlanFallbacks | src/policy/routing.rs:187-206 | the planning loop computes the repeated selection and ends |
| Plans.PlanIsOrderedPermutation | src/policy/routing.rs:187-206 | a plan is a duplicate-free permutation of exactly those that qualify, ordered by the preference |
| Plans.StrictPlanIsCanonical | src/policy/routing.rs:187-206 | a strict plan depends on the set of healthy candidates alone: not on their order, the draws or the window |
| ShareSafety.RecordKeepsQuotaIffAllowed | src/policy/select.rs:155-200 | a selection keeps the cap, growing or sliding, exactly when the tracker allowed it |
| ShareSafety.RunKeepsQuotaIffAllowed | src/policy/select.rs:155-200 | over any run of selections, the cap holds throughout exactly when each was allowed |
| ShareSafety.AllowedExactly | src/policy/select.rs:184-200 | the next selection is allowed exactly when the provider's entries in the window after it stay less than one over the maximum share of that window's length |
| ShareSafety.QuotaExactly | src/policy/select.rs:184-200 | the quota is the least whole number not below the share of the length |
| ShareSafety.DefaultPicksEligible | src/policy/select.rs:249-286 | a default selection is healthy, affordable and allowed, and is missing only when no candidate is |
| ShareSafety.DefaultRunKeepsQuota | src/policy/select.rs:243-287 | every run of default requests keeps every provider within its quota at every step |
| ShareSafety.FullWindowShareIsExact | src/policy/select.rs:176-182 | in a full window of suitable size the share itself stays within the maximum |
| ShareSafety.OtherRunsExceedQuota | src/policy/routing.rs:207 | under every preference but the default one, a concrete run records a selection over the quota, whatever is drawn |
| ShareSafety.SomeProviderIsAllowed | src/policy/select.rs:184-200 | distinct providers with a whole window of quota between them cannot all be refused |
| ShareSafety.DefaultSelectionProgresses | src/policy/select.rs:249-286 | in any window, enough healthy and affordable providers always leave one to select |
| Smoothing.MeasurementStore.ObserveFor | src/policy/measurements.rs:58-97 | an observation replaces the value of its own key as specified, or is refused when its duration is zero |
| Smoothing.ReplayAppends | src/policy/measurements.rs:58-97 | successive observations replay the whole log |
| Smoothing.ReplayIsPerKey | src/policy/measurements.rs:78-94 | a stored value depends only on the samples of its own (profile, provider, model) |
| Smoothing.MeasurementsAreWeightedSums | src/policy/measurements.rs:58-121 | after any log, throughput and latency are the closed-form weighted sums, with 0.2 and 0.8, of the key's own token rates and first-token delays over streams that took any time |
| Smoothing.MeasurementsStayBetween | src/policy/measurements.rs:58-121 | and lies between any bounds on them |
| Smoothing.SmoothedIsWeightedSum | src/policy/measurements.rs:119-121 | folding the smoothing step gives weights 0.8^(n-1), then 0.2 * 0.8^(n-i) |
| Requests.PreparesExactly | src/policy/preference.rs:51-86 | exactly the requests that are read, and how: the suffixes, the sorts, which win over them, `stream` and `top_p` |
| Requests.RejectsExactly | src/policy/routing.rs:132-147 | exactly why a request is refused before routing, in the order of the checks |
| Requests.RewriteKeepsTheRest | src/policy/routing.rs:227-241 | the forwarded request has the chosen model, no routing sort, no emptied provider object, and every other field as sent |
| Routing.CandidatesAreCompatible | src/policy/routing.rs:148-167 | exactly the routes whose endpoints, streaming and `top_p` bounds admit the request become candidates, with the sum of their prices, their priority and measurements |
| Routing.CandidatesAreDistinct | src/policy/routing.rs:148-167 | distinct routes give distinct candidates |
| Routing.RoutingPolicy.RouteForEndpoint | src/policy/routing.rs:132-220 | the decision, the request as it is left in place (also when rejected), and every window: the selection is remembered in its own, and a rejection in none |
| Routing.RoutingPolicy.PlanAndRecord | src/policy/routing.rs:171-208 | the plan is made from the window before the selection is recorded in it |
| Routing.RoutingPolicy.TakeTracker | src/policy/routing.rs:172-175 | a key's tracker is moved out of the table, or a new one is made |
| Decisions.AnswerFollowsRequest | src/policy/routing.rs:132-220 | a readable request is answered with the chain of every provider that may serve it, ordered by the preference it names, and refused exactly when the model is unknown or no provider may |
| Decisions.FaultIsAnswered | src/policy/routing.rs:243-281 | any other request is answered with the first of its faults |
| Decisions.SuffixesAndSorts | src/policy/preference.rs:51-86 | `:nitro` asks for throughput and `:floor` for price, and a valid sort wins over both |
| Routing.ModelOfIsInjective | src/policy/routing.rs:204-211 | model strings of different providers differ |
| Traffic.DefaultCallIsAllowed | src/policy/routing.rs:171-208 | the provider that a default request selects is allowed by the window of its key as it stands before recording |
| Traffic.WindowsAreIndependent | src/policy/routing.rs:171-208 | over any run of requests, a window remembers exactly the selections for its own (profile, model) |
| Traffic.DefaultTrafficKeepsQuota | src/policy/routing.rs:171-208 | over any run of requests on any keys, a window whose selections are all default ones keeps every provider within the quota at every step |
| Traffic.HistoriesDecide | src/policy/routing.rs:171-208 | what a run answers and remembers depends on the histories alone |
| Retry.SendSelectedThenFallback | src/proxy.rs:417-447 | a prefix of the chain is sent; every answer but the last was a transport error, 429 or 5xx; it stops only at another answer or the end, and returns the last |
| Retry.DecisionContactsEachProviderOnce | src/policy/routing.rs:187-219 | a decision's chain is the ordered plan, each provider once, and only the default preference leaves a compatible route out |
| DatabaseHealth.NoLostWakeUp | src/db.rs:112-150 | in every interleaving, a supervisor parked while the database is not ready is about to be notified |
| DatabaseHealth.QuietStepsApproachRecovery | src/db.rs:145-149 | while the database stays failed, some step is enabled and each brings recovery closer |
| DatabaseHealth.RecoveryIsInevitable | src/db.rs:112-150 | while the database stays failed, however steps are scheduled and however many failures are reported meanwhile, a recovery attempt is reached within a bounded number of steps |
| DatabaseHealth.SleepsAreExponential | src/db.rs:206-237 | in every run the k-th sleep of a row of failures is initial * 2^k capped at the maximum, from the first on exactly when the initial is within it |
| DatabaseHealth.NotificationsAreSpentOnce | src/db.rs:120-150 | in every run each wake-up of the supervisor spends a notification of its own |
| DatabaseHealth.OutcomesAreReported | src/db.rs:206-237 | in every run the status is the last one reported, and every attempt is reported, and every failure notified and slept on, exactly once |
| Tables.BuildRoutes | src/policy/routing.rs:76-111 | the route table of a registry, or an error exactly when some price is negative |
| Tables.BuildPrices | src/pricing.rs:56-113 | a price table exists exactly when the registry validates, no price is negative and no provider repeats a slug; it holds each model's prices and nothing else |
| Tables.PriceList | src/pricing.rs:65-110 | the prices of one provider, or an error exactly when one is negative or a slug repeats |
| Tables.BuildSidecar | src/sidecar_config.rs:51-92 | one named route per mapping, and per profile and slug its targets by priority |
| Tables.TargetsAreByPriority | src/sidecar_config.rs:80-84 | targets stand by priority, and targets of equal priority in registry order |
| Tables.SortIsStable | src/policy/routing.rs:105-111 | the sort orders its input and keeps ties in their order |
| Tables.BuildCatalog | src/catalog.rs:55-123 | the catalog lists exactly the served slugs, each at a cheapest row, and all endpoints of each in order |
| Tables.SortCommutes | src/catalog.rs:87-92 | sorting commutes with any conversion under which elements compare alike |
| Tables.CheaperIsTransitive | src/catalog.rs:149-160 | the catalog's price order is transitive |
| TableContents.RoutesAreOffers | src/policy/routing.rs:76-111 | the routes of a key are exactly the mappings that enabled providers offer under it, each with its own prices, priority and constraints |
| TableContents.TargetsAreOffers | src/sidecar_config.rs:51-92 | the targets of a key are exactly its offers, named provider/slug, each at its provider's priority |
| TableContents.NamesAreModels | src/sidecar_config.rs:51-92 | the generated routes are named after exactly the models of enabled providers |
| TableContents.PricedExactly | src/pricing.rs:56-113 | a valid registry has a price table exactly when no enabled provider has a negative price or repeats a slug |
| TableContents.PricesAreModels | src/pricing.rs:56-120 | the price table answers with exactly the prices of an enabled provider's own model |
| TableContents.CatalogIsCheapest | src/catalog.rs:55-123 | the catalog lists exactly the offered slugs, each at an offer whose combined price is the least, ties by input, output and provider |
| TableContents.EndpointsAreOffers | src/catalog.rs:87-100 | the endpoints of a model are exactly its offers, by priority, then provider, then upstream model |
| Agreement.TablesAgree | src/pricing.rs:56-113 | catalog, routes and virtual models cover the same keys; the routable providers are exactly the targets, each priced, with a generated route |
| Agreement.RoutesAreInPriorityOrder | src/policy/routing.rs:105-111 | the routes of a key strictly increase by (priority, provider) |
| Agreement.ServedRowsAreDistinct | src/pricing.rs:90-100 | a priced registry never serves a key twice from one provider |
| Agreement.EndpointsAreRoutes | src/catalog.rs:87-100 | the catalog lists a model's endpoints in exactly the order of the router's routes |
| Agreement.PlannedModelsAreServed | src/policy/routing.rs:204-211 | every model string of a plan names the generated route of its own provider, which is priced |
| Naming.NameIsItsOwnExactly | src/sidecar_config.rs:149-160 | a routed model's string names no other provider's route exactly when no row's id and slug overlap with it |
| Naming.NamesCollideExactly | src/sidecar_config.rs:149-160 | two providers' names are equal exactly when one id continues the other and takes the front of its slug |
| Naming.RoutesShareAName | src/registry.rs:161-234 | a valid, priced registry whose two routes have one name |
| Naming.RequestFindsItsPrice | src/usage_cost.rs:76-85 | for every priced registry and served model: exactly when a request finds a price, exactly when it is the model's own, and that a qualified request always finds it |
| FailoverOrder.OrdersAgreeExactly | src/sidecar_config.rs:80-84 | for every priced registry and key, the targets stand in the order of the routes exactly when served rows of equal priority stand in id order |
| FailoverOrder.OrdersDiffer | src/sidecar_config.rs:80-84 | a valid, priced registry whose targets and routes stand in opposite orders |
| Journey.RequestReachesItsPrice | src/proxy.rs:181-279 | for every accepted request on a priced registry and every oracle of answers: body i is the request rewritten for provider i of the ordered plan, no provider repeats, each body names its own provider's route, and exactly when the price of the one that answers is found and is the model's own |
| Naming.PriceIsMissed | src/proxy.rs:258-279 | a valid, priced and routed registry on which every request for its one model misses its price |
| Naming.OtherPriceIsCharged | src/usage_cost.rs:262-268 | a valid, priced and routed registry on which a request is charged at another model's prices |

## Left out

- HTTP server and client, authentication, configuration, deployment, health endpoints, tracing, metrics and timing.
- SQL, migrations and the spawned ledger insert: consuming the generation context is either recorded or warned, and a recorded one says which row is written.
- JSON text to value: the parser is a function given with the configuration. Numbers keep sign, digits, scale and exponent; the spelling of exponents and the sign of zero are lost.
- In-place JSON editing: `UsageCost` and `Requests` rewrite values, which does not capture partial updates; the source returns an error before its first write.
- Decimal and floating-point representation: prices and measurements are reals, so 96-bit overflow, `PriceOverflow` and IEEE rounding are not modelled.
- The random generators: a draw is any fraction below 1, one per selection; seeding and the distribution of shares are not modelled.
- Locks and threads around the routing state and the measurements: each call is one step. `RoutingPolicy` owns tracker values and turns one into an object while a request uses it.
- DatabaseHealth.RecoveryIsInevitable: a success reported by another operation ends the failure, so the stretch it bounds has none.
- Which providers may report their own costs (`src/usage_cost.rs:163-170`): the cost policy is part of the configuration.
- The nested measurement map is one map from (profile, provider, slug).
- Registry validation of names, public aliases and context lengths, and catalog response bodies: easy single branches.
- Sidecar listener addresses, credentials, parameter overrides and retry policies, and the YAML it is written in.
- The non-streaming response path, error bodies, upstream catalog fetching and its price hydration.
- Unhealthy candidates: routing passes every candidate as healthy; `Select` still filters on the flag.
- JsonReader.PrintReadsBack: the reader is a reference for compact text, not serde's parser; that serde's reads printed values back is a hypothesis of `Relay`.
- StreamShape.PricedSession: states nothing about public streams without prices, which `src/proxy.rs:260-301` never makes; chunk independence covers those too.
- DatabaseHealth.NoLostWakeUp: the endless supervisor loop is a step relation, not a method; the future of one `notified` call is created and polled in one step.
- Tables.BuildCatalog: rows stand for entries and endpoints; their names, tags, context lengths and price texts are copied fields.
