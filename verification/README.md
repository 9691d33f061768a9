# Verification of the LLM gateway core

This project models the parts of the gateway that decide what a client sees, what is billed and who
is let through, and proves properties of them for all inputs, all runs and all ways of cutting a
stream into chunks. `dafny verify dfyconfig.toml` checks it; it needs nothing but Dafny 4.11.

## What is modelled

- **Streams.** `Sse` frames server-sent events, `EventText` says what their lines and values are,
  `UsageCapture` finds and merges usage frames, `UsageDialects` says where each dialect keeps them,
  `StreamBilling` is the life of a proxied stream up to its one bill, `Priming` is the read-ahead
  window that decides between commit and failover, `PrimingSignals` says what it takes for an error, for
  output and for an end in each dialect, `InlineThink` separates `<think>` blocks;
  `PrimingCuts` says when that depends on the chunks; `PlainEvents`, `BillingExample`, `CapExample` and
  `PrimingExample` hold streams that show where invariance ends.
- **Admission.** `ConcurrencyLimit` and `RateRules` (places in buckets), `TokenBucket` (login
  limiter), `UsageCache` and `Quota` (plan quotas), `Periods` (quota periods), `PlanScope` and
  `PlanChoice` (which plan applies).
- **Upstream choice.** `Breaker` (circuit breaker), `BreakerTrips` (when a circuit opens, by the calls
  alone) and `CandidateLoop` (filter and attempt loop).
- **Bodies.** `ExtraBody` (configured extra fields), `UnderscoreFilter` and `UnderscorePaths` (private fields),
  `Canonical` (canonical JSON).
- **Reporting.** `Incidents` (status page) and `TrendBuckets` (usage charts).

Objects that the source updates in place are classes whose methods are proved against functions of
the old state; loops stay loops; pure code is functions. Protocols are state machines, and the
theorems range over every sequence of their steps. Bytes are characters of a `string`. The JSON
parser and the usage decoder are parameters (any function), so are clocks and what upstreams
answer.

## What the proofs found

Each of these is a lemma; where a property of the design fails, there is an input that shows it and
the exact condition under which it holds.

1. The search for the end of an event looks for LF LF in the whole buffer before CR LF CR LF. Framing
   is independent of chunk boundaries if and only if no LF LF stands behind a CR LF CR LF
   (`Sse.FramingIsChunkInvariantIff`); otherwise even the bill can depend on them
   (`BillingExample.MixedEndingsChangeTheBill`), as it can for an event beyond the buffer's cap
   (`CapExample.CapChangesTheBill`).
2. A stream makes exactly one record call, but a call it awaits itself is lost when the client drops
   the stream while it waits (`StreamBilling.LostBill`); the bill is committed if and only if that does
   not happen (`StreamBilling.CommittedIffNotCancelled`).
3. The candidate filter takes half-open slots that the loop then cannot use
   (`CandidateLoop.SlotLeaks`). A slot taken by a request is still taken at its end if and only if more
   than one candidate survived, or its body could not be built, or its client left
   (`CandidateLoop.SlotLeaksIff`); the
   provider then stays out as long as others serve (`CandidateLoop.LeakedSlotStarves`).
4. The breaker's documentation asks for `success_threshold` consecutive successes before a circuit
   closes (src/service/breaker.rs:8-10). One late success closes it at once
   (`Breaker.LateSuccessCloses`), and a failure between the probes does not start the count over
   (`Breaker.ClosesAcrossFailure`). The promise is kept if and only if the last failure left no progress
   standing and the closing success is a probe or completes the count
   (`Breaker.ClosingIsEarnedIff`). The model follows the code.
5. Whether a stream is committed can depend on its chunks in two ways: an error event behind output is
   seen only if it arrives with it (`PrimingExample.CutsCanDisagree`), and a harmless event fails over
   when a part of it that is an error envelope by itself arrives as a chunk of its own
   (`PrimingExample.EnvelopeCanDisagree`). All chunkings agree if and only if the first non-neutral
   event is no output, or there is neither such an error event nor such a part
   (`PrimingCuts.ChunkingsAgreeIff`).
6. The chart filler never passes a row older than its window, and then every point is zero; the
   query's lower bound always leaves room for such a row (`TrendBuckets.FillIsExactIff`,
   `TrendBuckets.BoundAdmitsOlderBucket`).
7. A route's extra fields would be dropped if the provider's configuration were not an object
   (`ExtraBody.RouteLeafReachesIff`); the admin API rejects such configurations
   (src/api/admin_config.rs:745-750), so the code relies on that check.
8. Increments between the read and the merge of a snapshot are missing from the cache if and only if
   the cache, and everything merged meanwhile, was behind that snapshot
   (`UsageCache.StaleSnapshotLosesIncrementsIff`).
9. The substring test in front of the JSON parser is lossless if and only if the parser reads usage and
   terminal events only where a marker word is spelled, which an escaped word is not
   (`UsageCapture.PrefilterIsLosslessIff`).
10. The non-streaming think split agrees with the streaming one if and only if the block opens the
    text (`InlineThink.SplitLeadingThinkAgreesIff`).
11. An hourly period starts in the future if and only if the anchor has not been reached
    (`Periods.StartsInFutureIff`).

## Model

| member | source | states |
|---|---|---|
| `InlineThink.SplitStream` | src/service/inline_think.rs:86-183 | For every list of chunks, all increments of feeding them and flushing add up to the one-shot split of their concatenation: reasoning up to the first closing tag if the trimmed text is the open tag and more, else everything is answer |
| `InlineThink.FeedAll` | src/service/inline_think.rs:93-117 | What is held and handed out after any chunks is a function of their concatenation |
| `InlineThink.InlineThinkState.Feed` | src/service/inline_think.rs:93-117 | One delta changes mode and buffer and hands out increments as the step function says |
| `InlineThink.InlineThinkState.Flush` | src/service/inline_think.rs:120-144 | What is held goes to the side the mode says; the mode becomes answer |
| `InlineThink.InlineThinkState.EmitReasoning` | src/service/inline_think.rs:150-174 | Hands out all reasoning that can no longer be part of a closing tag, keeps exactly the longest partial tag |
| `InlineThink.InlineThinkState.StripOpenTag` | src/service/inline_think.rs:178-182 | Removes leading whitespace and the open tag: searching the first tag finds the leading one |
| `InlineThink.PartialSuffixLen` | src/service/inline_think.rs:71-78 | The result is the length of the longest suffix that is a prefix of the tag |
| `InlineThink.StepAdvances` | src/service/inline_think.rs:93-117 | Feeding one more delta takes the progress of a text to the progress of the longer text |
| `InlineThink.FindInHeld` | src/service/inline_think.rs:150-174 | Scanning only the held suffix and the delta finds the same closing tag as scanning the whole body |
| `InlineThink.FlushCompletes` | src/service/inline_think.rs:120-144 | Progress plus flush is the one-shot split |
| `InlineThink.ReasoningHoldsLessThanTag` | src/service/inline_think.rs:150-174 | In reasoning mode fewer characters than the closing tag has are held |
| `InlineThink.SplitLeadingThinkAgreesIff` | src/service/inline_think.rs:59-84 | A successful non-streaming split equals the streaming one if and only if the trimmed text starts with the open tag |
| `Sse.DrainAppend` | src/service/proxy.rs:3026-3086 | On uniform streams draining early and then the rest gives the events and remainder of draining at once |
| `Sse.UniformChunks` | src/service/proxy.rs:3026-3086 | On uniform streams every chunking gives the same events and remainder |
| `Sse.FramingIsChunkInvariantIff` | src/service/proxy.rs:3081-3086 | All chunkings of a stream give the same events if and only if no LF LF stands behind a CR LF CR LF |
| `Sse.BadCut` | src/service/proxy.rs:3081-3086 | Every other stream has a cut that changes its events |
| `Sse.DrainConserves` | src/service/proxy.rs:3026-3086 | Events and remainder, in order, are the buffer: nothing is lost |
| `Sse.DrainPrefix` | src/service/proxy.rs:3026-3086 | The first events of a uniform stream are a prefix of it that frames by itself |
| `UsageCapture.MergeAssociative` | src/service/proxy.rs:2997-3021 | Merging usage frames is associative |
| `UsageCapture.MergedIsLastPresent` | src/service/proxy.rs:2997-3021 | Each field of the merge of any frames is the last value present in any of them |
| `UsageCapture.MergeChunk` | src/service/proxy.rs:2997-3021 | Merging a chunk's merged usage equals merging its frames one by one |
| `UsageCapture.FeedSse` | src/service/proxy.rs:3026-3079 | The drain loop returns the merge of the frames up to the first terminal event, the rest of the buffer (dropped beyond the cap) and whether a terminal event was seen; which frames those are `UsageDialects.EventContributes` says |
| `UsageCapture.ScanEvent` | src/service/proxy.rs:3038-3069 | The line loop merges exactly what the data lines of the event contribute, in order, and reports a terminal line; what a line contributes `UsageDialects.EventContributes` says by paths |
| `UsageDialects.EventContributes` | src/service/proxy.rs:2976-2993 | For every event with one data line and every value it parses to: outside `message_*` types the usage object at `usage`, or else at `response.usage`, is the frame; inside them the one at `message.usage`, or else at `usage`, folded; none there or not decodable, no frame; it is terminal exactly for the five end types; without a marker word nothing is read |
| `UsageDialects.EventContributesNothing` | src/service/proxy.rs:3038-3069 | `[DONE]` ends the stream without a frame; text that does not parse and lines of other fields contribute nothing |
| `UsageDialects.LinesContributeInOrder` | src/service/proxy.rs:3038-3069 | Several data lines contribute one after the other |
| `UsageDialects.FoldIsFolded` | src/store/usage.rs:138-149 | For every frame with positive cache buckets the new input minus both buckets is the native input unless it overflows, and then it is clamped; the prompt count is cleared and the rest kept; a frame without buckets is unchanged |
| `UsageDialects.NativeInputIsMerged` | src/service/proxy.rs:2976-3021 | After scanning such an event, on top of any earlier usage, merged input minus merged buckets is the native input |
| `UsageDialects.MayCarryIff` | src/service/proxy.rs:3092-3105 | An event passes the substring test exactly when one of the seven marker words stands in it |
| `EventText.LinesOfUnlines` | src/service/proxy.rs:2458-2470 | Round trip: lines closed by LF or CR LF, and an unclosed last one, are read back as written |
| `EventText.CarriesIff` | src/service/proxy.rs:2464-2468 | A line carries a field exactly when it starts with its name, and the value is what stands between the blanks behind it |
| `UsageCapture.PrefilterIsLosslessIff` | src/service/proxy.rs:3092-3103 | For every parser: skipping events without the marker words loses no usage and no terminal event if and only if every data payload that carries one spells a marker word |
| `StreamBilling.BilledExactlyOnce` | src/service/proxy.rs:2828-2953 | Over every run: one record call exactly when the flag is set, an ended or dropped stream has made it, and it has completed unless still awaited or cancelled |
| `StreamBilling.CommittedIffNotCancelled` | src/service/proxy.rs:2837-2953 | A dropped stream made one call, and it completed if and only if the drop did not hit the stream while it awaited that call |
| `StreamBilling.LostBill` | src/service/proxy.rs:2837-2953 | A stream that ends and is dropped while its record is written is a legal run with one call and none completed |
| `StreamBilling.BillFollowsFraming` | src/service/proxy.rs:2878-2953 | Over every run, whatever the line endings and sizes: the one bill is the merge of the usage frames, up to and including the first terminal event, of the events as the run frames them, cap and end flush included |
| `StreamBilling.BillingIsChunkInvariant` | src/service/proxy.rs:2878-2953 | Over every run on a uniform stream within the cap, what is held and what was billed is a function of the bytes seen |
| `BillingExample.MixedEndingsChangeTheBill` | src/service/proxy.rs:3081-3086 | With mixed endings it is not: the same bytes are billed with usage in one chunk and without in two |
| `CapExample.CapChangesTheBill` | src/service/proxy.rs:3074-3078 | Nor beyond the cap: an event longer than it is billed in one chunk and cleared when cut before its end |
| `StreamBilling.EndedBill` | src/service/proxy.rs:2878-2953 | A stream that reached its end was billed once, with the merge of all frames up to the first terminal event, or of all frames including the flushed one |
| `StreamBilling.BillIsFinal` | src/service/proxy.rs:2878-2953 | A bill due at a terminal event is not changed by later bytes |
| `StreamBilling.FeedEventsScans` | src/service/proxy.rs:3026-3079 | The scanner's result in terms of the drained events: terminal seen, frames merged, rest kept |
| `StreamBilling.NotCaptured` | src/service/proxy.rs:2878-2953 | Without capture every bill is without usage |
| `StreamBilling.BillingStream.OnChunk` | src/service/proxy.rs:2896-2920 | A chunk is passed on unchanged and changes the state as the machine's chunk step |
| `StreamBilling.BillingStream.OnEof` | src/service/proxy.rs:2922-2940 | The end flushes the buffer and bills if nothing was billed |
| `StreamBilling.BillingStream.OnDrop` | src/service/proxy.rs:2837-2852 | The drop bills what was captured if nothing was billed, else cancels an awaited call |
| `Priming.PrimeState.Feed` | src/service/proxy.rs:2450-2494 | The signal is the strongest of all events complete in buffer and chunk, raised to output when the rest exceeds the window; `PrimingSignals.ChunkSignalIff` says by its events when it is which |
| `Priming.JudgeEvent` | src/service/proxy.rs:2458-2487 | Line by line with early exit gives the strongest signal of the event; `PrimingSignals.EventSignalIff` says by lines and paths when it is which |
| `PrimingSignals.EventSignalIff` | src/service/proxy.rs:2451-2487 | For every event: it is an error exactly when a data line parses to a value with an `error` object that has `message` or `type`, or of type `error`, or any data line parses under `event: error`; output exactly when it is no error and a data line parses to output; an end exactly when it is neither and a data line is `[DONE]` or parses to an end |
| `PrimingSignals.SignalByPath` | src/service/proxy.rs:2542-2609 | By paths, for every value: output is `content_block_delta`, the four `response.` prefixes, or a Chat value whose first deciding choice has a delta with content, reasoning content or tool calls and no finish reason; an end is one of five types, a Chat value whose first deciding choice has a finish reason, or usage without a deciding choice |
| `PrimingSignals.EnvelopeIff` | src/service/proxy.rs:2388-2398 | An error envelope is an object at `error` with `message` or `type`, or the text `error` at `type`, and nothing else |
| `PrimingSignals.ChoicesJudgedBy` | src/service/proxy.rs:2573-2603 | Among the choices the first that has a finish reason or says something decides |
| `PrimingSignals.EventNameIff` | src/service/proxy.rs:2459-2462 | The event is named by its first `event:` line |
| `PrimingSignals.TakesHighest` | src/service/proxy.rs:2497-2516 | The signal of several events is one of theirs and ranks highest |
| `PrimingSignals.ChunkSignalIff` | src/service/proxy.rs:2451-2494 | For every chunk: an error in any event wins, then output or an unfinished event beyond 256 KiB, then an end |
| `PrimingSignals.FirstChunkErrorIff` | src/service/proxy.rs:2346-2411 | A raw chunk is an error exactly when, behind a byte order mark and blanks, it is no comment and its first data line, or all of it, parses to an error by path |
| `PrimingSignals.ErrorLineFailsOver` | src/service/proxy.rs:1288-1303 | A stream whose first chunk is one data line with an error by path fails over, whatever follows |
| `Priming.PrimeState.Take` | src/service/proxy.rs:1282-1350 | One item of the window: a transport error, an error envelope and an error event are each recorded as a failure where they are found, anything else records nothing |
| `Priming.PrimeState.Round` | src/service/proxy.rs:1278-1403 | One turn takes one item and leaves the outcome of the whole window unchanged |
| `Priming.RunWindow` | src/service/proxy.rs:1274-1409 | Whichever exit the window takes, the breaker gets exactly one call, a failure exactly on failover; a committed stream, or a body passed on as JSON, is the upstream's items unchanged and in order; when it fails over `Priming.OutcomeIff` and `PrimingSignals` say |
| `Priming.OutcomeIff` | src/service/proxy.rs:1274-1409 | Each outcome if and only if: behind a quiet start, the first chunk with output, a terminal event or a filled window and no error commits; a transport error, an error envelope, an error event or the end fails over; a quiet answer that is no event stream is a JSON body |
| `Priming.ErrorFirstFailsOver` | src/service/proxy.rs:1274-1409 | Whatever the chunks and line endings, if the first non-neutral event drained from them is an error the attempt fails over unless 256 KiB were read first |
| `Priming.OutputCommits` | src/service/proxy.rs:1274-1409 | Items without transport error, error envelope or error event that bring output or a terminal event are committed |
| `PrimingCuts.ChunkingsAgreeIff` | src/service/proxy.rs:1274-1409 | Over all chunkings of a uniform event stream within the window, for parsers that read no error envelope from a single character: they lead to the same fate if and only if the first non-neutral event is no output, or no event is an error and no stretch that can arrive before that event is complete is an error envelope by itself |
| `PrimingCuts.CutBehindFirstSignal` | src/service/proxy.rs:1274-1409 | A stream with an error event behind its first output fails over in one chunk and is committed when cut right behind that output |
| `PrimingCuts.IsolatedEnvelopeFails` | src/service/proxy.rs:1288-1303 | A stretch that is an error envelope by itself, with nothing loud before it, fails the attempt over when it arrives as a chunk of its own |
| `PrimingExample.CutsCanDisagree` | src/service/proxy.rs:1274-1409 | Such a stream exists: output and an error, in two chunks and in one |
| `PrimingExample.EnvelopeCanDisagree` | src/service/proxy.rs:1288-1303 | And so does the other kind: one output event, committed at once and failed over when its tail arrives by itself |
| `Priming.ErrorInWindowFailsOver` | src/service/proxy.rs:1274-1409 | If that event is complete while the window has room, the attempt fails over |
| `PrimingCuts.CutFreeIffUniform` | src/service/proxy.rs:2450-2494 | The events the analyser drains are independent of the chunks if and only if the stream is uniform |
| `ConcurrencyLimit.ConcurrencyLimiter.TryAcquire` | src/service/ratelimit.rs:201-223 | Refuses with the first full rule and changes nothing, or takes one place per positive rule |
| `ConcurrencyLimit.ConcurrencyLimiter.Release` | src/service/ratelimit.rs:226-240 | Gives the places back and drops empty entries |
| `ConcurrencyLimit.RunConserves` | src/service/ratelimit.rs:201-240 | Over every interleaving of acquires and drops, with any rules, the counts are exactly the places held by live guards, with no zero entry |
| `ConcurrencyLimit.CountsAreLiveGuards` | src/service/ratelimit.rs:201-240 | With deduplicated rules each count is the number of live guards holding the bucket |
| `ConcurrencyLimit.EmptyWhenIdle` | src/service/ratelimit.rs:226-240 | Without live guards the table is empty |
| `ConcurrencyLimit.AcquireRespectsLimits` | src/service/ratelimit.rs:201-223 | With distinct keys: admitted if and only if no bucket is full; then each bucket gains one and stays within its limit; a refusal names a full bucket |
| `ConcurrencyLimit.DoubledRuleBreaksLimit` | src/service/ratelimit.rs:201-223 | A repeated rule would end one above its limit, which is why rules are deduplicated |
| `ConcurrencyLimit.DedupMinLimit` | src/service/ratelimit.rs:243-255 | The result has ascending distinct keys and per key the smallest limit of its rules |
| `ConcurrencyLimit.DedupIsUnique` | src/service/ratelimit.rs:243-255 | The result depends only on which rules there are, not on their order or repetition |
| `RateRules.BucketKeyInjective` | src/service/ratelimit.rs:130-169 | Two bucket keys coincide only for the same owner and the same model |
| `RateRules.MatchIff` | src/service/ratelimit.rs:130-169 | A rule matches exactly when it is global, for users and names no user or this one, or for keys and names this one, and its model is none or the request's; limit and bucket name are then given by those |
| `RateRules.LimitsFor` | src/service/ratelimit.rs:259-277 | The limits handed to the acquire are the strictest positive ones of the matching rules, one per bucket |
| `RateRules.EveryMatchingRuleIsRespected` | src/service/ratelimit.rs:130-277 | A request is admitted if and only if no matching rule with a positive limit is full, and then takes one place in each one's bucket within its limit |
| `TokenBucket.RateLimiter.CheckAt` | src/service/ratelimit.rs:75-116 | Eviction, refill, verdict and stored bucket of a check; other keys as eviction left them |
| `TokenBucket.AdmissionBound` | src/service/ratelimit.rs:75-116 | Over any ascending check times of one bucket, from any state, at most burst plus elapsed times rpm/60 checks are admitted |
| `TokenBucket.TableFollowsBucket` | src/service/ratelimit.rs:75-116 | Over every run of checks on any keys, evictions included, a key's admissions are those of a bucket that is never forgotten, if an hour's inflow covers its burst, its parameters stay fixed and the table is never cleared |
| `TokenBucket.TableAdmissionBound` | src/service/ratelimit.rs:75-116 | So over every such run of the table the key is admitted at most burst plus elapsed times rpm/60 times |
| `TokenBucket.BurstIsAdmitted` | src/service/ratelimit.rs:75-116 | A new bucket admits every check of a burst at one instant and is left with the remainder |
| `TokenBucket.WaitIsExact` | src/service/ratelimit.rs:100-116 | For burst at least one and positive rpm, the next check succeeds if and only if at least the announced wait has passed |
| `TokenBucket.NeverAdmitted` | src/service/ratelimit.rs:100-116 | Otherwise no delay helps, and without a refill that is the verdict |
| `TokenBucket.TableIsBounded` | src/service/ratelimit.rs:59-98 | Over every run of checks the table holds at most ten thousand buckets, the checked key's among them |
| `TokenBucket.ForgettingIsUnobservableIff` | src/service/ratelimit.rs:76-98 | A check on a forgotten bucket equals the check on the kept one if and only if it would have refilled |
| `TokenBucket.EvictionIsUnobservableIff` | src/service/ratelimit.rs:76-98 | For every table, cleared or not: a later check does not see the eviction if and only if the key's bucket was kept, absent, or would have refilled by then |
| `TokenBucket.EvictionIsUnobservable` | src/service/ratelimit.rs:76-84 | If an hour's inflow covers the burst, evicting idle buckets changes no later check |
| `UsageCache.PlanUsage.IncrPlan` | src/service/usage.rs:28-39 | The new table is the old one with the key's slot counted on (saturating) in its period or started over in another; `UsageCache.IncrementCounts` says what the cache reports then |
| `UsageCache.PlanUsage.ReloadFrom` | src/service/usage.rs:46-58 | The merge loop is the merge of all snapshots in order |
| `UsageCache.CacheBounds` | src/service/usage.rs:21-58 | Over every mix of increments and merges of one period, whatever period the slot counted before, the value is at least the start (zero in another period) plus the increments, at least every merged snapshot, and at most the larger of start and largest snapshot plus the increments, clamped to i64 |
| `UsageCache.TurnoverStartsOver` | src/service/usage.rs:21-58 | After a turnover the new period counts from zero, over every mix of increments and merges, and the past period reports nothing |
| `UsageCache.IncrementCounts` | src/service/usage.rs:28-39 | One increment of any i64 amount: the counted period goes on by it, a period that turns over starts from it or from zero, other slots report what they did |
| `UsageCache.SnapshotBelowMax` | src/service/usage.rs:46-58 | Every merged snapshot is below the largest one used in the bound |
| `UsageCache.OtherKeysUntouched` | src/service/usage.rs:21-58 | Operations on other keys never change a slot |
| `UsageCache.StaleSnapshotLosesIncrementsIff` | src/service/usage.rs:28-58 | After any increments and merges between the read and the merge of a snapshot, below saturation, the cache falls short of the snapshot plus the increments if and only if something was added, the cache was behind the snapshot at the read, and every snapshot merged meanwhile was behind it plus the increments before it |
| `Quota.OvershootBound` | src/service/plans.rs:27-73 | Under block, over every interleaving of checks, records, abandoned requests and reloads with at most k pending requests of at most M tokens, recorded tokens are at most limit - 1 + k*M; a non-positive limit admits nothing |
| `Quota.BoundIsReached` | src/service/plans.rs:27-73 | For every limit, k and M some run reaches that bound |
| `Periods.PeriodsPartitionTime` | src/store/plans.rs:378-429 | From the anchor on, start <= now < end, and two instants have the same start if and only if they lie in the same period, for daily, monthly and every hourly length and anchor |
| `Periods.EndStartsNext` | src/store/plans.rs:378-429 | The end of a period is the start of the next, across month and year ends |
| `Periods.PeriodLengths` | src/store/plans.rs:378-429 | A period lasts a day, the days of its month, or the configured hours but at least one, to the second |
| `Periods.StartsInFutureIff` | src/store/plans.rs:378-404 | An hourly start is later than now if and only if the anchor is not reached |
| `Periods.ReloadWindowHoldsStart` | src/store/plans.rs:1278-1301 | The reload window holds a grid point if and only if it is the current period's start |
| `Periods.KeyIffStart` | src/store/plans.rs:433-440 | Two instants share the period key if and only if they share the period start |
| `Calendar.MonthLength` | src/store/plans.rs:378-429 | Month starts follow each other with the Gregorian month lengths, leap years included, from January 1970 at day 0 |
| `PlanScope.ChosenDominates` | src/store/plans.rs:478-520 | The chosen plan is an eligible candidate whose specificity, priority and id dominate all eligible ones; none is chosen if and only if none is eligible |
| `PlanChoice.OnlyOneIsChosen` | src/store/plans.rs:478-520 | With distinct ids a plan is chosen exactly when it is the user's, applies, and no applying one is more specific (with a model), or as specific with a higher priority, or equal in both with a larger id |
| `PlanChoice.ChosenIff` | src/store/plans.rs:478-520 | The same without the ids being distinct; none exactly when none applies |
| `PlanChoice.InScopeIff` | src/store/plans.rs:160-165 | A model is in scope exactly when no denied pattern covers it and, if any are listed, an allowed one does |
| `PlanChoice.MatchIffCovers` | src/store/plans.rs:191-199 | A pattern covers its own text or, with a trailing star, every continuation, letter by letter in any ASCII case |
| `PlanChoice.SpecificityIff` | src/store/plans.rs:167-187 | Zero without a scope, one with a trailing star anywhere in its lists, else two |
| `PlanChoice.WindowIsStretch` | src/store/plans.rs:629-639 | A window with two different ends is the stretch of the day from its start to its end, across midnight or not; else it is the whole day |
| `PlanChoice.ScopeIff` | src/store/plans.rs:240-292 | A scope is read exactly when it is an object of the two lists only, absent, null or arrays of patterns, one to 32 in all and none in both; it consists of those patterns in lower case |
| `PlanChoice.NoScopeIff` | src/store/plans.rs:240-292 | And none exactly when it is absent, null or an object of empty lists |
| `PlanChoice.ValidPatternIff` | src/store/plans.rs:205-233 | A pattern is valid exactly when it has 1 to 128 allowed characters and a star only at its end, behind something |
| `PlanScope.ChoiceIgnoresOrder` | src/store/plans.rs:478-520 | The chosen id does not depend on order or repetition of candidates |
| `PlanScope.ChoiceIgnoresCase` | src/store/plans.rs:160-199 | Nor on the ASCII case of the model |
| `PlanScope.WindowAndComplement` | src/store/plans.rs:629-639 | A window and the one with exchanged ends cover each time exactly once |
| `PlanScope.StarMatchesContinuations` | src/store/plans.rs:191-199 | A trailing star matches exactly the continuations of its prefix, in any ASCII case |
| `PlanScope.ParseEntries` | src/store/plans.rs:257-274 | The list loop accepts exactly valid patterns and lower-cases them in order |
| `PlanScope.ScopeRoundTrip` | src/store/plans.rs:205-292 | Every scope that parsing produces is read back unchanged from its serialised form |
| `Breaker.CircuitBreaker.Allow` | src/service/breaker.rs:88-103 | Grants as the state says, and takes the slot of an expired circuit |
| `Breaker.CircuitBreaker.RecordSuccess` | src/service/breaker.rs:123-147 | The whole new state: the run of failures ends, the slot is free, the circuit is closed or re-armed, the window counts one more; what that means for later failures `BreakerTrips.FirstOpeningIff` says |
| `Breaker.CircuitBreaker.RecordFailure` | src/service/breaker.rs:149-174 | Reopens a probed circuit, else counts and opens at a threshold |
| `BreakerTrips.FirstOpeningIff` | src/service/breaker.rs:123-190 | Over every run from the empty table, by the calls alone: a circuit that has not opened opens at a call exactly when that is a failure and the last failure_threshold records are failures, or the window in force holds min_requests records and the failed share reaches failure_rate |
| `BreakerTrips.StaysClosedIff` | src/service/breaker.rs:123-190 | So a run leaves the circuit closed throughout exactly when no call of it does that |
| `BreakerTrips.CountersAreTheCalls` | src/service/breaker.rs:123-190 | Until then the counters are the failures since the last success, and the records and failures since the window started |
| `BreakerTrips.OpensAgainIff` | src/service/breaker.rs:149-174 | After an opening both counts start over: outside a probe the circuit opens again exactly when the calls since then do that |
| `BreakerTrips.FailedProbeLeavesNoMargin` | src/service/breaker.rs:149-174 | After a failed probe the next record, if it is a failure, opens the circuit again |
| `BreakerTrips.LastAreFailuresIff` | src/service/breaker.rs:149-174 | The last k records are failures exactly when at least k failures came since the last success |
| `Breaker.RunKeepsSound` | src/service/breaker.rs:88-190 | In every reachable state a taken slot belongs to an open circuit whose window has passed, progress is below the threshold, and window failures do not exceed requests |
| `Breaker.OthersUntouched` | src/service/breaker.rs:88-190 | No run on other providers changes a provider |
| `Breaker.OpeningFailureRefuses` | src/service/breaker.rs:88-174 | After an opening failure, over every run without a success for it, the provider is refused for the whole window |
| `Breaker.SlotHeldUntilRecord` | src/service/breaker.rs:88-103 | A taken slot stays taken and every call is refused until the provider's next record |
| `Breaker.ProgressIsProbeStreak` | src/service/breaker.rs:123-174 | Over every run the progress towards closing is the streak of successful probes, other records not counted |
| `Breaker.ProbeSuccessClosesIff` | src/service/breaker.rs:123-147 | A successful probe closes the circuit if and only if it completes the streak, else it is refused for another full window |
| `Breaker.RateIsOfRecentRecords` | src/service/breaker.rs:123-190 | Over every run the window counters are exactly the counted records and failures of a suffix of the run, and at a counted record that window is younger than its length |
| `Breaker.ProgressBalance` | src/service/breaker.rs:123-174 | Over every run, the progress of an open circuit is what the last failure left standing plus the successes since |
| `Breaker.ClosingIsEarnedIff` | src/service/breaker.rs:123-147 | Over every run, a success that closes a circuit comes after success_threshold consecutive successes if and only if the last failure left no progress standing and the success is a probe or completes the count |
| `Breaker.LateSuccessCloses` | src/service/breaker.rs:142-144 | Under every configuration with a threshold of two or more, a run from the empty table in which one late success closes the circuit |
| `Breaker.ClosesAcrossFailure` | src/service/breaker.rs:149-174 | Likewise, a run in which the circuit closes although a failure lies between the counted successes |
| `CandidateLoop.FilterCandidates` | src/service/breaker.rs:106-121 | Asks about every candidate once, in order, and returns those granted |
| `CandidateLoop.HandleRequest` | src/service/proxy.rs:921-1413 | A whole request: the calls logged at the breaker are one question per candidate and then the calls of each visit, nothing else; for distinct candidates the log gains exactly one record about each one attempted with a body and a client, none about any other; if all that it may try fail, it visits them all and logs no success; state and visits are those of the walk |
| `CandidateLoop.TryCandidates` | src/service/proxy.rs:1118-1413 | The loop is the walk over the candidates, and logs exactly the calls of its visits |
| `CandidateLoop.TryStreaming` | src/service/proxy.rs:1118-1413 | Exit by exit, by the attempt alone: the log gains a success exactly when body and key are there and the reply was read ahead, or is not retryable and its window did not fail or it was converted and is no event stream; a failure exactly for a missing key, a send error, a retryable status or a failed window; nothing exactly when the body cannot be built or the client leaves |
| `CandidateLoop.TryBuffered` | src/service/proxy.rs:1681-1825 | Likewise: a success exactly when the reply was read ahead, or is not retryable and its body was read; a failure exactly for a missing key, a send error, a retryable status or an unreadable body |
| `CandidateLoop.Try` | src/service/proxy.rs:1118-1128 | One candidate: the question if asked for, then the attempt's calls |
| `CandidateLoop.VisitsInOrder` | src/service/proxy.rs:1118-1413 | Candidates are visited in order, each once, up to the first answer or abort |
| `CandidateLoop.OneRecordPerAttempt` | src/service/proxy.rs:1681-1825 | Among the calls of the visits to distinct candidates, a candidate has exactly one record if it was attempted with a body and a client, none otherwise |
| `CandidateLoop.RequestRecords` | src/service/proxy.rs:921-1413 | The same for the calls of a whole request, the filter's questions included |
| `CandidateLoop.RequestIsAccounted` | src/service/proxy.rs:921-1413 | A whole request visits at most max_attempts candidates, in order up to the first answer or abort, and leaves the breaker as those calls do |
| `CandidateLoop.RequestEnds` | src/service/proxy.rs:1112-1413 | By the attempts alone: every visit before the last is a loss or was refused, and a request that ends early ends with an attempt that wins or ends silently |
| `CandidateLoop.AllLoseLogsNoSuccess` | src/service/proxy.rs:1112-1413 | If every candidate it may try ends in a send error, a retryable status, a missing key, an unreadable body or a failed window, the request visits all of them, each a failure or refused, and logs no success |
| `CandidateLoop.SkipsIffRefused` | src/service/proxy.rs:1125-1128 | From any state, a turn of the loop skips its candidate exactly when the loop asks and the breaker refuses |
| `CandidateLoop.AlwaysAttempts` | src/service/breaker.rs:106-121 | A request with candidates always visits one; when every circuit refuses it works on all of them, and a single survivor is never skipped |
| `CandidateLoop.FilterKeepsGranted` | src/service/breaker.rs:106-121 | Of distinct candidates the filter keeps exactly those the breaker grants |
| `CandidateLoop.FilterKeepsOrder` | src/service/breaker.rs:106-121 | And in their order |
| `CandidateLoop.SlotLeaksIff` | src/service/proxy.rs:921-1413 | A slot the request took is still taken at its end if and only if several candidates survived, or the attempt ended without a record because its body could not be built or its client left |
| `CandidateLoop.SlotLeaks` | src/service/proxy.rs:921-1413 | Under every configuration and whatever the attempts do, a leak from the empty table: failures open a circuit, and a request with two candidates after its window keeps the slot |
| `CandidateLoop.BypassTakesNoSlot` | src/service/breaker.rs:106-121 | When every circuit refuses, no slot was taken |
| `CandidateLoop.TakenSlotIsPassedOver` | src/service/proxy.rs:921-1413 | A request with a survivor never reaches a candidate whose slot is taken, and leaves it unchanged |
| `CandidateLoop.LeakedSlotStarves` | src/service/proxy.rs:921-1413 | Over any sequence of requests that each find a survivor, a leaked slot never comes back |
| `UnderscoreFilter.StripAtDepth` | src/service/proxy.rs:387-414 | Retaining first and then visiting is the recursive strip |
| `UnderscoreFilter.SkippingTheRebuildIsLossless` | src/service/proxy.rs:417-444 | The test is false if and only if stripping leaves the body unchanged |
| `UnderscoreFilter.StrippedHasNone` | src/service/proxy.rs:387-444 | A stripped value has no private field left that the test would see |
| `UnderscoreFilter.StripIsIdempotent` | src/service/proxy.rs:383-414 | Stripping twice is stripping once |
| `UnderscoreFilter.NameMapExempts` | src/service/proxy.rs:387-414 | A name in a schema name map, wherever the map stands and through arrays, is removed only together with the whole map |
| `UnderscoreFilter.StripRemovesExactly` | src/service/proxy.rs:387-414 | A value at any path of keys and array positions stays if and only if no key on the path is private outside a name map within the depth limit, and scalars keep their value |
| `UnderscorePaths.RemovedByPosition` | src/service/proxy.rs:383-414 | By positions: a value stays exactly when every key on its path that starts with an underscore is a name directly, or through arrays, under one of the four schema maps, or stands more than 32 levels down |
| `ExtraBody.MergeInto` | src/service/proxy.rs:315-327 | The merge loop is the recursive merge |
| `ExtraBody.ApplyInto` | src/service/proxy.rs:750-767 | The apply loop merges exactly the unmanaged fields |
| `ExtraBody.MergedLookup` | src/service/proxy.rs:315-327 | The merged value under a key: the configured one merged into the old one, or the old one |
| `ExtraBody.MergedAt` | src/service/proxy.rs:315-327 | The merged value at every path: configured, removed with a replaced ancestor, or kept |
| `ExtraBody.ManagedFieldsAreKept` | src/service/proxy.rs:750-767 | Nothing at or below model, stream or stream_options changes, whatever is configured |
| `ExtraBody.ModelAndStreamAreTheClients` | src/service/proxy.rs:311-339 | Whatever route and provider configure, `model`, `stream` and `stream_options` of the outgoing body are the client's |
| `ExtraBody.ForwardedAt` | src/service/proxy.rs:331-339 | Elsewhere the outgoing body is the client's with the provider's and then the route's configuration laid over it, at every path |
| `ExtraBody.RouteLeafReachesIff` | src/service/proxy.rs:331-339 | A route's leaf reaches the upstream if and only if the provider's configuration is an object or the client sent that value |
| `ExtraBody.ProviderLeafReaches` | src/service/proxy.rs:331-339 | A provider's leaf reaches the upstream where the route is silent |
| `ExtraBody.ClientValueSurvives` | src/service/proxy.rs:750-767 | What neither configuration speaks about is the client's |
| `ExtraBody.ApplyIsIdempotent` | src/service/proxy.rs:750-767 | Applying a configuration twice equals applying it once |
| `Canonical.CanonicalValue` | src/service/canonical.rs:29-44 | Sorting keys and inserting canonical values one by one gives the canonical value |
| `Canonical.CanonIsNormalForm` | src/service/canonical.rs:10-44 | Two values have the same canonical value if and only if they are equal up to key order at every depth |
| `Canonical.CanonEquivalent` | src/service/canonical.rs:29-44 | Canonicalising keeps the meaning and distinct keys |
| `Canonical.CanonIdempotent` | src/service/canonical.rs:29-44 | Canonicalising twice changes nothing |
| `Incidents.MergeHours` | src/api/status.rs:471-518 | The incidents are maximal runs of consecutive bad hours, in order, covering every bad hour, each with the span, sums, rate and severity of its run |
| `Incidents.MergeHour` | src/api/status.rs:495-515 | One hour extends the open run or closes it, and keeps what is reported a cover of everything before the open run |
| `Incidents.IncidentsOf` | src/api/status.rs:460-518 | The same from one provider's unsorted rows with distinct hours |
| `Incidents.OfProviderElements` | src/api/status.rs:460-471 | The rows taken for a provider are all of its rows and no others, each as often as it was |
| `Incidents.BadIff` | src/api/status.rs:496-498 | An hour is bad exactly with at least five calls of which at least half failed; four fifths make a major incident |
| `Incidents.EveryMaximalRunIsReported` | src/api/status.rs:460-518 | Every maximal run of bad hours is described by an incident |
| `Incidents.IncidentsAreMaximalRuns` | src/api/status.rs:460-518 | Every incident describes a maximal run, and the last hour of one lies before the next |
| `Incidents.HourIsCoveredIffBad` | src/api/status.rs:460-518 | An hour lies in a reported run if and only if it is bad, and in no two |
| `Incidents.MaximalRunsAreDisjoint` | src/api/status.rs:460-518 | Two maximal runs that share an hour are the same |
| `TrendBuckets.FillBucketGaps` | src/api/console.rs:780-810 | The pass is the side-by-side walk of buckets and rows |
| `TrendBuckets.FillIsExactIff` | src/api/console.rs:780-810 | Every point is its row or zero if and only if no row is older than the window or the window has no row |
| `TrendBuckets.OlderRowBlanks` | src/api/console.rs:780-810 | A row older than the window makes every point zero |
| `TrendBuckets.BoundAdmitsOlderBucket` | src/api/console.rs:825-835 | The query's bound lies before the window's start at every time, and what it admits there falls into the one bucket before the window |

## Left out

- SQL, HTTP, TLS, timers, encryption, LDAP, mail, webhooks, configuration loading, admin handlers and the web console are not modelled.
- The Anthropic and Responses transforms are not part of this model.
- Error-message tables, effort tables and status vocabulary are not modelled.
- Rounding of `f64` in rates, tokens and waits: the model computes in exact reals.
- JSON values are edited on values, not in place; key order of an object is kept on insertion, which the sorted map of the source does not show.
- Trimming of SSE data lines removes ASCII whitespace only; lossy UTF-8 decoding is part of the parser parameter.
- StreamBilling.BillingIsChunkInvariant: for uniform line endings and events within the one-megabyte cap, as the bill depends on the chunks otherwise (`BillingExample.MixedEndingsChangeTheBill`, `CapExample.CapChangesTheBill`); `StreamBilling.BillFollowsFraming` covers every stream.
- StreamBilling.EndedBill: for uniform line endings and events within the cap, for the same reason.
- StreamBilling.BillIsFinal: for uniform line endings, for the same reason.
- PrimingCuts.ChunkingsAgreeIff: for uniform streams shorter than the window; `Priming.OutcomeIff` covers every stream for given chunks.
- Breaker.RunKeepsSound: each method uses one time for all its clock reads, and time does not run backwards.
- CandidateLoop.SlotLeaksIff: no other request interleaves within the request; `Breaker.SlotHeldUntilRecord` says what holds whoever calls.
- TokenBucket.EvictionIsUnobservable: excludes the fallback that clears a table still full after eviction, which is observable; `TokenBucket.EvictionIsUnobservableIff` covers it.
- TokenBucket.TableFollowsBucket: an hour's inflow covers the burst (`60 * rpm >= burst`), the key's parameters stay fixed, the clearing fallback is not taken and the key is not reset during the run; otherwise forgetting is observable (`TokenBucket.EvictionIsUnobservableIff`).
- TokenBucket.TableAdmissionBound: under the same conditions.
- EventText.CarriesIff: blanks are the ASCII ones.
- UsageCache.StaleSnapshotLosesIncrementsIff: counts stay below the saturation of i64.
- Quota.OvershootBound: the log and downgrade policies admit beyond the limit on purpose and are not bounded.
- Incidents: ordering by start and truncation to twenty entries of the final list.
- The textual form of canonical JSON, and leaving unparsable text alone.
