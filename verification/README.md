# Verified models of the service's protocols and algorithms

Dafny models of the parts of the service where a mistake would be hard to see in review, with
proofs of what those parts promise. The ports (counters, cache, database tables) are maps,
counters and sequences with atomic operations; the logic above them is modelled branch by branch.
`dafny verify dfyconfig.toml` checks everything.

| module | subject |
|---|---|
| `ConcurrencyGate`, `GateLaws` | the batch concurrency gate: counters shared by many clients, acquired one by one and rolled back by hand |
| `Base32`, `Words` | the base32 codec of the TOTP secrets, on 32-bit words that overflow |
| `CircuitBreaker`, `BreakerLaws`, `FallbackChain`, `FallbackWalks` | the provider circuit breaker, the chain of providers that drives it, and many such walks over the same breakers |
| `ChunkBlocks` | packing document blocks into chunks, splitting oversized blocks, checking chunks for staleness |
| `EmbedBlocks`, `EmbedBackfill` | packing texts into embedding requests, and the paged backfill over a scope |
| `OutboxRelay` | the outbox relay with its dispatcher and consumer idempotency, with faults between any two effects |
| `InputFingerprint`, `JsonReader` | the stable serializer behind input fingerprints, and a reader of JSON that reads back what it writes |
| `Rrf`, `Retrieval`, `RetrievalLaws`, `ChatContext`, `ContextLaws` | rank fusion, the retrieval pipeline after the two searches, and chat-context assembly |
| `AuthTokens` | single-use tokens over a table of rows |
| `JobLiveness`, `JobLaws` | the cache-backed job store against the map it stands in for, and what both answer |
| `Evidence`, `Quotes` | admission of evidence and the walk from a citation back to its records |
| `Common`, `Sorting`, `OrderedMaps`, `Candidates`, `EvidenceTypes` | filters, a stable sort, insertion-ordered maps, records of the retrieval pipeline and of evidence |

Where the source loops or mutates, the model is a method or a class proved against a
specification, and the lemmas are about that specification. Interleavings and crashes are step
machines: `ConcurrencyGate` has one step per counter operation of any client, `FallbackWalks` one
step per call of any walk on a breaker, `OutboxRelay` one step per effect of a tick or a fault.
`Interfere` in the gate stands for the other clients between two counter operations; `alone` marks
an undisturbed call.

The modules named `Laws`, and parts of others, state what the code does without the functions that
the methods are proved against: in terms of the inputs, the calls made so far and plain numbers.
They fix what a joined text looks like, which requests a breaker refuses, which row is of a future
version, where a quote stands in its chunk, how many calls hold a slot.

The registry of circuit breakers keeps a ghost log of every call made on them. `HopLog` and
`WalkLog` say which calls a hop and a walk make; the methods are proved to add exactly those.

Three things one might expect do not hold of the code on all inputs. Each is stated with its exact
condition and an input that shows it:

- The serializer writes `[undefined]` like `[]`, and NaN like null (`UndefinedCollides`); it tells
  any other two values apart (`SerializesAlikeIffSameTree`).
- A chunk that has an embedding row of another status than ok is scanned, but neither written nor
  skipped (`BlockedChunkUncounted`); `scanned = written + skipped` holds exactly when the scope has
  no such chunk (`Run`). This code never makes such a row: the one place that writes the table,
  `insertEmbeddings`, always writes ok, so a table that started empty always adds up
  (`OkNeverBlocks`, `Run`). The schema has the statuses pending and failed as well
  (`prisma/schema.prisma:92-98`), so such a row can only come from outside: another program, a
  manual change or a later version.
- A job that registers again under another organisation while it is active is listed twice by the
  cache store and once by the map (`RegisteredTwice`, `MovedJobListedTwice`). A listing right
  after a registration agrees exactly when that is not the case (`ListingsAgreeIff`), and over
  whole runs the stores answer and list alike throughout exactly when it never happens
  (`CacheRefinesMapIff`).

Chunks keep the ceiling of 500 tokens when no block is empty, which both block producers ensure.
In general they keep it exactly when every group fits in 2000 characters together with its joiners
(`CeilingHoldsIff`): 2002 empty blocks are packed into a chunk of 501 tokens, because joiners are not
counted while packing (`EmptyBlocksBreakCeiling`).

## Model

| member | source | states |
|---|---|---|
| ConcurrencyGate.KeyNamesDiffer | src/platform/concurrency/concurrency-gate.config.ts:46-64 | different counters have different key names, so no two limits share a counter |
| ConcurrencyGate.BatchConcurrencyGate.Increment | src/platform/concurrency/batch-concurrency-gate.service.ts:80-116 | a counter is taken only below its limit, whatever other clients did in between |
| ConcurrencyGate.BatchConcurrencyGate.LooksFull | src/platform/concurrency/batch-concurrency-gate.service.ts:61-78 | the early reads take nothing, and undisturbed they report full only when there is no room |
| ConcurrencyGate.BatchConcurrencyGate.Take | src/platform/concurrency/batch-concurrency-gate.service.ts:80-136 | the hand-written rollback returns exactly what was taken; undisturbed, all keys are taken exactly when there is room |
| ConcurrencyGate.BatchConcurrencyGate.TryAcquireImmediate | src/platform/concurrency/batch-concurrency-gate.service.ts:47-136 | under any interference the caller ends holding either all keys of its slot or none; undisturbed, a slot is granted exactly when every key it needs is below its limit |
| ConcurrencyGate.BatchConcurrencyGate.TryAcquireEmbedBackfill | src/platform/concurrency/batch-concurrency-gate.service.ts:145-158 | the backfill slot is one global key, granted undisturbed exactly below its limit |
| ConcurrencyGate.BatchConcurrencyGate.Release | src/platform/concurrency/batch-concurrency-gate.service.ts:138-143 | releasing gives back every key of the slot and nothing else |
| ConcurrencyGate.BatchConcurrencyGate.AcquireThenRelease | src/platform/concurrency/batch-concurrency-gate.service.ts:47-143 | acquire followed by release, or a refused acquire, leaves every counter as it was |
| ConcurrencyGate.ActKeepsInv | src/platform/concurrency/batch-concurrency-gate.service.ts:47-158 | every step of every client keeps each counter equal to the number of clients holding it |
| ConcurrencyGate.CountersAreHolders | src/platform/concurrency/batch-concurrency-gate.service.ts:47-158 | in every interleaving each counter equals the number of clients holding that key, half-finished acquires included |
| ConcurrencyGate.CounterNeverExceeds | src/platform/concurrency/batch-concurrency-gate.service.ts:78-158 | in every interleaving no counter exceeds the limit its callers pass |
| ConcurrencyGate.SlotsNeverExceed | src/platform/concurrency/batch-concurrency-gate.service.ts:78-158 | the slots handed out for a key never outnumber its counter, nor its limit |
| ConcurrencyGate.CeilingsHold | src/platform/concurrency/batch-concurrency-gate.service.ts:78-158 | at most 40 global, 4 OCR, 2 backfill and 5 uploads per organisation at any time |
| ConcurrencyGate.OrgLimitHolds | src/platform/concurrency/batch-concurrency-gate.service.ts:78-87 | an organisation never has more slots than the limit its calls pass |
| ConcurrencyGate.QuiescentCountersAreZero | src/platform/concurrency/batch-concurrency-gate.service.ts:89-143 | once every client is refused or has released, every counter is back at zero |
| ConcurrencyGate.DecrementNeverClamps | src/platform/concurrency/batch-concurrency-gate.service.ts:89-143 | a held key's counter is positive, so no decrement is lost at zero |
| ConcurrencyGate.SoloIsTryAcquire | src/platform/concurrency/batch-concurrency-gate.service.ts:47-136 | the step machine run alone agrees with the method: granted exactly when there is room, otherwise counters unchanged |
| GateLaws.CallsStayBelow | src/platform/concurrency/batch-concurrency-gate.service.ts:61-158 | in every interleaving at most 40 batch calls hold slots at once, 4 of them on the ocr queue, 2 backfills, and 5 of an organisation on extract, ocr and chunk together, counted in calls by queue and organisation |
| GateLaws.OrgStaysBelow | src/platform/concurrency/batch-concurrency-gate.service.ts:61-87 | an organisation never has more batch calls out than the largest limit its calls pass |
| GateLaws.GrantedExactlyWhen | src/platform/concurrency/batch-concurrency-gate.service.ts:47-158 | after any run with no acquire or release under way, the next call is given its slot exactly when few enough calls are out, on each ceiling that applies to its queue |
| Words.ShiftIn | src/iam/mfa/totp.ts:21-21 | shifting a value into an overflowing 32-bit word appends its bits to the pending low bits |
| Words.TakeTop | src/iam/mfa/totp.ts:24-24 | the unsigned shift and mask read the oldest pending bits, whatever the high bits hold |
| Words.TakeLast | src/iam/mfa/totp.ts:41-41 | the final letter is the pending bits padded with zeros |
| Base32.EncodeBase32 | src/iam/mfa/totp.ts:29-45 | the accumulator that is never masked computes the 5-bit grouping of section 6 of RFC 4648, unpadded |
| Base32.DecodeBase32 | src/iam/mfa/totp.ts:9-27 | the result is the 8-bit grouping of the letters' bits, or an error exactly when a character is outside the alphabet |
| Base32.LettersAreTheAlphabet | src/iam/mfa/totp.ts:7-7 | the letters are A to Z, then 2 to 7 |
| Base32.EncodedLength | src/iam/mfa/totp.ts:29-45 | n bytes encode to ceil(8n/5) letters |
| Base32.EncodedBits | src/iam/mfa/totp.ts:29-45 | the letters' bits are the bytes' bits followed by fewer than five zeros |
| Base32.RoundTrip | src/iam/mfa/totp.ts:9-45 | decoding the encoding of any bytes gives the bytes back |
| Base32.EncodeThenDecode | src/iam/mfa/totp.ts:9-45 | the same of the two loops, with any trailing padding added, whatever toUpperCase does to other characters |
| Base32.ReencodeIffCanonical | src/iam/mfa/totp.ts:9-45 | encoding a decoded text gives the text back exactly when no bits were dropped but zeros, fewer than five |
| CircuitBreaker.ProviderCircuitBreaker.AllowRequest | src/ai/adapters/circuit-breaker.ts:39-58 | the fields change as the value-level transition says, and so does the verdict |
| CircuitBreaker.ProviderCircuitBreaker.GetState | src/ai/adapters/circuit-breaker.ts:34-37 | reading the state can itself move an open breaker to half-open |
| CircuitBreaker.ProviderCircuitBreaker.RecordSuccess | src/ai/adapters/circuit-breaker.ts:60-65 | success closes the breaker and ends the failure run and the probe |
| CircuitBreaker.ProviderCircuitBreaker.RecordFailure | src/ai/adapters/circuit-breaker.ts:67-83 | the three clock readings of a failure act as in the value-level transition |
| CircuitBreaker.ProviderCircuitBreaker.AppendSample | src/ai/adapters/circuit-breaker.ts:120-127 | pushing a sample drops the leading samples that left the window |
| CircuitBreaker.FailureRun | src/ai/adapters/circuit-breaker.ts:60-83 | `consecutiveFailures` is the length of the trailing failure run, and while closed that run is below five |
| CircuitBreaker.ProbeOnlyHalfOpen | src/ai/adapters/circuit-breaker.ts:39-118 | a probe in flight implies half-open |
| CircuitBreaker.WindowIsKept | src/ai/adapters/circuit-breaker.ts:120-127 | with a clock that does not run back, the trimmed list is the history from some cutoff no later than the window's |
| CircuitBreaker.VerdictOnWholeHistory | src/ai/adapters/circuit-breaker.ts:95-127 | the failure-rate verdict on the trimmed list is the verdict on the whole history |
| CircuitBreaker.OpensExactlyWhen | src/ai/adapters/circuit-breaker.ts:67-103 | a failure opens the breaker exactly for five failures in a row, an exceeded rate over the whole history, or a failed probe |
| CircuitBreaker.ProbeAfterWait | src/ai/adapters/circuit-breaker.ts:39-93 | while open the next request is admitted exactly after 30 seconds, and then as the probe |
| CircuitBreaker.ProbeStays | src/ai/adapters/circuit-breaker.ts:39-58 | a probe stays in flight for as long as the breaker stays half-open |
| CircuitBreaker.OneProbePerEpisode | src/ai/adapters/circuit-breaker.ts:39-58 | between two admitted probes the breaker left the half-open state |
| BreakerLaws.SuccessCloses | src/ai/adapters/circuit-breaker.ts:60-65 | in any run, a breaker told a success is closed directly afterwards and admits the next request |
| BreakerLaws.RefusedHasFailure | src/ai/adapters/circuit-breaker.ts:39-83 | every refused request has an earlier failure with no success between the two |
| BreakerLaws.ClosedExactlyWhen | src/ai/adapters/circuit-breaker.ts:39-118 | a breaker is closed exactly when every failure that was the fifth in a row, or made more than half of at least six outcomes of the last minute failures, was followed by a success; all counted on the reported outcomes |
| BreakerLaws.RefusedExactlyWhen | src/ai/adapters/circuit-breaker.ts:39-118 | a request is refused exactly when, since the last opening and without a success, 30 seconds have not passed at any question, or they have and another request is out as the probe |
| FallbackChain.ProviderCircuitBreakerRegistry.Get | src/ai/adapters/circuit-breaker.ts:131-153 | one breaker per provider, created in its initial state, never shared |
| FallbackChain.TryHop | src/ai/adapters/fallback-chain.ts:32-88 | the calls on the hop's breaker are none when it is skipped, one request when it is refused, and otherwise the request and exactly one outcome, success or failure as the hop delivered or not; the attempt is what the breaker and the reply determine |
| FallbackChain.WalkFallbackChain | src/ai/adapters/fallback-chain.ts:25-100 | the calls made on all breakers are exactly those of the hops tried, in order; each attempt asked its breaker, and an admitted one is followed by a success when the attempt is ok and by a failure when it is not; exactly one success is reported when the walk ends well on a hop with a breaker, otherwise none; ok exactly when the last attempt is ok, all earlier ones failed; a failed walk tried every hop; the cost is the sum of the attempts' costs |
| FallbackChain.WalkSettles | src/ai/adapters/fallback-chain.ts:32-80 | in the calls of any walk, from any earlier calls, each admitted request is followed at once by one outcome for its provider, there are no other outcomes, and no provider is left with a probe in flight that it did not have before |
| FallbackChain.WalkReportsTruly | src/ai/adapters/fallback-chain.ts:32-90 | over the log and the attempts: each attempt with a breaker asked it, in order; the next entry is a success when the attempt is ok and a failure when it is not, and a refused attempt says so and reports nothing; an attempt is ok exactly when its hop answered |
| FallbackChain.OneSuccess | src/ai/adapters/fallback-chain.ts:25-100 | a walk reports one success if its last attempt is ok and its hop has a breaker, otherwise none |
| FallbackChain.HopProbe | src/ai/adapters/fallback-chain.ts:32-80 | one hop leaves no probe in flight behind |
| FallbackChain.FailuresCostNothing | src/ai/adapters/fallback-chain.ts:77-88 | failed attempts add no cost |
| FallbackWalks.WalksSettle | src/ai/adapters/fallback-chain.ts:25-90 | in every interleaving of any number of walks and state readings, each walk reports exactly one outcome for each request granted to it before it asks again; a provider's admitted requests are its outcomes plus the requests under way; a probe is in flight only while some walk awaits it |
| FallbackWalks.WalksReportTruly | src/ai/adapters/fallback-chain.ts:25-90 | in every interleaving a walk reports success exactly for a hop that answered and failure exactly for one that did not, each hop at most once, and ends with the first success; the log holds as many successes and failures of a provider as the walks report |
| FallbackWalks.NoProbeLeaks | src/ai/adapters/fallback-chain.ts:25-100 | once every walk has returned, each provider was told one outcome for each request it admitted, and no probe is in flight |
| FallbackWalks.WholeWalkIsWalkLog | src/ai/adapters/fallback-chain.ts:25-100 | a walk's steps, undisturbed, are the calls of the hops up to the first that succeeds |
| FallbackWalks.LoopEndsThere | src/ai/adapters/fallback-chain.ts:25-100 | the chain's loop ends at the same hop |
| ChunkBlocks.SplitOversizedBlock | src/ingestion/chunk.blocks.ts:148-164 | the windows tile the text, non-empty, at most 1600 characters, cut at the last space in reach; the `end === start` branch is never taken |
| ChunkBlocks.TilesUnique | src/ingestion/chunk.blocks.ts:148-164 | there is one such tiling |
| ChunkBlocks.WindowsJoin | src/ingestion/chunk.blocks.ts:148-164 | the windows concatenate to the text |
| ChunkBlocks.BuildChunksFromBlocks | src/ingestion/chunk.blocks.ts:79-126 | the chunks render a plan of the ordered blocks: greedy groups under the token cap, and oversized blocks split into windows; every chunk shows either a run of whole blocks, each block's text at the sum of the earlier lengths plus one for each block before it and a line break between any two, or a window of one oversized block |
| ChunkBlocks.BuiltUnique | src/ingestion/chunk.blocks.ts:79-126 | the blocks determine the chunks |
| ChunkBlocks.JoinLaysOut | src/ingestion/chunk.blocks.ts:92-92 | the texts joined are the one text that has each block's text at its offset, a line break between any two, and nothing else |
| ChunkBlocks.BuiltShows | src/ingestion/chunk.blocks.ts:79-164 | every built chunk shows the blocks named by its ids in that layout, with their pages and span, or a window of an oversized block, cut at the last space in reach; a token counts four characters |
| ChunkBlocks.BuiltChunks | src/ingestion/chunk.blocks.ts:44-126 | the chunks are numbered 0 to n-1 and start every block once, in ordinal order; without empty blocks none exceeds 500 tokens; with distinct block ids each reconstructs to its own text |
| ChunkBlocks.PlanUnique | src/ingestion/chunk.blocks.ts:79-126 | greedy packing leaves no freedom: the blocks have one plan |
| ChunkBlocks.ChunkCeiling | src/ingestion/chunk.blocks.ts:79-126 | when no block is empty, no chunk has more than 500 tokens |
| ChunkBlocks.CeilingHoldsIff | src/ingestion/chunk.blocks.ts:79-126 | no chunk of a plan has more than 500 tokens exactly when each group's texts and joiners fit in 2000 characters |
| ChunkBlocks.BuiltUnderCeilingIff | src/ingestion/chunk.blocks.ts:79-126 | the same of the chunks built from any blocks, whose plan is unique |
| ChunkBlocks.CeilingIsTight | src/ingestion/chunk.blocks.ts:79-126 | 400 one-token blocks are built into one chunk of exactly 500 tokens |
| ChunkBlocks.EmptyBlocksBreakCeiling | src/ingestion/chunk.blocks.ts:79-126 | 2002 empty blocks are built into one chunk of 501 tokens |
| ChunkBlocks.ChunksCoverBlocks | src/ingestion/chunk.blocks.ts:79-126 | the chunks cover the blocks in ordinal order, each exactly once |
| ChunkBlocks.ChunksAreNumbered | src/ingestion/chunk.blocks.ts:79-126 | chunk ordinals are 0 to n-1 |
| ChunkBlocks.OrderedByOrdinal | src/ingestion/chunk.blocks.ts:84-84 | the blocks are taken in ordinal order, equal ordinals in the order given |
| ChunkBlocks.ReconstructChunkText | src/ingestion/chunk.blocks.ts:44-59 | there is a text exactly when all named blocks are there; it is the stretch between the two positions of the text that has the named blocks' texts laid out in order with line breaks |
| ChunkBlocks.ReconstructedShows | src/ingestion/chunk.blocks.ts:44-59 | the same of the specification, which the staleness test shares |
| ChunkBlocks.IsChunkStale | src/ingestion/chunk.blocks.ts:61-72 | stale exactly when the text cannot be reconstructed or differs |
| ChunkBlocks.BuiltChunksAreFresh | src/ingestion/chunk.blocks.ts:44-126 | with distinct block ids, every built chunk reconstructs to its own text, however the blocks are listed |
| EmbedBlocks.PlanEmbedBatches | src/ai/embed/embed.blocks.ts:17-46 | the requests partition the texts in order, each within 1000 texts and 320000 tokens unless it is one text, and none could take the next text |
| EmbedBlocks.GreedyIsOptimal | src/ai/embed/embed.blocks.ts:17-46 | no other contiguous partition within the caps has fewer requests |
| EmbedBlocks.OneRequestIff | src/ai/embed/embed.blocks.ts:17-46 | the texts make one request exactly when there is a text, at most 1000 of them, and together, at four characters a token, at most 320000 tokens unless there is only one |
| EmbedBlocks.GreedyIsUnique | src/ai/embed/embed.blocks.ts:17-46 | the greedy partition is unique |
| EmbedBlocks.GroupByProject | src/ai/embed/embed.blocks.ts:48-61 | groups by project in order of first appearance, items in order |
| EmbedBackfill.EmbeddingStore.EmbedChunks | src/ai/embed/embed.service.ts:114-141 | the missing rows of the chunks are added; skipped counts the chunks already embedded, written the rows actually inserted; rows that are all ok stay so, and then the two counts add up to the chunks; every request holds chunks of one project within the caps |
| EmbedBackfill.EmbeddingStore.Run | src/ai/embed/embed-backfill.service.ts:36-78 | the paging loop hands every chunk of the scope on exactly once, in order, also when the scope's size is a multiple of 500; afterwards every chunk has a row of its text under this very model version, older rows are untouched and new ones ok; skipped counts the chunks that had an ok row of this version; scanned = written + skipped exactly when no chunk of the scope has a row that is not ok, and always when all rows are ok, which the run keeps |
| EmbedBackfill.RunFills | src/ai/embed/embed.service.ts:114-203 | what a run adds, told by chunk id, model version and content hash: rows of another version or another text do not count |
| EmbedBackfill.OkNeverBlocks | src/l0/adapters/prisma/prisma-embedding-store.adapter.ts:100-136 | inserting keeps all rows ok, and among such rows no chunk is blocked |
| EmbedBackfill.NoneBlockedIff | src/l0/adapters/prisma/prisma-embedding-store.adapter.ts:80-98 | none are counted as blocked exactly when no chunk has a row that is not ok |
| EmbedBackfill.BlockedChunkUncounted | src/ai/embed/embed.service.ts:114-141 | a run over one chunk whose row is not ok scans one chunk, and writes and skips none |
| EmbedBackfill.EmbeddingStore.RunTwice | src/ai/embed/embed-backfill.service.ts:36-78 | a second run writes nothing and leaves the rows as they are |
| EmbedBackfill.PageAt | src/ai/embed/embed-backfill.service.ts:45-70 | the page after the last visited id is the next stretch of the scope, short only at its end |
| EmbedBackfill.AddedCount | src/ai/embed/embed.service.ts:114-204 | the rows gained are the chunks with no row of this model version yet |
| OutboxRelay.OutboxRelayService.RunOnce | src/platform/events/consumer-idempotency.service.ts:20-34 | the effect is applied exactly when the event's key is not set, and then the key is set |
| OutboxRelay.OutboxRelayService.ExecuteTick | src/platform/events/outbox-relay.service.ts:38-108 | an undisturbed tick relays the rows in order; it marks exactly the rows whose version is not above the highest known for their type, counts the others as parked, counts as skipped the rows of unknown type, unknown version or refused payload, and runs each event's handler once if a row needs it and its key is not set |
| OutboxRelay.VerdictMeans | src/platform/events/event-dispatcher.service.ts:40-97 | a row is parked exactly when its type is known and its version above the highest known one, and handled exactly when type, version, schema, payload and handler are in order, read off its envelope, or off its columns without one |
| OutboxRelay.RelayAllAccounts | src/platform/events/outbox-relay.service.ts:38-108 | a tick marks exactly the rows not of a future version, and counts the others as parked |
| OutboxRelay.RelayAllMarks | src/platform/events/outbox-relay.service.ts:38-108 | exactly the rows that are not parked are marked and counted as published |
| OutboxRelay.RelayAllRuns | src/platform/events/outbox-relay.service.ts:38-108 | an undisturbed tick runs an event's handler once if a row needs it and its key is not set, otherwise not |
| OutboxRelay.HandlerRuns | src/platform/events/consumer-idempotency.service.ts:20-34 | in every history with faults between any two effects, an event's handler starts at most once more than it was interrupted |
| OutboxRelay.InvHolds | src/platform/events/outbox-relay.service.ts:38-108 | every step and fault keeps the invariant that marked rows are settled and ticks account for their rows |
| OutboxRelay.RelayedMeansSettled | src/platform/events/outbox-relay.service.ts:38-108 | in every history a relayed row's type is unknown or its version at most the highest known one; if type and schema are known, the payload is accepted and a handler is registered, a handler ran to its end for its event |
| OutboxRelay.RelayedOwnHandlerRan | src/platform/events/event-dispatcher.service.ts:40-97 | when no other row carries the event, it was the row's own handler that ran |
| OutboxRelay.TickAccountsForRows | src/platform/events/outbox-relay.service.ts:38-108 | a complete tick has published + parked = rows listed, and every listed row that is not of a future version is marked |
| OutboxRelay.MarkedOnce | src/platform/events/outbox-relay.service.ts:38-108 | in every history a row is marked at most once |
| OutboxRelay.ListsFirstUnrelayed | src/l0/adapters/prisma/prisma-outbox.adapter.ts:76-93 | a tick lists unrelayed rows in table order, at most as many as fit, and leaves one out only for want of room and behind those it lists |
| OutboxRelay.FinishIsRelayAll | src/platform/events/outbox-relay.service.ts:38-108 | without faults, the separate effects add up to the undisturbed tick |
| OutboxRelay.ParkedBatchRepeats | src/platform/events/outbox-relay.service.ts:38-108 | a batch of rows of future versions only is listed again unchanged: it holds up the rows behind it |
| InputFingerprint.ReadQuotation | src/ai/gateway/input-fingerprint.ts:11-11 | a quoted string can be read back from any text that starts with it |
| InputFingerprint.Decode | src/ai/gateway/input-fingerprint.ts:9-21 | a text that starts with the prints of two values was printed from equal trees, and the rest agrees |
| InputFingerprint.DecodeItems | src/ai/gateway/input-fingerprint.ts:15-15 | the same of two non-empty item lists, item by item |
| InputFingerprint.DecodeMembers | src/ai/gateway/input-fingerprint.ts:18-20 | the same of two member lists, key by key |
| InputFingerprint.AscendingUnique | src/ai/gateway/input-fingerprint.ts:19-19 | a set of keys has one sorted listing |
| InputFingerprint.Encode | src/ai/gateway/input-fingerprint.ts:9-21 | equal trees print equally, whatever the order of their keys |
| InputFingerprint.SerializesAlikeIffSameTree | src/ai/gateway/input-fingerprint.ts:9-21 | two values serialize alike exactly when they are the same key-to-value tree, `[undefined]` counting as `[]` and non-finite numbers as null |
| InputFingerprint.SerializesAlikeIffReordered | src/ai/gateway/input-fingerprint.ts:9-21 | on JSON values: exactly when they differ only in the order of object keys, at any depth |
| JsonReader.ReadBack | src/ai/gateway/input-fingerprint.ts:9-21 | a reader after RFC 8259, written without the serializer, reads the serialized value back as its tree, for every value without undefined |
| JsonReader.MembersInOrder | src/ai/gateway/input-fingerprint.ts:18-20 | the members it finds in a serialized object stand in ascending order of their keys' code units |
| InputFingerprint.UndefinedCollides | src/ai/gateway/input-fingerprint.ts:9-16 | `[undefined]` and `[]` collide, and so do NaN and null |
| Rrf.AddArm | src/retrieval/rrf.ts:76-107 | after an arm, each chunk seen has one entry merged from all its hits so far, in order of first sight |
| Rrf.FuseRrf | src/retrieval/rrf.ts:27-56 | an error exactly when a hit lacks an identity; otherwise each chunk once, its fields the first there are, sorted by score |
| Rrf.FusedScore | src/retrieval/rrf.ts:76-107 | a score is the sum of 1/(60+rank) over all the chunk's positions in both arms |
| RetrievalLaws.FusedFields | src/retrieval/rrf.ts:76-107 | a candidate's project and document are those of the first hit of its chunk, vector arm first; text and each score are the first there are, none if no hit has one |
| Rrf.SwappingArms | src/retrieval/rrf.ts:47-56 | swapping the arms leaves ids, scores and order unchanged |
| Rrf.DominanceWins | src/retrieval/rrf.ts:47-114 | in duplicate-free arms, a chunk ranked no worse in each and better in one comes first |
| Rrf.RerankPermutes | src/retrieval/rrf.ts:58-74 | reranking permutes the fused list into descending score, a missing score being 0, ties in fused order |
| Retrieval.MapEvidence | src/retrieval/evidence-map.ts:4-32 | every hit gets all evidence of its chunk, and the source of the first, else the document's last listed source, else the document |
| Retrieval.ApplyQualityFilter | src/retrieval/quality-filter.ts:17-53 | keeps the hits whose chunk has no evidence or some that passes, with exactly the passing evidence |
| Retrieval.RerankFused | src/retrieval/retrieval.service.ts:253-302 | the model's scores rank only for the API role and one score per candidate, else BM25 does; no branch loses a candidate |
| Retrieval.Retrieve | src/retrieval/retrieval.service.ts:53-188 | each error exactly when its cause holds; otherwise the first k surviving candidates in reranked order, distinct chunks of the project, the shortfall the number outside the project, the fallbacks those that happened |
| Retrieval.AllAreSurvivors | src/retrieval/retrieval.service.ts:140-149 | recheck, evidence mapping and quality filter together are one filter of the reranked list |
| Retrieval.AllCarry | src/retrieval/quality-filter.ts:34-74 | every kept hit carries exactly its chunk's passing rows, and is called body grounded exactly when one of them is or it had none |
| Retrieval.SameInside | src/retrieval/retrieval.service.ts:140-141 | the recheck drops as many reranked candidates as fused ones lie outside the project |
| Retrieval.HitsAreSound | src/retrieval/retrieval.service.ts:119-149 | whichever scores ranked: at most k hits, distinct chunks, all of the project, in order of rerank score, all of them fused candidates |
| RetrievalLaws.RankedAsScored | src/retrieval/retrieval.service.ts:253-302 | each fused candidate once, with the score at its place or 0, by higher rerank score, then higher fused score, then lesser id |
| RetrievalLaws.AnswerShows | src/retrieval/retrieval.service.ts:119-149 | the hits are the first k candidates of the project whose chunk has no evidence, or some that scores at least one half and is resolved (or asked for unresolved); each lists exactly that evidence, in order, its annotation and its source |
| RetrievalLaws.RetrieveShows | src/retrieval/retrieval.service.ts:53-188 | all of it for a whole retrieval, with the evidence looked up for the project's candidates only, and the report: how it ranked, which fallbacks happened, how many candidates lay outside the project |
| ChatContext.Dedupe | src/orchestration/chat-context.ts:51-59 | keeps the hits whose chunk no earlier hit has |
| ChatContext.DiversifyByDocument | src/orchestration/chat-context.ts:101-122 | the loop ends, having taken the heads of the documents' queues round after round |
| ChatContext.DiversifyIsFair | src/orchestration/chat-context.ts:101-122 | every document keeps all its hits in order; every r-th hit comes before any next one, in order of first appearance |
| ChatContext.FairIsUnique | src/orchestration/chat-context.ts:101-122 | only one list does that |
| ChatContext.DiversifyPermutes | src/orchestration/chat-context.ts:101-122 | diversifying is a permutation |
| ChatContext.Select | src/orchestration/chat-context.ts:62-88 | the longest prefix within the chunk cap and, unless it is one chunk, the token budget; truncated exactly when it is strict (or the cap is negative) |
| ChatContext.UniqueStable | src/orchestration/chat-context.ts:128-139 | every id once, where it first appears |
| ChatContext.AssembleChatContext | src/orchestration/chat-context.ts:30-99 | the context is that prefix of the line-up, each chunk a copy of its hit, with the duplicate-free union of the evidence ids |
| ContextLaws.ContextCites | src/orchestration/chat-context.ts:62-99 | the i-th chunk repeats id, document, text, source, evidence ids and annotation of the i-th hit offered; an evidence id is in the context exactly when one of these hits refers to it, once |
| ContextLaws.ContextFilled | src/orchestration/chat-context.ts:62-88 | as many hits as fit: the next one would break the chunk cap or the token budget, at one token for every four characters begun and at least one |
| ContextLaws.ContextByDefault | src/orchestration/chat-context.ts:1-99 | without options the caps are 8 chunks and 3000 tokens |
| ChatContext.LineupIsGrounded | src/orchestration/chat-context.ts:43-59 | only hits with evidence are offered, each chunk once |
| ChatContext.LineupHasBest | src/orchestration/chat-context.ts:44-59 | every grounded hit's chunk is offered, by a hit that scores at least as high |
| ContextLaws.LineupBestFirst | src/orchestration/chat-context.ts:41-59 | each document's hits are offered by higher score, equal scores by lesser id |
| AuthTokens.AuthTokenStore.ReplaceOutstanding | src/l0/adapters/prisma/prisma-auth-token.adapter.ts:13-39 | spends the user's outstanding tokens of the purpose and adds the new one, or changes nothing when the hash is taken |
| AuthTokens.AuthTokenStore.ConsumeIfUnspent | src/l0/adapters/prisma/prisma-auth-token.adapter.ts:41-111 | spends the token exactly when it is consumable; the outcome is read off the table as it was |
| AuthTokens.CountConsumable | src/l0/adapters/prisma/prisma-auth-token.adapter.ts:51-61 | the update touches at most one row |
| AuthTokens.IssuedRow | src/l0/adapters/prisma/prisma-auth-token.adapter.ts:13-111 | over any serial run, an issued token's row is unconsumed exactly while it is the latest of its user and purpose and was not consumed |
| AuthTokens.ConsumedExactlyWhen | src/l0/adapters/prisma/prisma-auth-token.adapter.ts:41-111 | consuming succeeds exactly for the latest issued, never consumed, unexpired token, and names its user; expired exactly when only the date fails |
| AuthTokens.ConsumedOnce | src/l0/adapters/prisma/prisma-auth-token.adapter.ts:41-111 | no token is consumed twice |
| AuthTokens.OneOutstandingAlways | src/l0/adapters/prisma/prisma-auth-token.adapter.ts:13-39 | at most one token of a user and purpose is outstanding |
| AuthTokens.SpentRowsDated | src/l0/adapters/prisma/prisma-auth-token.adapter.ts:13-111 | over any run, a spent row bears the time of a call that spends it: a later token of its user and purpose, or its own consumption |
| JobLiveness.RedisJobLivenessStore.Register | src/platform/reliability/redis-job-liveness.store.ts:18-22 | writes the record under its organisation and indexes it once |
| JobLiveness.RedisJobLivenessStore.Heartbeat | src/platform/reliability/redis-job-liveness.store.ts:24-34 | rewrites the indexed record with the new time, or does nothing |
| JobLiveness.RedisJobLivenessStore.Remove | src/platform/reliability/redis-job-liveness.store.ts:40-49 | drops the record and its index entry |
| JobLiveness.RedisJobLivenessStore.ListActive | src/platform/reliability/redis-job-liveness.store.ts:51-67 | lists the records behind the index in order, skipping those gone |
| JobLiveness.InMemoryJobLivenessStore.Heartbeat | src/platform/reliability/in-memory-job-liveness.store.ts:11-19 | the map's record gets the new time and keeps its place |
| JobLiveness.GetAgrees | src/platform/reliability/redis-job-liveness.store.ts:69-83 | a lookup through the index finds what the map holds |
| JobLiveness.ListAgrees | src/platform/reliability/redis-job-liveness.store.ts:51-67 | both list the same records in the same order |
| JobLiveness.RegisterAgreesIff | src/platform/reliability/redis-job-liveness.store.ts:18-22 | registering keeps the stores in step exactly when the job is not active under another organisation |
| JobLiveness.RegisteredTwice | src/platform/reliability/redis-job-liveness.store.ts:18-67 | registered while active under another organisation, the job is listed as it was and again as it is now |
| JobLiveness.ListingsAgreeIff | src/platform/reliability/redis-job-liveness.store.ts:18-67 | after a registration the two stores list the same records exactly when the job was not active under another organisation |
| JobLiveness.RemoveAgrees | src/platform/reliability/redis-job-liveness.store.ts:40-49 | removing keeps them in step |
| JobLiveness.CacheRefinesMap | src/platform/reliability/redis-job-liveness.store.ts:18-115 | over any run without such a registration every answer is the map's |
| JobLiveness.CacheRefinesMapIff | src/platform/reliability/redis-job-liveness.store.ts:18-115 | a run has no such registration exactly when after each of its beginnings both stores have given the same answers and list the same records |
| JobLiveness.MovedJobListedTwice | src/platform/reliability/redis-job-liveness.store.ts:18-67 | registered under one organisation, then another, then listed: the cache store answers with both records, the map with the last |
| JobLiveness.OneOrgRefines | src/platform/reliability/redis-job-liveness.store.ts:18-115 | in particular when each job always registers under one organisation |
| JobLaws.AnswersLatest | src/platform/reliability/in-memory-job-liveness.store.ts:7-24 | over any run, a lookup answers with the last registration of the job not removed since, with the time of its last heartbeat |
| JobLaws.ListsLatest | src/platform/reliability/in-memory-job-liveness.store.ts:7-32 | a listing holds exactly the latest records of the active jobs |
| JobLaws.SameKeyIff | src/platform/reliability/in-memory-job-liveness.store.ts:34-36 | two jobs share a key exactly when they are the same, or the longer queue name goes on with a colon and the text that the other id begins with |
| JobLaws.PlainQueuesApart | src/platform/queues/queue-names.ts:5-31 | as long as no queue name holds a colon, and none does, no two jobs of a run share a key |
| JobLaws.OverlapConfuses | src/platform/reliability/in-memory-job-liveness.store.ts:7-36 | with overlapping names one job is found under the other's |
| Evidence.ValidateBodyGrounded | src/evidence/evidence.repository.ts:204-270 | accepted exactly when rights, chunk, version, block, page and quote all agree; a refusal names one that does not; the accepted quote's characters other than white space stand in one stretch of the chunk's |
| Quotes.MatchIsStretch | src/evidence/locator.ts:48-52 | when a quote matches, its characters other than white space are a contiguous stretch of the source's, and there are some |
| Quotes.StretchMatches | src/evidence/locator.ts:48-52 | every stretch of the source with a character other than white space matches |
| Evidence.GroundedIff | src/evidence/evidence.repository.ts:204-270 | admission stated over the records: document, version, chunk, block and page of the right project, kept together by their ids, and the quote |
| Evidence.UuidGroups | src/platform/ids/uuid-v7.ts:32-34 | an id is well formed exactly when it is 8, 4, 4, 4 and 12 hexadecimal digits joined by dashes |
| Evidence.ValidateMetadataOnly | src/evidence/evidence.repository.ts:272-298 | accepted exactly when there is a locator and a named chunk may be quoted and is the project's |
| Evidence.DescribedIff | src/evidence/evidence.repository.ts:272-298 | the same for metadata-only evidence: a locator with fields, and a named chunk is there, is the project's and may be quoted |
| Evidence.WellFormedIff | src/evidence/evidence.repository.ts:112-147 | the other demands on an input: a character other than white space, a finite score, a polarity of -1, 0 or 1 if any, and an execution id for a model's extraction |
| Evidence.StoredSays | src/evidence/evidence.repository.ts:183-199 | the stored row says what the input said, unresolved without a stance, its execution id only if well formed |
| Evidence.EvidenceRepository.Create | src/evidence/evidence.repository.ts:112-202 | a row is stored exactly when the input is admissible, every error names something that is wrong with it, a stored body-grounded row quotes its chunk, and every stored body-grounded row still projects completely |
| Evidence.EvidenceRepository.Supersede | src/evidence/evidence.repository.ts:95-110 | stores the replacement and points the previous row at it, or changes nothing |
| Evidence.GroundedProjectsIff | src/evidence/evidence.repository.ts:204-270 | an admitted body-grounded row projects completely exactly when its chunk's document is filed under the project, which holds in an intact store |
| Evidence.EvidenceRepository.WalkChain | src/evidence/sentence-projection.service.ts:141-248 | complete exactly when no hop is missing, otherwise the missing hops in order; the last defensive branch cannot be reached |
| Evidence.MissingHopsAre | src/evidence/sentence-projection.service.ts:158-216 | the listed hops are the missing ones, none exactly when the row projects |
| Evidence.ProjectsIff | src/evidence/sentence-projection.service.ts:141-248 | no hop is missing exactly when all the records are there, are the project's and fit each other |

## Left out

- Redis, Prisma, queues, HTTP, providers, logging, metrics and tracing: the ports are maps, counters and sequences with atomic operations, and failures of the ports themselves are not modelled except where a module says so.
- Counter expiry, key expiry and cache flushes: they break the counting and the at-most-once argument by design.
- `GateSlotRegistry`, and the gate's display reads (`isOrgOverHardLimit`, metrics refresh): conservation is proved at the gate.
- Several relay processes, attempt counts, the advisory projections and the abort switch of the relay: one process with faults between any two effects is modelled.
- Embedding vectors, gateway failures and partial documents in the embedding service: every gateway call succeeds.
- Chunk content hashes and ids: chunks are compared by text.
- `localeCompare` is a parameter: a strict weak order where order is all that is needed, a total order on ids for swapping arms. `toUpperCase`, BM25 and the evidence lookup are parameters too.
- Floating point: scores, costs and rates are reals, so rounding is not modelled; a number in the serializer is the numeral that JSON.stringify writes.
- Values of the serializer with `toJSON`, functions, symbols, bigints or cycles; a key of an object is listed once.
- The text of the assembled chat prompt (`documentContent`) and the constant `locatorPreserved` flag.
- The two searches, query understanding, timings, the trace and the ids of reranking executions in `retrieve`; errors thrown by the searches other than an unavailable arm.
- The e-mail and organisation of a consumed token, and clashes of generated row ids; the last-moment `null` answer of the second lookup cannot occur in one transaction.
- JSON encoding of cached job records is taken to be lossless, and the payload is one opaque text.
- Locators of metadata-only evidence: a field of another type is read as absent, where the database adapter would convert it; the database's own refusal of malformed ids is not modelled.
- `update`, `remove`, `admitModel` and listing in the evidence repository, and grouping chains by sentence.
- ConcurrencyGate.BatchConcurrencyGate.TryAcquireImmediate: calls of other clients are any sequence of increments and decrements that keeps each counter at its number of holders; the step machine says which such sequences there are.
- What the hops of a chain do besides answering: logging and the construction of their requests.
- FallbackChain.ProviderCircuitBreakerRegistry.Get: the limits a registry can be configured with are the defaults.
