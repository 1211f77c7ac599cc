# Verification of the ingestion pipeline

A Dafny model of the in-memory ingestion pipeline and proofs about it: the per-source token bucket, the dispatcher with
its worker pool and batcher, the dead-letter log, the stream consumer, the HTTP ingest handler over pooled buffers, and
the service that they form together.
`dafny verify dfyconfig.toml` checks the whole project.

## How the model is laid out

The concurrent parts are step systems. Each section under a lock and each channel operation is one atomic step, a run
is any sequence of enabled steps, and the theorems quantify over all runs. The histories that the theorems speak of
(accepted, dequeued, judged, the limiter's log, the readers' attempts) are written by the steps; the only use that a
step makes of one is to name the place in the accepted sequence that a submitter counts as ingested.

- `TokenBucket` is the arithmetic of one bucket, on `real` times and tokens. `RateLimiter` is the shared map as a log of
  its critical sections (look-up and allow apart), with the bucket and the map as objects.
- `Batching` is the batcher: its two lock sections as functions, and the object whose `Add` joins them when nothing runs
  in between.
- `HandlerChain` is the chain over handlers that may keep state, with the limiter as one of them; `ChainLimits` is what
  the limiter then guarantees over any sequence of payloads; `Validation` has the two validators.
- `Pipeline` is the step system of submitters, the bounded channel, N workers with program counters, the limiter, the
  batcher, the dead letters and the counters, each counter bumped in a step of its own. A handler other than the limiter
  may answer anything at any time: ok, error or panic. `PipelineSafety` holds the invariants; `PipelineTheorems`,
  `PipelineLimits` and `PipelineWitnesses` the results.
- `Dispatching` is the dispatcher as an object, in the code of one worker; `ProcessIsARun` ties its result to a run of
  the step system.
- `Stream` adds consumer-group readers and their environment (stream, cursor, pending and acknowledged entries) to the
  pipeline; `StreamSafety` and `StreamAcks` are about all its runs, `StreamShutdown` about cancellation;
  `StreamReader` is the body of one reader's loop over the dispatcher object.
- `PooledIngest` is any number of ingest handlers, one byte at a time, over shared arrays, pooled objects and a pool that
  may allocate or evict whenever it likes; `PooledReuse` is a run in which a buffer is reused; `Ingestor` is the same
  handler as one goroutine runs it over real arrays.
- `Service` puts the handlers of `PooledIngest`, the readers of `Stream` and the workers of `Pipeline` together;
  `ServiceShutdown` shows that it can always be shut down. `Projection` finds the run of each smaller system inside a run
  of a larger one, and `SystemLimits` carries the pipeline's bounds over.
- `DeployedChain` fixes the chain to the limiter followed by the two validators (docs/architecture.md:460-465), where
  `Pipeline` lets handlers answer anything, and says what then reaches the batcher.
- `JsonText`, `Float64`, `Base64` and `Utf8` are the encodings the rest needs, with `JsonLaws` for the JSON texts that
  the printer does not write; `Translator`, `Validation` and `DeadLetter` are built on them, and `TranslatorLaws` says in
  terms of the decoded request what is taken and what is made of it.

Preconditions come from configuration validation (config/config.go:211-219, config/config.go:242-249): at least one
worker, one channel slot, one item per batch, and rate and burst at least one when limiting is on. Identifiers, clock
readings, time formatting, error texts and what freshly allocated memory contains are parameters. No `Submit` follows
`Shutdown` (internal/dispatcher/dispatcher.go:147-151); sinks and metrics do not panic.

## Where the code and its documentation differ

The model follows the code.

- internal/streamingestor/streamingestor.go:6-8 says that Redis will redeliver a message refused for backpressure. The
  reader asks only for new messages (internal/redisstore/redisstore.go:76), so within a process it never sees it again:
  `StreamSafety.BackpressureIsFinal`, and `StreamShutdown.BackpressureHappens` for a run in which it is refused.
- internal/ingestor/ingestor.go:181-182 says that the default translator may set the body to a sub-slice of the pooled
  bytes. `json.RawMessage` copies when it decodes, so only the missing-body case (internal/translator/translator.go:118)
  aliases. The model lets any other translator return any window.
- One would expect a translated event with a source and an event type to pass the two validators. There are two families
  of requests for which it does not. A body number may overflow float64, such as `1e400`: the validators decode the whole
  event into a generic map, and the ingest path does not. And the body may be nested 10000 deep, which the decoder and
  the encoder still take, but not with the event's own brackets around it.
  `Validation.PassthroughMeetsValidation` is the exact condition, `Validation.ValidEventRejected` and
  `Validation.DeepEventRejected` are requests for which it fails.
- docs/architecture.md:248 has a ticker goroutine that flushes, and docs/architecture.md:479 a final flush in `Stop`. The
  code has neither (internal/batcher/batcher.go:25, internal/batcher/batcher.go:64-66), so a shutdown can leave accepted
  payloads in the buffer: any number below max_size (`PipelineWitnesses.RemainderAttained`), never more
  (`PipelineTheorems.ShutdownDrains`), and with one worker and no other flush exactly the remainder of what passed
  (`PipelineTheorems.LeftBehind`).

## Model

| member | source | states |
|---|---|---|
| TokenBucket.ClosedForm | internal/middleware/ratelimit.go:36-54 | The lazily refilled level is the minimum, over all windows ending now, of burst + rate × length − admissions; it is at most each of them and equals the returned one |
| TokenBucket.Exactness | internal/middleware/ratelimit.go:24-54 | A request is admitted if and only if, for every window that ends at it, the admissions so far plus one are at most the configured burst size plus the configured rate times the window's length |
| TokenBucket.WindowBound | internal/middleware/ratelimit.go:36-54 | The bucket's own decisions respect the burst-plus-rate bound in every window that ends with an admission |
| TokenBucket.WindowBoundAt | internal/middleware/ratelimit.go:24-54 | Between any two requests of any run, admissions are at most the configured burst size plus the configured rate times the elapsed time |
| TokenBucket.Optimality | internal/middleware/ratelimit.go:36-54 | No policy that respects all windows has admitted more at any prefix of the same requests |
| TokenBucket.ConformingSourceNeverDenied | internal/middleware/ratelimit.go:36-54 | A source whose own traffic respects all windows is never denied |
| TokenBucket.DenialsLeaveNoTrace | internal/middleware/ratelimit.go:40-53 | Deleting any set of denied requests from a trace leaves all other decisions, and the bucket's future, unchanged |
| TokenBucket.RefillSplits | internal/middleware/ratelimit.go:40-47 | A clipped refill in two parts is one clipped refill |
| TokenBucket.CreationTimeIrrelevant | internal/middleware/ratelimit.go:24-32 | A full bucket decides alike whenever before the first request it was created |
| TokenBucket.TokensInRange | internal/middleware/ratelimit.go:44-52 | Tokens stay between zero and the burst size |
| RateLimiter.Isolation | internal/middleware/ratelimit.go:72-94 | For any interleaving of sources and of look-ups with allows, the shared map holds for a source what a bucket of its own would hold, and gave its answers |
| RateLimiter.PerSourceRefinement | internal/middleware/ratelimit.go:72-94 | The answers to one source equal those of a single bucket created eagerly at any earlier time and run on that source's requests alone |
| RateLimiter.AdmissionBound | internal/middleware/ratelimit.go:72-94 | Through the shared map, a source's admissions stay within burst + rate × time since its first request |
| RateLimiter.Bucket.Allow | internal/middleware/ratelimit.go:36-54 | In-place refill, clip and take: the answer and the whole new bucket are those of the specification that the theorems are about |
| RateLimiter.Limiter.BucketFor | internal/middleware/ratelimit.go:84-94 | Returns the one bucket of the source, created full on first access; every other bucket stays as it was and no object is shared |
| RateLimiter.Limiter.Handle | internal/middleware/ratelimit.go:72-81 | One request is a look-up step and then an allow step of the log |
| Batching.SequentialIsChunking | internal/batcher/batcher.go:35-61 | After n adds to a fresh batcher the batches are the first n / max_size consecutive chunks of the input and the buffer is the rest |
| Batching.FlushesKeepOrder | internal/batcher/batcher.go:35-61 | With any explicit flushes, batches followed by the buffer are the add order, and batches are neither empty nor oversized |
| Batching.Batcher.Add | internal/batcher/batcher.go:35-44 | Append, and drain when the limit is reached: the new state is that of the chunking specification |
| Batching.Batcher.Flush | internal/batcher/batcher.go:49-61 | The whole buffer becomes one batch; an empty buffer yields none |
| PipelineSafety.Reachable | internal/dispatcher/dispatcher.go:83-155 | In every state of every run: the channel is a bounded FIFO; every payload taken from it was judged once or is still being checked; what the chain let through or stopped is in the right sink or in hand; counters lag by the goroutines in between; batches are bounded |
| PipelineTheorems.Conservation | internal/dispatcher/dispatcher.go:83-145 | Under every schedule the accepted payloads are the disjoint union of channel, hands, buffer, batches and dead letters; the payloads whose chain ended ok are those with the batcher or in the hand of a worker about to add them, and those it failed or panicked on are the dead letters or about to be pushed |
| PipelineTheorems.BoundedFifo | internal/dispatcher/dispatcher.go:83-104 | Accepted = dequeued followed by the channel's contents, never more than the buffer size |
| PipelineTheorems.TakenInTime | internal/dispatcher/dispatcher.go:83-104 | Bounded waiting: whoever else submits and however steps interleave, an accepted payload has been taken once workers have made 7 × (buffer size + workers) steps |
| PipelineTheorems.CounterReconciliation | internal/dispatcher/dispatcher.go:110-145 | In every state, ingested + submitters between Submit and the count = accepted, and each failure counter is behind its event by at most the workers; with workers at rest, dead letters counted = pushed = rejections with the validation code + panics, and ingested + submitters in between = delivered + dead letters + queued |
| PipelineTheorems.OvershootBound | internal/batcher/batcher.go:35-61 | The buffer is at most max_size − 1 plus the adders that saw it full and have not drained; every batch has 1 to max_size − 1 + workers items; with no adder in between, the buffer is below the limit |
| PipelineTheorems.FlushEmpties | internal/batcher/batcher.go:49-61 | A flush from outside turns the buffer into one batch, leaves it empty and loses nothing |
| PipelineWitnesses.OvershootAttained | internal/batcher/batcher.go:35-61 | For every configuration, limiter included, a run drains a batch of exactly max_size − 1 + workers items, so the bound is tight |
| PipelineWitnesses.RemainderAttained | internal/batcher/batcher.go:64-66 | For every configuration and every k below max_size there is a run in which shutdown has returned and k payloads are still in the buffer |
| PipelineTheorems.LeftBehind | internal/batcher/batcher.go:35-66 | With one worker and no outside flush, after shutdown the batches are the full chunks of what passed, in order, and the buffer its remainder: empty if and only if max_size divides the number that passed |
| PipelineTheorems.MoveDecreases | internal/dispatcher/dispatcher.go:99-145 | Every worker step strictly decreases a measure of queue, hands, pending flushes and live workers |
| PipelineTheorems.ShutdownTerminates | internal/dispatcher/dispatcher.go:152-155 | After the channel is closed, any run contains at most that many worker steps, whatever else happens in between |
| PipelineTheorems.LiveWorkerMoves | internal/dispatcher/dispatcher.go:99-122 | After the close, a worker that has not exited always has a step |
| PipelineTheorems.NothingEnabledMeansDone | internal/dispatcher/dispatcher.go:152-155 | Once closed, the wait returns if and only if no worker can move |
| PipelineTheorems.WorkersFinish | internal/dispatcher/dispatcher.go:152-155 | From every closed state that keeps the invariant the workers alone reach the point where the wait returns |
| PipelineTheorems.ShutdownDrains | internal/dispatcher/dispatcher.go:152-155 | When the wait returns, the channel is empty, no hand holds anything, and accepted payloads are exactly delivered plus dead letters, split by how their chain ended, whatever handlers panicked; the buffer is below max_size |
| PipelineTheorems.LoneWorkerOrder | internal/dispatcher/dispatcher.go:99-145 | With one worker, payloads are judged in accept order, and batcher order and dead-letter order are the two complementary selections from it, up to the payload in hand |
| PipelineLimits.SharedLimiterIsPerSource | internal/middleware/ratelimit.go:72-94 | Inside any run of the workers, each source gets the answers of its own fresh bucket, and they respect its windows |
| PipelineLimits.WorkersObeyTheLimiter | internal/middleware/ratelimit.go:72-81 | In every run, the workers that ask about a source's payloads go on or are stopped exactly as a full bucket of the source's own decides at the times when they ask; the payloads stopped are as many as its refusals |
| PipelineLimits.ThroughputBound | internal/dispatcher/dispatcher.go:132-144 | In every reachable state the payloads of one source ever given to the batcher are at most the configured burst size plus the configured rate times the time since its first limiter call |
| Dispatching.Dispatcher.Submit | internal/dispatcher/dispatcher.go:83-93 | Accepts exactly when the channel has room, appends at the end, and otherwise changes nothing |
| Dispatching.Dispatcher.ProcessOne | internal/dispatcher/dispatcher.go:110-145 | A passing payload goes to the batcher and nowhere else; a failing or panicking one is counted as such and as a dead letter, and goes to the dead-letter queue, with its source and bytes, and nowhere else |
| Dispatching.Dispatcher.Process | internal/dispatcher/dispatcher.go:99-104 | Ranging over a closed channel empties it: with the handlers' state threaded through, passing payloads are batched in order, the others recorded in order, and all are counted |
| Dispatching.Dispatcher.Shutdown | internal/dispatcher/dispatcher.go:152-155 | Close and drain: the same for everything that was queued |
| Dispatching.ProcessIsARun | internal/dispatcher/dispatcher.go:99-145 | The object's result, for any stateful handlers, is a result of the step system with one worker: some run from the closed queue ends with exactly these batches, dead letters and counters |
| Dispatching.RejectedPayloadRecovered | internal/dlq/dlq.go:58-71 | The record of a rejected payload decodes to its source and its exact bytes |
| DeadLetter.EntryRoundTrip | internal/dlq/dlq.go:18-71 | An encoded entry decodes to itself, raw bytes and a nil slice included, and contains no newline |
| DeadLetter.EntryMembers | internal/dlq/dlq.go:18-71 | The four members of a record, by name and in order, with the bytes in base64 or null |
| DeadLetter.FramingRoundTrip | internal/dlq/dlq.go:58-98 | For any sequence of pushes and closes with successful writes, over whatever the file held, splitting and decoding gives the finished earlier lines and then the entries pushed while open, in lock order; if the file ended in an unfinished line the first entry shares it; later entries are only in the log |
| DeadLetter.IntactEntryReadsBack | internal/dlq/dlq.go:76-81 | Whichever writes fail or stop short, an entry written in full behind a finished line keeps a line of its own and reads back |
| DeadLetter.FailedWriteCostsTwo | internal/dlq/dlq.go:76-81 | Over a whole run, an entry written in full reads back unless the write before it stopped short or the file began unfinished, and there are at most as many exceptions as such causes |
| DeadLetter.Queue.Push | internal/dlq/dlq.go:58-83 | One entry: while the file is open, as much of its terminated line as the write delivers; a log line afterwards |
| DeadLetter.Queue.Close | internal/dlq/dlq.go:88-98 | Idempotent switch from file to log |
| JsonText.ParseOfPrint | internal/dlq/dlq.go:65 | Printed JSON parses back to the same value, for every value whose numbers are legal literals |
| JsonText.UnmarshalOfPrint | internal/dlq/dlq.go:65 | The decoder takes a printed value back if and only if at most 10000 brackets are open at once |
| JsonText.PrintPrintable | internal/dlq/dlq.go:77 | Printed JSON holds no control character, so no newline (section 7 of RFC 8259) |
| JsonText.StringRoundTrip | internal/dlq/dlq.go:65 | Escaping a string and reading it back is the identity, for every character |
| JsonLaws.ParsedIsSpelled | internal/translator/translator.go:106 | Nothing but JSON is read: whatever parses as a value is a spelling of it by the grammar, with only space around it |
| JsonLaws.BlankBeforeTokens | internal/translator/translator.go:106 | White space in front of any token changes nothing |
| JsonLaws.BlankBeforeColon | internal/translator/translator.go:106 | Nor does it between a key and its colon |
| JsonLaws.BlankAround | internal/translator/translator.go:106 | Nor around a whole text |
| JsonLaws.ShortEscapes | internal/translator/translator.go:106 | Each of the eight two-character escapes reads as its character |
| JsonLaws.SurrogatePair | internal/translator/translator.go:106 | Two surrogate escapes read as the one character beyond the basic plane |
| JsonLaws.LoneSurrogate | internal/translator/translator.go:106 | A surrogate escape that is not the first half of a pair reads as the replacement character, and what follows it is read by itself |
| JsonLaws.PlainCharacters | internal/translator/translator.go:106 | Control characters are refused inside strings, all but quote and backslash stand for themselves |
| JsonLaws.PlainWhenSafe | internal/translator/translator.go:138 | Only characters that must be or are unsafe inside HTML are escaped, and all of these are |
| JsonLaws.EscapesWritten | internal/translator/translator.go:138 | How the escaped characters are written |
| JsonLaws.NumberGrammar | internal/translator/translator.go:106 | A literal is read as a number if and only if it has the form of section 6 of RFC 8259 |
| JsonLaws.SpellingReads | internal/translator/translator.go:106 | And then as the sign, digits, fraction and exponent that it spells |
| JsonLaws.DepthCounts | internal/translator/translator.go:106 | Nesting: scalars zero, an array or object one more than the deepest value inside it |
| Base64.RoundTrip | internal/dlq/dlq.go:22 | Decoding an encoded byte sequence gives it back (section 4 of RFC 4648) |
| Base64.OnlyEncoding | internal/dlq/dlq.go:22 | The encoding is the only text with zero pad bits that decodes to these bytes |
| Base64.Alphabet | internal/dlq/dlq.go:22 | The symbols are those of table 1 of RFC 4648, in order |
| Base64.SameBits | internal/dlq/dlq.go:22 | Three bytes are four symbols of the same 24 bits, the first in front |
| Utf8.TextRoundTrip | internal/dispatcher/dispatcher.go:139 | A strict decoder (marks, continuation bytes, scalar values, shortest forms; section 3 of RFC 3629) reads the bytes of a text back |
| Utf8.OnlyEncoding | internal/dispatcher/dispatcher.go:139 | And the bytes are the only ones that it reads as this text |
| Utf8.AsciiBytes | internal/dispatcher/dispatcher.go:139 | A text of ASCII characters is stored as their codes, one byte each |
| Translator.Registry.Register | internal/translator/translator.go:73-77 | The source now selects this translator, all others are as before |
| Translator.Registry.Translate | internal/translator/translator.go:81-89 | The translator registered for the source decides, and the default one where there is none |
| TranslatorLaws.PassthroughTakes | internal/translator/translator.go:100-108 | The default translator takes a request if and only if it decodes to null or an object in which every member that names the event type is null or a string and every one that names the timestamp null or a 64-bit integer |
| TranslatorLaws.PassthroughMakes | internal/translator/translator.go:110-127 | The event that results: last event type that is not null or the empty one, last such timestamp or the clock where there is none or it is zero, last body or the whole request |
| TranslatorLaws.Int64Literals | internal/translator/translator.go:103 | A timestamp field takes exactly the spellings of the 64-bit integers, each as the integer it spells |
| TranslatorLaws.KeyExamples | internal/translator/translator.go:101-105 | Keys match up to case, with the two letters that fold into ASCII, and not further |
| TranslatorLaws.PrepareOutcome | internal/ingestor/ingestor.go:186-207 | What translating, identifying and encoding comes to, member by member, and when it fails |
| Translator.PassthroughEncodes | internal/translator/translator.go:100-139 | Whatever the default translator accepts can be encoded, the encoding parses to the six canonical fields with the intended body, and a decoder takes it if and only if the body leaves one level of nesting |
| Translator.Int64RoundTrip | internal/translator/translator.go:31 | A printed 64-bit timestamp reads back, both ends of the range included |
| Translator.CanonicalSurvives | internal/translator/translator.go:91-128 | An already canonical event comes back with type, timestamp and body intact, source and reception stamped anew; it is refused if and only if it is nested too deeply |
| HandlerChain.Chain.Run | internal/middleware/middleware.go:33-40 | Handlers with state run in order on what the earlier ones left; the verdict is ok if and only if every handler says ok, otherwise that of the first one that does not, and the later ones leave no trace |
| HandlerChain.LimiterHandlerReplays | internal/middleware/ratelimit.go:72-81 | The limiter as a handler, with a clock that does not run backwards: its buckets stay the replay of a feasible log, one request and one answer of the source are added, and other sources are unaffected |
| ChainLimits.DrainIsLimited | internal/middleware/ratelimit.go:72-94 | Any sequence of payloads through a chain with the limiter anywhere among stateless handlers: each source gets the decisions of a bucket of its own, its windows are respected, and at most burst + rate × time of its payloads pass |
| Validation.SchemaValidator | internal/middleware/middleware.go:45-70 | The loop over the required keys accepts exactly when each is present, not null, not empty, not zero |
| Validation.TypeChecker | internal/middleware/middleware.go:75-98 | The loop over the string keys, then the timestamp, accepts exactly when those present have their types |
| Validation.FilledMeans | internal/middleware/middleware.go:54-67 | A required key is filled if its last value is anything but null, the empty string or zero |
| Validation.NumbersFitMeans | internal/middleware/middleware.go:51-53 | A value converts if it is no overflowing literal and every value directly inside it converts |
| Validation.ValidatorsAcceptCanonical | internal/middleware/middleware.go:42-98 | In either order the two accept exactly the objects with three non-empty strings and a non-zero number |
| Validation.PassthroughMeetsValidation | internal/translator/translator.go:100-128 | An identified, encoded default event with a non-zero clock is accepted if and only if source and event type are non-empty, no body number overflows float64, and the body is nested less than 10000 deep |
| Validation.ValidEventRejected | internal/middleware/middleware.go:51-53 | A concrete request with source and type that translates, encodes and is then rejected for a number |
| Validation.DeepRequestOutcome | internal/middleware/middleware.go:51-53 | A request with n nested arrays and no body member is translated and encoded if and only if n < 10000, and then accepted by the validators if and only if n + 1 < 10000 |
| Validation.DeepEventRejected | internal/middleware/middleware.go:51-53 | So the one with 9999 arrays translates, encodes and is then rejected |
| Float64.IntegersConvert | internal/middleware/middleware.go:64 | Every 64-bit integer literal converts, and is zero only if the integer is |
| Float64.HugeLiteral | internal/middleware/middleware.go:51-53 | `1e400` is a legal number that does not convert |
| Float64.Edges | internal/middleware/middleware.go:51-53 | Overflow begins halfway between the largest finite number and the next power of two, zero ends at half of the smallest positive number |
| Float64.IntegersFit | internal/middleware/middleware.go:51-53 | An integer literal converts if and only if it lies strictly inside the upper edges |
| Float64.HalfSmallestIsZero | internal/middleware/middleware.go:64 | A literal of exactly half the smallest positive number counts as zero |
| Float64.MagnitudeUp | internal/middleware/middleware.go:64 | A positive exponent multiplies by its power of ten |
| Float64.MagnitudeDown | internal/middleware/middleware.go:64 | A negative exponent divides by its power of ten |
| Float64.MagnitudePoint | internal/middleware/middleware.go:64 | Each digit behind the point lowers the exponent by one |
| PooledIngest.StepKeepsInv | internal/ingestor/ingestor.go:183-213 | Every step of every handler, and of the pool, keeps exclusive ownership, clean pooled objects and agreement with the reference |
| PooledIngest.PooledRefinesFresh | internal/ingestor/ingestor.go:171-221 | For any interleaving of handlers, every payload submitted and every status answered is that of a fresh-buffer run of the same request |
| PooledIngest.NoAliasInPool | internal/ingestor/ingestor.go:199-202 | While an event may point into a buffer, its array is in no pooled object and no other handler's, and holds the request's bytes; pooled objects are empty with no source |
| PooledIngest.AcceptedSubmitsOnce | internal/ingestor/ingestor.go:211-220 | A handler that answers accepted, or is about to, put exactly one payload into the channel, every other put none |
| PooledIngest.FreshOutcome | internal/ingestor/ingestor.go:171-214 | 400 for an empty body, 422 when the translator refuses, 500 when the event cannot be encoded; otherwise the six members of the translator's event are submitted, under a fresh identifier only where it had none |
| PooledReuse.BufferIsReused | internal/pool/pool.go:29-39 | A run in which one buffer is ever made and two handlers work with it, one after the other |
| Ingestor.Buffer.Append | internal/ingestor/ingestor.go:184 | Appends the body behind the current bytes, in place or in a new array |
| Ingestor.Pool.Get | internal/pool/pool.go:17-31 | A pooled object or a new one, empty, with no source, no longer in the pool, sharing no array with it |
| Ingestor.Pool.Put | internal/pool/pool.go:35-39 | The object is back, reset, its array kept |
| Ingestor.Server.PreparePooled | internal/ingestor/ingestor.go:183-207 | Get, copy, translate, identify, encode, put: the result is that of the request alone, and the pool is clean again |
| Ingestor.Server.HandleIngest | internal/ingestor/ingestor.go:171-221 | Status, channel and ingested counter after one request: each error status with nothing submitted, or the payload at the end of the channel and counted, or backpressure |
| StreamSafety.StepKeepsInv | internal/streamingestor/streamingestor.go:70-143 | Every step of readers, consumer group, submitters and workers keeps the protocol, content and pipeline invariants |
| StreamSafety.StreamProtocol | internal/streamingestor/streamingestor.go:70-143 | Delivered messages are pending or acknowledged, never both; refused ones are pending; each is submitted at most once, in stream order, and the accepted ones stand in stream order in the accepted sequence; a stopped reader has left none of its batch unhandled |
| StreamAcks.AcknowledgedOnce | internal/streamingestor/streamingestor.go:95-143 | In every reachable state: exactly the accepted and the useless messages, but for the one in the reader's hand, have had one acknowledgement sent, in stream order; what is pending was refused, lost with a reply, not handled yet, in hand, or acknowledged in vain; only a cancelled reader stops |
| StreamAcks.NoneInVain | internal/redisstore/redisstore.go:93-95 | If no acknowledgement fails, none was sent in vain |
| StreamAcks.MessageIsARun | internal/streamingestor/streamingestor.go:104-143 | The steps of a reader for one message end as `HandleMessage` is proved to end |
| StreamAcks.AcceptedAndAcknowledged | internal/streamingestor/streamingestor.go:135-142 | For every configuration, region and usable message there is a run in which it is accepted and acknowledged |
| StreamSafety.UsableMeans | internal/streamingestor/streamingestor.go:109-160 | A message is usable exactly when its data field holds text or bytes that can be prepared, and then these are what is prepared |
| StreamSafety.BackpressureIsFinal | internal/streamingestor/streamingestor.go:135-139 | A message refused for backpressure is pending, unacknowledged, not accepted and not tried again in every later state |
| StreamShutdown.BackpressureHappens | internal/streamingestor/streamingestor.go:135-139 | For every configuration, region and usable message there is a run in which the message is refused |
| StreamShutdown.PlainMessageUsable | internal/streamingestor/streamingestor.go:109-133 | An empty object as data is such a message wherever the default translator applies |
| StreamShutdown.ReadersStop | internal/streamingestor/streamingestor.go:75-97 | After cancellation, in every run, a reader makes at most three moves per message of its batch or of one last read, and at most three more; and it makes at most one more read |
| StreamShutdown.ShutdownReachable | internal/streamingestor/streamingestor.go:47-66 | From every reachable state of readers and workers, cancelling can be completed to a shutdown that has returned |
| StreamSafety.AckSafety | internal/streamingestor/streamingestor.go:104-143 | An acknowledged message was unusable or sits, translated, at a slot of the accepted sequence that belongs to no other message |
| StreamSafety.AckedReachesASink | internal/streamingestor/streamingestor.go:141-142 | After shutdown the payload of every acknowledged usable message is in the batcher's history or among the dead letters |
| Service.EveryPlaceHasItsOwner | internal/ingestor/ingestor.go:211-220 | With handlers, readers and workers interleaved: each handler told "accepted" has one place of its own in the accepted sequence, holding the fresh-buffer payload of its request; every other place is a stream message's |
| Service.AnsweredReachesASink | internal/ingestor/ingestor.go:211-220 | After shutdown the payload of every 202 answer, a canonical event that carries the answered identifier, under the request's source, is in the batcher's history or among the dead letters |
| ServiceShutdown.ShutdownReachable | internal/dispatcher/dispatcher.go:147-155 | From every reachable state of the service there is a way, without new requests or messages, to a state where every request is answered and shutdown has returned |
| ServiceShutdown.RequestIsAccepted | internal/ingestor/ingestor.go:211-220 | For every configuration and every request that can be prepared there is a run in which it is answered 202 with its identifier |
| Service.CountersSettle | internal/ingestor/ingestor.go:216 | After shutdown ingested = accepted = delivered + dead letters, and dead letters counted = pushed = validation rejections + panics |
| SystemLimits.StreamIsLimited | internal/streamingestor/streamingestor.go:135-141 | In every run of readers and workers the limiter's per-source decisions and bound, the bound on batches, and the exact remainder after shutdown hold |
| SystemLimits.ServiceIsLimited | internal/ingestor/ingestor.go:211-216 | The same in every run of the whole service |
| DeployedChain.BatcherGetsCanonical | internal/dispatcher/dispatcher.go:132-144 | With the deployed chain, in every reachable state everything the batcher ever received is canonical |
| DeployedChain.DenialsAreDecisions | internal/middleware/ratelimit.go:72-81 | With the deployed chain, after shutdown each accepted payload of a source has been put to the limiter once, and the denied ones are as many as a full bucket of the source's own refuses at those times |
| DeployedChain.ExactlyCanonicalDelivered | internal/dispatcher/dispatcher.go:132-144 | With the deployed chain, after shutdown the batcher got every accepted copy of a canonical payload that the limiter did not deny and nothing else; the dead letters got the rest; the denials are the decisions of the source's own bucket |
| DeployedChain.AnsweredIsDeliveredIff | internal/translator/translator.go:100-128 | With the deployed chain, after shutdown the payload of a 202 answer through the default translator is with the batcher if and only if the request meets the validators and the limiter let a copy through; without a limiter, if and only if it meets them |
| DeployedChain.DeployedDrain | internal/middleware/middleware.go:33-40 | One worker's chain object as deployed: only canonical payloads pass, and of each source at most burst + rate × time |
| StreamReader.Reader.HandleMessage | internal/streamingestor/streamingestor.go:104-143 | The three outcomes of one message: acknowledged without submission, accepted and acknowledged, or refused and withheld |
| StreamReader.Reader.HandleBatch | internal/streamingestor/streamingestor.go:95-97 | The channel and the ingested counter grow by exactly the payloads of the acknowledged usable messages, in order; a message is withheld only if it is usable and the channel is full |

## Left out

- Float64 rounding and wall-clock jumps in the limiter: tokens and times are reals, and a bucket's clock readings do not
  decrease.
- Metrics other than the ingested, validation-rejection, panic and dead-letter counters. The rejection counter here is the
  series with the validation code alone (internal/dispatcher/dispatcher.go:137); translation errors and full-buffer
  refusals are counted under codes of their own, which are not modelled. The series of different sources are added up.
- Error texts, structured error formatting and stack traces: a dead letter's reason is a parameter.
- Of JSON decoding: the replacement of invalid UTF-8. A body is printed again from its parsed value, so its original
  escape spelling is not kept; reception times are opaque strings.
- Payload bytes are texts (sequences of characters); UTF-8 appears where bytes are written out, in the dead letters.
- Utf8.TextRoundTrip: covers the encodings of texts, not arbitrary bytes, because payloads are texts here.
- The source header is an immutable value. The handler passes the framework's string into a payload that outlives the
  request (internal/ingestor/ingestor.go:177, internal/ingestor/ingestor.go:211); whether the framework reuses the memory
  behind that string is not part of this model.
- The batcher stores the bytes of a payload; the model keeps the source beside them so that theorems can name it.
- Upstream delivery and the flush ticker do not exist in the code. A drained batch is recorded, and a flush from outside
  may happen at any step.
- Configurations with no workers or an unbuffered channel, which validation refuses.
- Redis networking, consumer-group creation failures, process crashes, and any redelivery of pending entries from
  outside the process.
- HTTP routing, authentication, TLS, health probes, server start and signals.
- Dispatching.Dispatcher.ProcessOne: handlers answer from what the chain keeps, source and data, and change the chain's
  state only; one worker uses the chain at a time.
- Dispatching.Dispatcher.Process: one worker; many workers and arbitrary handler behaviour are in `Pipeline`.
- Dispatching.Dispatcher.Shutdown: one worker, as for `Process`.
- Dispatching.ProcessIsARun: one worker, and a limiter only as one of the chain's handlers (`ChainLimits`); the limiter
  that many workers share is in `PipelineLimits`.
- Ingestor.Server.PreparePooled: one request at a time; interleaved handlers are in `PooledIngest`.
- Ingestor.Server.HandleIngest: one request at a time; handlers, readers and workers interleaved are in `Service`.
- StreamReader.Reader.HandleBatch: nothing else uses the channel during the batch; interleavings are in `Stream`.
- Translators registered by users are total functions of source, bytes and stamp; one that panics is not part of this
  model.
- An authentication handler at the head of the chain: `DeployedChain` is the chain without one.
- The registry's read-write lock; registration happens before requests do.
- The unused error list of a validation result, and anything a handler might write into it.
- The per-processor caches of the runtime's pool: any pooled object may be handed out, a new one may be made instead,
  and any may be evicted.
