# The worker's execution engine, verified

A Dafny model of the part of the Rust worker (`worker/crates/worker-core`) that turns a leased job into
frames for the coordinator, and proofs of what it promises. Every file is a module named after it.

| files | what they model |
|---|---|
| `LeaseSession`, `SessionProgress`, `JobTable` | one connection: the reader loop, the table of running generations, permits, cancels, reaping, and the bounded outbound queue, as a step system in which an abort is a request that lands at the job's next await |
| `WireTrace`, `Progress`, `Jobs` | the frames of one lease generation, the progress throttle, and results that ask for context |
| `Gateway`, `Routing`, `Privacy`, `Limits` | choosing a backend, reserving, running it, buffered or live delivery, the usage record, a call abandoned while it waits |
| `SessionLimits` | the session and the limiter together: permits and provider slots over every run |
| `Backends`, `Delivery` | the gateway around the streaming calls of the backends, and its callbacks driving the frames of a generation |
| `LineFraming`, `OpenAiStream`, `AnthropicStream`, `GeminiStream`, `OllamaStream`, `ResponsesStream` | the line loops over network chunks and the in-place assemblers |
| `OpenAiEquivalence`, `AnthropicEquivalence`, `OllamaEquivalence`, `ChunkLimit` | the blocking decoders the streams must agree with, and what the OpenAI byte check accepts |
| `WireLines`, `OpenAiWire`, `AnthropicWire`, `GeminiWire`, `OllamaWire`, `ResponsesWire` | printers of the providers' messages and events, written from their field names: what is printed is what the decoders read, and the streams from printed lines to response |
| `ToolMarkup`, `ToolMarkupGrammar` | recovery of tool calls from markup, and the grammar it parses |
| `Calendar`, `Redact`, `PercentCoding` | the day-to-date algorithm behind the usage month, the log scrubber, percent-encoding |
| `Text`, `Json` | strings, and parsed JSON with `serde_json` accessors |

Code that changes state in place is modelled by classes and loops (the assemblers, the limiter, the meter,
the job table, the parsers, the scanner), each proved equal to a function on values; the theorems are about
those functions. JSON text parsing and printing is a parameter, `Codec(parse, render)`; a theorem that needs
printed JSON to read back says so with `ReadsBack`, value by value. What an adapter, another dispatch or the clock does is an
arbitrary argument.

## What the proofs found

* Anthropic text is assembled in order of arrival, whatever its block index. Streaming equals blocking for every
  text exactly when the schedule of block indices never steps back (`AnthropicEquivalence.TextOrderIff`). A tool
  block with neither id nor name is dropped by the stream and kept by the blocking decoder
  (`AnthropicEquivalence.CallsAgreeIff`).
* A Gemini part whose `functionCall` is null makes a call in the blocking decoder and none in the stream
  (`GeminiStream.StreamingAgreesIff`).
* OpenAI-compatible streaming is documented to assemble the response the blocking call returns
  (`worker/crates/worker-core/src/adapters/openai_compatible.rs:212-213`). It does exactly when no chunk is refused,
  the content is within 32 MiB, and every tool call is among the first 64, has an id or a name, and is of type
  "function" (`OpenAiEquivalence.StreamingEqualsBlockingIff`).
* Ollama's stream keeps the calls of the last object that has any. It agrees with the blocking call exactly when no
  tool-call entry is on an object before one that has calls (`OllamaEquivalence.StreamingEqualsBlockingIff`).
* The OpenAI-compatible limit of 1 MiB is called a line limit, but it measures the whole undrained buffer, with the
  lines the last chunk completes. Every way of cutting a text passes exactly when the whole text is within the limit
  (`ChunkLimit.EveryChunkingIff`); some way passes exactly when every line and the tail are
  (`ChunkLimit.SomeChunkingIff`); in between the result depends on the cut (`ChunkLimit.ChunksDoNotMatterIff`).
* The hourly cap holds in every closed window of 3600 - d seconds when clock readings step back by at most d
  between lock acquisitions, and in no longer one (`Limits.RollingHour`, `Limits.RollingHourIsTight`).
* The comment above the scrubber's prefix list names `1//` refresh tokens; the list does not have that prefix, so what
  follows is scrubbed as if `1//` were not there (`Redact.RefreshTokensPass`). The model follows the list.
* On a live call the observer has received exactly the content returned, for every body and every chunking, on four of
  the five assemblers; the ChatGPT assembler prefers a terminal text, so there only when the last completed event that
  has a text, if any, has the streamed one (`Delivery.DeliveredIsContent`). All the adapters of the repository
  stream; one that kept the default of the adapter interface
  (`worker/crates/worker-core/src/adapter.rs:44-50`) would deliver nothing live (`Delivery.SilentAnswerIsLost`,
  `Delivery.DeliveryCanFail`).
* Period texts sort in the order of their months up to the year 9999 and no further (`Calendar.PeriodsInOrderIff`).
* A usage record is written for successes and provider failures, and for no answer refused after it arrived
  (`Delivery.ResultAndRecord`).

## Model

| member | source | states |
|---|---|---|
| `LeaseSession.ReachableOk` | worker/crates/worker-core/src/coordinator_client.rs:693-963 | every reachable state of the session satisfies the invariants on the table, the permits, the tasks and the queue |
| `LeaseSession.SessionSafe` | worker/crates/worker-core/src/coordinator_client.rs:693-963 | over every run: each live job task is tracked under its own generation, at most one per generation; live heartbeats belong to tracked generations; at most `max(1, max_parallel_jobs)` hold a permit; the queue holds at most 1024 frames; after the loop exits all are finished or abort-requested |
| `LeaseSession.CancelIsExact` | worker/crates/worker-core/src/coordinator_client.rs:516-536 | a cancel with a lease touches exactly that generation, one without touches exactly the job's generations, and every other entry stays |
| `LeaseSession.ReapIsExact` | worker/crates/worker-core/src/coordinator_client.rs:724-731 | a reap keeps exactly the entries whose task has not ended, silences the heartbeats of the ended ones and touches nothing else |
| `LeaseSession.ReapedIsQuiet` | worker/crates/worker-core/src/coordinator_client.rs:724-731 | after a reap of any run no ended task beats |
| `LeaseSession.CloseIsExact` | worker/crates/worker-core/src/coordinator_client.rs:958-963 | the end of the reader loop asks every tracked task to abort, forgets them all and reads no more |
| `LeaseSession.OnlyPanicsBeat` | worker/crates/worker-core/src/coordinator_client.rs:873-935 | a heartbeat that beats on after its task belongs to one that panicked |
| `LeaseSession.JobIsExact` | worker/crates/worker-core/src/coordinator_client.rs:744-936 | a job frame starts one task under its own generation and aborts exactly the one it replaces |
| `LeaseSession.TerminalIsQueued` | worker/crates/worker-core/src/coordinator_client.rs:892-932 | a terminal frame is never dropped while the channel is open: the task waits and then queues it |
| `LeaseSession.ReceivedInOrder` | worker/crates/worker-core/src/coordinator_client.rs:790-935 | whatever frames `try_send` dropped, progress and chunk numbers arrive strictly increasing and nothing follows a terminal frame |
| `LeaseSession.NothingMissing` | worker/crates/worker-core/src/coordinator_client.rs:824-866 | if no chunk number is missing, the received chunks are exactly the deltas emitted and the answer text is exactly theirs |
| `LeaseSession.TaskTrace` | worker/crates/worker-core/src/coordinator_client.rs:790-935 | in every reachable state each job task's frames follow the wire protocol and the throttle bound |
| `SessionProgress.EveryJobCanFinish` | worker/crates/worker-core/src/coordinator_client.rs:790-963 | no deadlock: in every reachable state every job can be run to its end without a panic or an abort, whatever holds the permits and however full the queue is |
| `SessionProgress.AnyAnswerCanPass` | worker/crates/worker-core/src/coordinator_client.rs:790-935 | a waiting job can get any backend, any deltas at times that do not go back and any result of its own, and closes with the terminal frame of that result |
| `SessionProgress.AbortCanLand` | worker/crates/worker-core/src/coordinator_client.rs:516-536 | a job asked to abort needs no permit, reply or room to end |
| `SessionProgress.RoomKeepsAll` | worker/crates/worker-core/src/coordinator_client.rs:465-498 | while fewer than 1024 frames have waited, every frame offered is in the queue, in the order it was made |
| `JobTable.Table.TrackJob` | worker/crates/worker-core/src/coordinator_client.rs:501-513 | inserting a generation, wherever its task is kept, aborts exactly the entry it replaces |
| `JobTable.Table.Hear` | worker/crates/worker-core/src/coordinator_client.rs:724-963 | the methods of the table, event by event, are the session's reader steps |
| `JobTable.Table.CancelJob` | worker/crates/worker-core/src/coordinator_client.rs:516-536 | the loop over the matching keys refines the session's cancel, and reports whether any matched |
| `JobTable.Table.Reap` | worker/crates/worker-core/src/coordinator_client.rs:724-731 | `retain` drops exactly the finished entries and stops their heartbeats |
| `JobTable.Table.CloseAll` | worker/crates/worker-core/src/coordinator_client.rs:960-963 | the final sweep aborts every tracked task and heartbeat |
| `Progress.ProgressMeter.NoteDelta` | worker/crates/worker-core/src/coordinator_client.rs:433-455 | the meter's fields and the frames it makes are those of the specification step |
| `Progress.NothingLongUnreported` | worker/crates/worker-core/src/coordinator_client.rs:433-455 | after each delta fewer than 64 tokens and less than 2000 ms are unreported |
| `Progress.Throttle` | worker/crates/worker-core/src/coordinator_client.rs:27-30 | N deltas in T ms make at most N/64 + T/2000 generating frames |
| `Progress.ThrottleIsTight` | worker/crates/worker-core/src/coordinator_client.rs:27-30 | a burst of n deltas makes exactly n/64 frames |
| `WireTrace.EmitOk` | worker/crates/worker-core/src/coordinator_client.rs:832-865 | a delta keeps the trace within the protocol: perhaps one generating frame, then the chunk with the next number |
| `WireTrace.FinishOk` | worker/crates/worker-core/src/coordinator_client.rs:881-932 | finalizing, then one terminal frame, closes the trace |
| `WireTrace.PhasesFollow` | worker/crates/worker-core/src/coordinator_client.rs:814-890 | the phases of a leased trace are loading, at most one prefill, any number of generating, then finalizing |
| `WireTrace.NumbersIncrease` | worker/crates/worker-core/src/coordinator_client.rs:465-498 | later frames of a kind carry larger numbers and the terminal frame is last |
| `WireTrace.FinishedTrace` | worker/crates/worker-core/src/coordinator_client.rs:790-935 | a finished generation made the four phases in order and exactly one terminal frame, at the end |
| `WireTrace.ReportsSay` | worker/crates/worker-core/src/coordinator_client.rs:420-498 | what progress frames say: loading no backend, prefill the chosen one, generating also the number of the delta that follows |
| `WireTrace.TraceThrottle` | worker/crates/worker-core/src/coordinator_client.rs:433-455 | the throttle bound on the generating frames of a trace |
| `Jobs.RequestsIff` | worker/crates/worker-core/src/coordinator_client.rs:79-87 | something is asked exactly when a reserved call carries arguments |
| `Jobs.PausesIff` | worker/crates/worker-core/src/coordinator_client.rs:71-103 | a result becomes an input request exactly when it succeeded under a lease with a reserved call, and names that job and lease |
| `Jobs.RequestIs` | worker/crates/worker-core/src/coordinator_client.rs:79-125 | which member of a call is its name and which its arguments, and the request made of them |
| `Jobs.RequestsAre` | worker/crates/worker-core/src/coordinator_client.rs:79-87 | one request for each reserved call that carries arguments, in order, and no other |
| `Jobs.PauseHolds` | worker/crates/worker-core/src/coordinator_client.rs:93-104 | the request carries the turn that asked, as it was, and the usage |
| `Jobs.GatewayAnswerPausesIff` | worker/crates/worker-core/src/coordinator_client.rs:71-125 | for an answer the gateway built, exactly when a call names the reserved function |
| `Privacy.AllowedIff` | worker/crates/worker-core/src/privacy.rs:44-84 | a backend is allowed exactly when it is local or the job may leave the machine |
| `Routing.CandidatesFor` | worker/crates/worker-core/src/gateway.rs:128-183 | the list holds exactly the candidates, in (preferred side, catalog) order |
| `Routing.SelectBackend` | worker/crates/worker-core/src/gateway.rs:224-259 | the route is the best eligible backend, or the exact reason there is none |
| `Routing.FirstIsBest` | worker/crates/worker-core/src/gateway.rs:234-247 | the first allowed candidate comes before every other eligible backend |
| `Routing.PreferredSide` | worker/crates/worker-core/src/gateway.rs:164-181 | under a local preference an external route means no eligible backend is local, under an external one the converse, and no eligible backend of the side chosen is earlier in the catalog |
| `Routing.RouteIff` | worker/crates/worker-core/src/gateway.rs:224-259 | a backend is chosen exactly when some backend can serve the job and is open to it, in terms of the catalog, the policy and the job alone |
| `Routing.ExternalDispatch` | worker/crates/worker-core/src/gateway.rs:224-259 | an external dispatch implies an accepted level that is not local-only and is listed, the owner's leave unless public, and under PreferLocal without fallback no eligible local backend |
| `Routing.HeldLocalIff` | worker/crates/worker-core/src/gateway.rs:162-167 | external candidates are held back exactly when an eligible local backend exists under that policy |
| `Routing.LocalBackendSuffices` | worker/crates/worker-core/src/privacy.rs:50-53 | an accepted job that a local backend may serve is not refused |
| `Routing.RefusalMeans` | worker/crates/worker-core/src/gateway.rs:248-259 | which refusal is given: exactly what was missing, and for a privacy refusal the first rule broken |
| `Limits.LimitGuard.TryReserve` | worker/crates/worker-core/src/limits.rs:57-94 | the pruning loop and both caps give the specified outcome and state, and the length cast loses nothing |
| `Limits.LimitGuard.Drop` | worker/crates/worker-core/src/limits.rs:39-46 | a dropped reservation gives its slot back |
| `Limits.Conservation` | worker/crates/worker-core/src/limits.rs:39-94 | over every interleaving of requests and drops, `inflight` is the number of live external reservations within the cap, and the deque is a suffix of the admission log within its cap |
| `Limits.ReachableIsExact` | worker/crates/worker-core/src/limits.rs:39-94 | in reachable states the subtraction never saturates, the cast never truncates, and a refusal changes nothing but pruning |
| `Limits.RollingHour` | worker/crates/worker-core/src/limits.rs:57-86 | no closed window of 3600 - d seconds admits more than the hourly cap, when times step back by at most d |
| `Limits.RollingHourIsTight` | worker/crates/worker-core/src/limits.rs:57-86 | for every d some run admits two under a cap of one within 3601 - d seconds |
| `Limits.RefusalIsWarranted` | worker/crates/worker-core/src/limits.rs:62-72 | a request refused for the hour follows as many admissions as the cap within 3600 + d seconds |
| `SessionLimits.SlotsAreCallers` | worker/crates/worker-core/src/limits.rs:39-94 | over every run of a session and its limiter, with cancels, aborts and panics: the slots counted are those of the tasks inside a provider call, each holding a permit, and of earlier connections; so none when nothing runs |
| `SessionLimits.EnoughSlots` | worker/crates/worker-core/src/limits.rs:76-84 | a parallel cap no less than the permits and the slots held from before never refuses a task |
| `SessionLimits.EnoughSlotsIff` | worker/crates/worker-core/src/limits.rs:76-84 | without an hourly cap or slots from before, a parallel cap refuses no task in any run exactly when it is no less than the permits |
| `SessionLimits.Projects` | worker/crates/worker-core/src/coordinator_client.rs:693-963 | leaving the limiter out of such a run leaves a run of the session |
| `Limits.WindowIsLog` | worker/crates/worker-core/src/limits.rs:62-72 | with d = 0 the pruned deque is the unpruned log of the last hour, and refusal for the hour is an if-and-only-if |
| `Gateway.ExecuteObserved` | worker/crates/worker-core/src/gateway.rs:206-376 | route, reservation, result, observations and record follow the specification, and on every exit, an abort or panic at the adapter await included, the limiter counts only the slots of other dispatches |
| `Gateway.Dispatch` | worker/crates/worker-core/src/gateway.rs:293-375 | the reservation is held across the adapter call, under any interference, and given back on every way out, also when the call is abandoned and has no result |
| `Gateway.Conclude` | worker/crates/worker-core/src/gateway.rs:311-333 | recovery and validation of an answer, in order, with their error cases |
| `Gateway.PlanIff` | worker/crates/worker-core/src/gateway.rs:413-475 | a call is planned with a schema exactly when `response_format` is a strict `json_schema` with that schema, without one exactly when it is absent or null, and with exactly the non-null `tools` |
| `Gateway.StopIs` | worker/crates/worker-core/src/gateway.rs:262-293 | what every other job is stopped with |
| `Gateway.PlainText` | worker/crates/worker-core/src/gateway.rs:436-445 | content without a code fence is validated trimmed |
| `Gateway.FencedText` | worker/crates/worker-core/src/gateway.rs:436-445 | content within a fence is validated without it |
| `Gateway.OthersKeepMine` | worker/crates/worker-core/src/limits.rs:39-94 | other dispatches, reserving and dropping only what they hold, leave this one's slot counted |
| `Delivery.DeliveredIsContent` | worker/crates/worker-core/src/gateway.rs:289-346 | for every backend, body and chunking: on success the answer deltas observed concatenate to the output's content exactly when the job offers tools or asks for a format, or the backend is one of the four assemblers that always forward their content, or ChatGPT's with no other terminal text, or a silent one with nothing to say |
| `Delivery.SilentAnswerIsLost` | worker/crates/worker-core/src/adapter.rs:41-50 | on a backend that keeps the default streaming call every live call succeeds with nothing observed |
| `Delivery.DeliveryCanFail` | worker/crates/worker-core/src/adapter.rs:41-50 | such an execution exists for every non-empty answer |
| `Delivery.AbandonedIff` | worker/crates/worker-core/src/gateway.rs:301-306 | there is no result exactly when the call was abandoned at the adapter await; then no record is written and live deltas already forwarded stay |
| `Backends.BackendStreamsIff` | worker/crates/worker-core/src/adapter.rs:41-50 | which streaming calls forward exactly the content they return |
| `Delivery.BufferedIsWhole` | worker/crates/worker-core/src/gateway.rs:293-336 | a job that offers tools or asks for a format is delivered one delta, the whole content, exactly on success with content |
| `Delivery.LiveIsForwarded` | worker/crates/worker-core/src/gateway.rs:293-346 | any other job is delivered what its adapter forwards, succeeds exactly when it is answered, and its output is that answer as JSON |
| `Delivery.SchemaJobConforms` | worker/crates/worker-core/src/gateway.rs:289-333 | a job that asks for a strict schema succeeds only with the printed form of a value that conforms to it, the value of the answer's JSON text when no tools are offered |
| `Delivery.ObserversSee` | worker/crates/worker-core/src/gateway.rs:278-298 | at most one selection, before every delta, naming the routed backend; deltas only when the adapter ran |
| `Delivery.ResultAndRecord` | worker/crates/worker-core/src/gateway.rs:311-375 | results name their job and lease; output and usage exactly on success, the usage naming the routed backend; when a usage record is written |
| `Delivery.RecoveredCallsAreOffered` | worker/crates/worker-core/src/gateway.rs:313-325 | calls are recovered exactly when tools were offered and the text has a tag, and name offered functions only |
| `Delivery.StructuredConforms` | worker/crates/worker-core/src/gateway.rs:436-452 | under a strict schema the delivered content reads back as the answer's value and conforms, when that value printed reads back |
| `Backends.OpenAiStreams` | worker/crates/worker-core/src/adapters/openai_compatible.rs:330-339 | for every chunking, the OpenAI-compatible call forwards the content it returns |
| `Backends.AnthropicStreams` | worker/crates/worker-core/src/adapters/anthropic.rs:321-427 | for every text, the Anthropic call forwards the content it returns |
| `Backends.GeminiStreams` | worker/crates/worker-core/src/adapters/gemini.rs:186-232 | for every text, the Gemini calls, enveloped or not, forward the content they return |
| `Backends.OllamaStreams` | worker/crates/worker-core/src/adapters/ollama.rs:223-265 | for every text, tail included, the Ollama call forwards the content it returns |
| `Backends.ChatGptStreamsIff` | worker/crates/worker-core/src/adapters/openai_chatgpt.rs:273-347 | the ChatGPT call forwards the content it returns exactly when the last completed event that has a text, if any, has the streamed one |
| `Delivery.ExecutionTrace` | worker/crates/worker-core/src/coordinator_client.rs:821-932 | any execution's callbacks and result make a trace within the protocol whose chunks are the deltas observed, and whose one terminal frame is an input request exactly when a reserved call was delivered under a lease; an abandoned execution leaves no terminal frame |
| `Delivery.FinalReport` | worker/crates/worker-core/src/coordinator_client.rs:868-890 | the finalizing frame names the selected backend and carries the output tokens reported, or else the number of deltas |
| `LineFraming.Pump` | worker/crates/worker-core/src/adapters/anthropic.rs:271-281 | for any chunking, the lines fed are the newline-terminated lines of the whole text and the buffer keeps no newline |
| `LineFraming.PumpAndFlush` | worker/crates/worker-core/src/adapters/ollama.rs:162-176 | the same loop, then a non-blank unterminated tail |
| `LineFraming.LinesRebuild` | worker/crates/worker-core/src/adapters/gemini.rs:149-159 | lines and tail rebuild the text |
| `LineFraming.LinesUnique` | worker/crates/worker-core/src/adapters/gemini.rs:149-159 | and are determined by it |
| `LineFraming.LinesAppend` | worker/crates/worker-core/src/adapters/gemini.rs:149-159 | more text only revisits the tail |
| `OpenAiStream.StreamAssembly.FeedLine` | worker/crates/worker-core/src/adapters/openai_compatible.rs:302-366 | one line changes the fields as specified, caps included |
| `OpenAiStream.ChatStream` | worker/crates/worker-core/src/adapters/openai_compatible.rs:242-270 | the limit fires exactly on the first chunk that overfills the buffer; otherwise the outcome depends on the text alone |
| `ChunkLimit.PassingIsFirstFailure` | worker/crates/worker-core/src/adapters/openai_compatible.rs:242-260 | the check fires on the first chunk that overfills what the chunks before it left |
| `ChunkLimit.EveryChunkingIff` | worker/crates/worker-core/src/adapters/openai_compatible.rs:242-260 | every way of cutting a text passes exactly when the text is within 1 MiB |
| `ChunkLimit.SomeChunkingIff` | worker/crates/worker-core/src/adapters/openai_compatible.rs:242-260 | some way passes exactly when every line and the tail are |
| `ChunkLimit.ChunksDoNotMatterIff` | worker/crates/worker-core/src/adapters/openai_compatible.rs:242-270 | the result is the same for every way exactly when the text is within the limit or has a part that is not |
| `ChunkLimit.NewlinesDependOnChunks` | worker/crates/worker-core/src/adapters/openai_compatible.rs:246-252 | a text of newlines refused in one chunk and accepted in many |
| `OpenAiEquivalence.StreamedCompletion` | worker/crates/worker-core/src/adapters/openai_compatible.rs:302-389 | however a completion is cut: the stream overflows exactly when its content passes the cap, and otherwise gives its content, its counts and the named calls among the first 64 |
| `OpenAiEquivalence.StreamingEqualsBlockingIff` | worker/crates/worker-core/src/adapters/openai_compatible.rs:193-270 | from network chunks: each failure exactly when its limit is passed, and the blocking call's response exactly when none is and every call is a named function among the first 64 |
| `OpenAiWire.BodyReads` | worker/crates/worker-core/src/adapters/openai_compatible.rs:193-210 | a printed completion is the one the blocking decoder reads |
| `OpenAiWire.PrintedCarries` | worker/crates/worker-core/src/adapters/openai_compatible.rs:302-366 | printed chunks that make up a completion, in any cut and with other lines between them, carry it |
| `OpenAiWire.StreamCompletion` | worker/crates/worker-core/src/adapters/openai_compatible.rs:216-270 | from the network chunks of printed lines: the failures exactly when their limits are passed, otherwise the completion's content and counts, every piece forwarded as it came, and its calls exactly when all are named functions among the first 64 |
| `OpenAiStream.ContentIsDeltas` | worker/crates/worker-core/src/adapters/openai_compatible.rs:330-339 | content is the answer forwarded, within 32 MiB; the overflow flag is set exactly when the whole text would pass the cap; otherwise no fragment was lost |
| `Text.CharBytesIs` | worker/crates/worker-core/src/adapters/openai_compatible.rs:330-339 | the byte lengths the caps measure are those of the UTF-8 encoding |
| `OpenAiStream.CallsOfStream` | worker/crates/worker-core/src/adapters/openai_compatible.rs:340-365 | the slots of a stream are those of its fragments in order |
| `OpenAiStream.SlotCount` | worker/crates/worker-core/src/adapters/openai_compatible.rs:340-365 | the vector reaches the largest index below 64 and never exceeds 64 |
| `OpenAiStream.SlotsHoldFragments` | worker/crates/worker-core/src/adapters/openai_compatible.rs:340-365 | slot i holds the in-order concatenation of the fragments addressed to i |
| `OpenAiStream.FragmentsCommute` | worker/crates/worker-core/src/adapters/openai_compatible.rs:340-365 | fragments for different indices commute |
| `OpenAiStream.FarFragmentsIgnored` | worker/crates/worker-core/src/adapters/openai_compatible.rs:340-350 | fragments at index 64 or above change nothing |
| `OpenAiStream.FinishKeeps` | worker/crates/worker-core/src/adapters/openai_compatible.rs:372-389 | `finish` keeps exactly the slots with an id or a name, in index order |
| `AnthropicStream.DecodeReply` | worker/crates/worker-core/src/adapters/anthropic.rs:205-236 | the blocking loop computes the message's content, calls and usage |
| `AnthropicStream.Stream.FeedLine` | worker/crates/worker-core/src/adapters/anthropic.rs:332-399 | one line changes the fields as its event says |
| `AnthropicEquivalence.ContentHolds` | worker/crates/worker-core/src/adapters/anthropic.rs:362-385 | the content is the text that arrived, and the answer forwarded is that content |
| `AnthropicEquivalence.SlotsHold` | worker/crates/worker-core/src/adapters/anthropic.rs:345-392 | each block slot holds its last opening and its fragments in order |
| `AnthropicEquivalence.TextOrderIff` | worker/crates/worker-core/src/adapters/anthropic.rs:362-375 | arrival order is block order for every text exactly when the schedule never steps back |
| `AnthropicEquivalence.ContentAgrees` | worker/crates/worker-core/src/adapters/anthropic.rs:321-427 | any fragmentation gives the blocking content and usage, and forwards exactly that content |
| `AnthropicEquivalence.CallsAgreeIff` | worker/crates/worker-core/src/adapters/anthropic.rs:401-427 | the tool calls agree, in order and as JSON, exactly when every tool block has an id or a name |
| `AnthropicEquivalence.StreamingEqualsBlocking` | worker/crates/worker-core/src/adapters/anthropic.rs:205-236 | the responses are equal when each input was cut from the text the blocking decoder prints; `{}` for an input without fragments |
| `AnthropicWire.EventReads` | worker/crates/worker-core/src/adapters/anthropic.rs:332-399 | every event printed is the event read |
| `AnthropicWire.MessageReads` | worker/crates/worker-core/src/adapters/anthropic.rs:205-236 | every message printed is the message read |
| `AnthropicWire.DecodeMessage` | worker/crates/worker-core/src/adapters/anthropic.rs:195-244 | the blocking call on a printed message answers with its texts, one call for each tool block, and its counts |
| `AnthropicWire.StreamMessage` | worker/crates/worker-core/src/adapters/anthropic.rs:246-284 | so does the streaming call, however the message is cut into events, their printed lines mixed with others and those cut into chunks, when every tool block is named |
| `GeminiStream.ParseResponse` | worker/crates/worker-core/src/adapters/gemini.rs:351-388 | the blocking loop computes content, numbered calls and usage |
| `GeminiStream.ChunksDoNotMatter` | worker/crates/worker-core/src/adapters/gemini.rs:186-223 | folding chunk by chunk is folding the whole parts list, with each count as last reported |
| `GeminiStream.StreamingAgreesIff` | worker/crates/worker-core/src/adapters/gemini.rs:186-232 | for any partition, content agrees, and calls with their ids agree exactly when no part has a null `functionCall` |
| `GeminiStream.StreamReply` | worker/crates/worker-core/src/adapters/gemini.rs:133-163 | the same from network chunks |
| `GeminiWire.BlockingReads` | worker/crates/worker-core/src/adapters/gemini.rs:351-388 | the blocking call on a printed reply answers with its texts, calls and counts, and a null `functionCall` makes a call there |
| `GeminiWire.StreamChunks` | worker/crates/worker-core/src/adapters/gemini.rs:133-232 | from the network chunks of printed lines, in an envelope or not: the texts, the calls numbered from 0, and each count as last reported |
| `OllamaStream.NdjsonAssembly.FeedLine` | worker/crates/worker-core/src/adapters/ollama.rs:230-253 | one line changes the fields as specified |
| `OllamaStream.RunStreaming` | worker/crates/worker-core/src/adapters/ollama.rs:130-180 | the outcome depends on the text alone, tail included, and the content is the answer forwarded |
| `OllamaEquivalence.StreamingEqualsBlockingIff` | worker/crates/worker-core/src/adapters/ollama.rs:103-308 | content and counts agree with the blocking call on the joined body; calls agree exactly when no entry is on an object before one that has calls |
| `OllamaEquivalence.StreamReply` | worker/crates/worker-core/src/adapters/ollama.rs:130-180 | the same from network chunks |
| `OllamaWire.BlockingReads` | worker/crates/worker-core/src/adapters/ollama.rs:88-128 | the blocking call on a printed reply answers with it |
| `OllamaWire.StreamParts` | worker/crates/worker-core/src/adapters/ollama.rs:130-265 | from the network chunks of printed objects: the texts, the calls of the last object that names a function, and the counts of the last that closes the reply |
| `ResponsesStream.Stream.FeedEvent` | worker/crates/worker-core/src/adapters/openai_chatgpt.rs:299-328 | one event changes the fields as specified |
| `ResponsesStream.RunResponses` | worker/crates/worker-core/src/adapters/openai_chatgpt.rs:170-192 | the outcome depends on the text alone, tail included |
| `ResponsesStream.AssemblyHolds` | worker/crates/worker-core/src/adapters/openai_chatgpt.rs:273-347 | what each field holds, in terms of the events |
| `ResponsesStream.TerminalIsPreferred` | worker/crates/worker-core/src/adapters/openai_chatgpt.rs:331-346 | the terminal text and calls are preferred, and when the forwarded text is the answer |
| `ResponsesWire.EventReads` | worker/crates/worker-core/src/adapters/openai_chatgpt.rs:286-413 | every event printed is read as what it means |
| `ResponsesWire.StreamEvents` | worker/crates/worker-core/src/adapters/openai_chatgpt.rs:141-192 | from the network chunks of printed events: the text of the last response that has one, or else the texts streamed; the calls of the last response, or else those streamed; everything forwarded as it came |
| `ToolMarkup.OfferedIff` | worker/crates/worker-core/src/adapters/tools.rs:22-38 | which names count as offered |
| `ToolMarkup.DefsAre` | worker/crates/worker-core/src/adapters/tools.rs:22-38 | the definitions are those of the entries that name a function, in order, with their descriptions and parameters |
| `ToolMarkup.NormalizeToolMarkup` | worker/crates/worker-core/src/adapters/tools.rs:54-97 | the loop over blocks computes the specification, ids continuing across blocks |
| `ToolMarkup.ParseTaggedCalls` | worker/crates/worker-core/src/adapters/tools.rs:133-179 | the nested loops compute the specification |
| `ToolMarkupGrammar.NextTaggedIff` | worker/crates/worker-core/src/adapters/tools.rs:139-160 | a tag is found exactly where it was printed: first occurrence never straddles a boundary |
| `ToolMarkupGrammar.ParamsIff` | worker/crates/worker-core/src/adapters/tools.rs:152-173 | a parameter list parses exactly when it is a printed one |
| `ToolMarkupGrammar.TaggedCallsIff` | worker/crates/worker-core/src/adapters/tools.rs:133-179 | a tagged block yields calls exactly when it is a non-empty list of printed calls |
| `ToolMarkupGrammar.NormalizeIff` | worker/crates/worker-core/src/adapters/tools.rs:54-97 | on every input: success exactly when plain segments and block bodies with their tags rebuild it, every block parses to offered calls and there is a call |
| `ToolMarkupGrammar.NoMarkerIff` | worker/crates/worker-core/src/adapters/tools.rs:60-62 | `None` exactly when no opening tag occurs |
| `ToolMarkupGrammar.OnlyOfferedNames` | worker/crates/worker-core/src/adapters/tools.rs:70-92 | a success names offered functions only, with ids from 0 |
| `ToolMarkupGrammar.OneBadBlockFails` | worker/crates/worker-core/src/adapters/tools.rs:54-97 | one bad block fails the whole parse |
| `ToolMarkupGrammar.UnclosedFails` | worker/crates/worker-core/src/adapters/tools.rs:66-72 | so does an unclosed block |
| `ToolMarkupGrammar.RoundTrip` | worker/crates/worker-core/src/adapters/tools.rs:54-97 | plain text and blocks of named calls, each argument printed as JSON that reads back or as bare text that is not JSON, normalize to the trimmed plain text and exactly those calls with those arguments, a repeated key keeping its last value |
| `ToolMarkupGrammar.OneCallRoundTrip` | worker/crates/worker-core/src/adapters/tools.rs:133-179 | the markup of one call with one bare-text argument, written out, gives that call |
| `ToolMarkupGrammar.ArgumentsReadBack` | worker/crates/worker-core/src/adapters/tools.rs:152-178 | the argument object read back is the one printed, when it and its values printed read back |
| `ToolMarkupGrammar.MapOfLast` | worker/crates/worker-core/src/adapters/tools.rs:152-178 | a repeated key keeps its last value |
| `ToolMarkupGrammar.JsonCallsIff` | worker/crates/worker-core/src/adapters/tools.rs:99-131 | a JSON list of calls parses, to those calls, exactly when every argument given as a string is JSON text |
| `ToolMarkupGrammar.JsonBlockRoundTrip` | worker/crates/worker-core/src/adapters/tools.rs:99-131 | a printed JSON array of calls, values that read back, gives back the calls, exactly when every argument given as a string is JSON text |
| `ToolMarkupGrammar.JsonSingleRoundTrip` | worker/crates/worker-core/src/adapters/tools.rs:99-131 | and so does a single printed object |
| `Calendar.YearOfEraBounds` | worker/crates/worker-core/src/gateway.rs:488-494 | the division formula for the year of an era is the year whose days contain the day |
| `Calendar.CivilIsDate` | worker/crates/worker-core/src/gateway.rs:488-499 | the result is a calendar date that many days from the epoch, with no wrap-around for any i64 clear of overflow |
| `Calendar.EpochDay` | worker/crates/worker-core/src/gateway.rs:488-499 | day 0 is 1 January 1970 |
| `Calendar.CivilSuccessor` | worker/crates/worker-core/src/gateway.rs:488-499 | day z + 1 has the calendar successor of day z's date |
| `Calendar.CivilInverse` | worker/crates/worker-core/src/gateway.rs:488-499 | it is inverse to days-from-civil |
| `Calendar.MonthNeverDecreases` | worker/crates/worker-core/src/gateway.rs:477-485 | the month never goes back with time |
| `Calendar.PeriodsInOrderIff` | worker/crates/worker-core/src/gateway.rs:477-485 | the period texts never step back before the end of a year exactly when it is 9999 or earlier |
| `Calendar.CurrentMonthIff` | worker/crates/worker-core/src/gateway.rs:477-485 | two times share a period string exactly when they fall in the same month |
| `Calendar.PeriodIs` | worker/crates/worker-core/src/gateway.rs:477-485 | the period is the year in at least four digits, a dash and the month in two, of the UTC day of 86,400 seconds the time falls in |
| `Redact.RedactText` | worker/crates/worker-core/src/vault.rs:82-111 | the index scanner computes the specification |
| `Redact.RedactedIsClean` | worker/crates/worker-core/src/vault.rs:82-111 | redacting is idempotent, and nowhere in the output is the first matching prefix followed by a token character |
| `Redact.UnchangedIff` | worker/crates/worker-core/src/vault.rs:82-111 | a text is unchanged exactly when it is clean |
| `Redact.FirstIsLongest` | worker/crates/worker-core/src/vault.rs:83-95 | the first matching prefix in the list is the longest |
| `Redact.TokenDoesNotMatter` | worker/crates/worker-core/src/vault.rs:82-111 | the output does not depend on which token stood after a prefix the scanner meets |
| `Redact.TokenIsScrubbed` | worker/crates/worker-core/src/vault.rs:82-111 | a text that begins with one of the prefixes and a token loses exactly the token to the mark |
| `Redact.OtherIsCopied` | worker/crates/worker-core/src/vault.rs:82-111 | any other first character is copied |
| `Redact.RefreshTokensPass` | worker/crates/worker-core/src/vault.rs:82-111 | for every text, what follows `1//` is scrubbed as if `1//` were not there; the whole is unchanged exactly when that text has no hit |
| `Redact.RefreshTokenPasses` | worker/crates/worker-core/src/vault.rs:83-87 | one `1//` token that is not scrubbed |
| `PercentCoding.UrlEncode` | worker/crates/worker-core/src/oauth.rs:142-154 | the byte loop computes the encoding |
| `PercentCoding.UrlDecode` | worker/crates/worker-core/src/oauth.rs:156-183 | the byte loop computes the decoding, malformed escapes included |
| `PercentCoding.DecodeEncode` | worker/crates/worker-core/src/oauth.rs:142-183 | decoding undoes encoding for every byte string |
| `PercentCoding.DecodeSpelled` | worker/crates/worker-core/src/oauth.rs:156-183 | what each byte of an encoded text decodes to: a plus sign, an escape in either case of hex, any other byte |
| `PercentCoding.StrayPercent` | worker/crates/worker-core/src/oauth.rs:156-183 | a percent sign without two hex digits stays |
| `PercentCoding.EncodeIsSpelled` | worker/crates/worker-core/src/oauth.rs:142-154 | each byte is encoded as itself or as a percent sign and two upper-case digits |
| `PercentCoding.RoundTrip` | worker/crates/worker-core/src/oauth.rs:142-183 | hence for every string |
| `PercentCoding.EncodedIsSafe` | worker/crates/worker-core/src/oauth.rs:146-151 | encoded text holds only unreserved characters and percent signs, and is unchanged exactly when all were unreserved |
| `PercentCoding.QueryReadsBack` | worker/crates/worker-core/src/oauth.rs:185-190 | a parameter read from a query of encoded values is that of the first pair with the key, and none without one |

## Left out

- The Elixir coordinator: it is an arbitrary sender of job and cancel frames and an arbitrary reader of the queue.
- HTTP, WebSocket, timers, OAuth flows, the vault's cryptography and files, self-update, configuration and usage files, the desktop UI and the CLI.
- JSON text and JSON-schema validation: `Codec` and a `conforms` parameter; temperatures, costs and latencies (floats) are not modelled.
- Bytes of a chunk: each chunk is decoded on its own before the line loop, so a character cut at a chunk edge is outside the model, which starts from decoded text.
- `LineFraming.Pump`: its `Feed` is a function on the assembler's fields; the class's `FeedLine` is proved equal to that function, and only `OpenAiStream` runs its loop on the object itself.
- `Progress.ProgressMeter.NoteDelta`: calls are sequential, as the sink is called from one job task; concurrent calls are not modelled.
- `LeaseSession.SessionSafe`: nothing is said about a result after a `cancelled` acknowledgement, since an abort lands only at the next await; the acknowledgement is one of the other frames.
- `Limits.LimitGuard.TryReserve`: the slot counter is unbounded; with no parallel cap its 32 bits would overflow at 2^32 live reservations.
- `Gateway.ExecuteObserved`: the catalog is one snapshot, the adapter is its reply, and message decoding is a parameter; token limits, temperature and tool choice only reach the adapter.
- `Delivery.DeliveredIsContent`: HTTP errors and connections lost mid-stream, which end a call as a refusal after what it forwarded, are only covered by the lemmas over an arbitrary reply.
- `OpenAiEquivalence.StreamingEqualsBlockingIff`: a tool call spelled as a JSON array, which the derived decoder also reads, is not modelled.
- `OllamaEquivalence.StreamingEqualsBlockingIff`: what the server would answer without streaming is taken to be the joined objects of the stream.
- `PercentCoding.UrlDecode`: the lossy conversion of decoded bytes to text is a parameter, of which the round trips only need that it leaves the original text alone.
- `AnthropicEquivalence.ContentAgrees`: assumes text fragments in block order, which `AnthropicEquivalence.TextOrderIff` shows to be exactly what is needed.
- Request builders, model listing, credential checks, vision calls, back-off, provider records and fingerprints: they would only add easy members.
