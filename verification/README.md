# Verification of the tail-sampling test service

A Dafny model of the service's stateful Go code and of the two-tier sampling pipeline it exercises,
with proofs over every handler run, every scenario tree, every clock and every pipeline run.
`dafny verify dfyconfig.toml` checks all of it.

## What is modelled

- **Response writers** (`Http`, `Writers`). Three heap objects: the connection's own writer, the
  capturing writer of `TraceErrors` and the status-recording writer of `RequestLogger`. Each carries
  the history of calls it received as a ghost field, and its invariant fixes its real fields as a
  function of that history. Interim 1xx codes are part of the model (section 15.2 of RFC 9110).
- **Middleware** (`Requests`). The code that runs after the handler, on a span and a log; the router's
  mounts as successive `Use` calls; and a request through *any* stack of layers, so that the effect of
  the mount order is a theorem. Otelchi opens the server span, which only the layers inside it find;
  the recoverer turns a panic into a final `WriteHeader(500)`.
- **Span executor** (`Tracing`). `child` and the four handlers as a method over a clock, an event word,
  a log and the exporter's queue. A scenario is a tree of calls; a callback may discard the error of a
  call, hand it on and stop, or inspect it and go on along a branch of its own, and any callback may
  return an error or panic. The clock adds an arbitrary overshoot at every start, sleep and end.
- **Trees and logs** (`Records`, `Brackets`, `Transcripts`, `Rebuild`, `Placement`). What a run records:
  export order, identifiers, nesting in time, error placement, the whole event word and log as read
  off the scenario, and rebuilding the tree from its spans in any arrival order.
- **Sampling** (`Sampling`, `Scenarios`, `Logbook`, `Endpoints`). The three policies, the four endpoints,
  their trees, logs and the decision each of them meets.
- **Pipeline** (`Front`, `Pipeline`, `Exactness`, `Histories`, `Capacity`). Any number of agents that hold spans for
  any time and pass them on in any order, each to the pod its trace id hashes to; pods with a bounded
  first-in-first-out queue; and decision ticks, in any interleaving. The state carries the run's
  history (which traces were decided, lost, late, ...); `Histories` says what each part of it means in
  terms of the actions alone.
- **Small parsers** (`Text`, `Lists`, `Scopes`). The comma list of the configuration and the scope check.

## What came out

- "Client behavior is unchanged" (internal/middleware/trace_errors.go:15) does not hold when a handler
  sends an interim 1xx code and then another header before any body. `Writers.Transparency` gives the
  exact condition, which the caller can read off its own calls; `Writers.EarlyHintsBreakTransparency`
  gives a run.
- The request log's status is the client's if and only if the run neither opens with an interim code
  nor sends its first header after some body, other than 200 (`Writers.LogStatusIsClientStatus`). A
  panic behind a partial body is such a run: the log says 500, the client received 200
  (`Writers.LateRecoveryIsLoggedOnly`). It takes body writes without any `WriteHeader` before them;
  this service's own handlers always send a header first, through `writeJSON`. The gap is an effect of
  mounting `TraceErrors` outside `RequestLogger`: with the two mounts swapped, span and log could not
  disagree (`Requests.SwappedMountsAgree`). In either order the span's status is the client's, unless
  the run opens with an interim code.
- Flat spans rebuild a tree in every arrival order if and only if no two siblings share both their
  start and their end (`Rebuild.Reconstruction`). Read off a scenario before it runs: they rebuild it
  on every clock if and only if of any two neighbouring calls one sleeps, itself or further inside
  (`Rebuild.ScenarioIsRebuilt`). Every call of the four scenarios sleeps, so theirs always do.
- A queue of `num_traces` is safe at `expected_new_traces_per_sec` if and only if it holds the rate
  times the seconds begun of decision wait and sweep delay together (`Capacity.CapacityIsExact`). The
  Helm values do until a sweep is 285 seconds old; the operator values (2500 against 7500) do not even
  when every sweep is punctual: a trace in error is then evicted and never stored.
- The comment on `Success` announces about 25 ms and that on `Heavy` about 120 ms; the sleeps add up
  to 18 ms and 112 ms. The Heavy handler opens 10 spans; the 11 in the repository's README count the
  server span.

## Assumptions about the collector and the tracing library

The hash is deterministic and the pod list fixed; agents neither lose nor repeat spans; the oldest
held trace is evicted, and nothing of it exported, once more than `num_traces` are held, decided traces included; a decision tick decides every trace held for at least
`decision_wait`; a span that follows a decision is exported or dropped as that decision says; the
probabilistic policy is an uninterpreted predicate of the trace id; the latency policy keeps a trace
whose spread, in whole milliseconds, is at least `threshold_ms`. A span that is ended by a deferred
call during a panic records an exception event and keeps its status.

## Model

| member | source | states |
|---|---|---|
| Writers.CaptureWriter.WriteHeader | internal/middleware/trace_errors.go:23-29 | status, header flag, captured bytes and the calls passed on stay the prescribed function of all calls received |
| Writers.CaptureWriter.Write | internal/middleware/trace_errors.go:31-46 | same invariant; the buffer is the first min(4096, total) bytes of everything written, and every byte is accepted |
| Writers.LoggingWriter.WriteHeader | internal/middleware/logger.go:36-42 | status is the code of the first WriteHeader ever received; later ones are not passed on |
| Writers.LoggingWriter.Write | internal/middleware/logger.go:26-30 | the promoted Write passes through and latches nothing |
| Writers.LoggingWriter.Status | internal/middleware/logger.go:44-46 | the code of the first WriteHeader, 200 without one |
| Writers.OneHeaderEach | internal/middleware/logger.go:36-42 | each writer passes on every body write in order, and one header at most: its first |
| Writers.StackedReply | internal/middleware/trace_errors.go:13-46 | the reply through both writers in closed form: the first call decides the status, the body is complete |
| Writers.Transparency | internal/middleware/trace_errors.go:13-46 | the client's reply through both writers equals the bare reply exactly when no early header is hidden behind an interim one |
| Writers.TransparencyWithoutInterims | internal/middleware/trace_errors.go:13-15 | for every run without interim codes the client sees no difference, and its status is the one the first call decides |
| Writers.EarlyHintsBreakTransparency | internal/middleware/trace_errors.go:23-29 | a run (103, then 404) on which the wrappers change the client's status |
| Writers.CaptureStatusIsClientStatus | internal/middleware/trace_errors.go:23-35 | the captured status is the client's exactly when the run does not open with an interim code |
| Writers.StatusAgreement | internal/middleware/logger.go:32-46 | the two layers differ exactly when the first header trails some write and is not 200 |
| Writers.LogStatusIsClientStatus | internal/middleware/logger.go:32-46 | the request log has the client's status exactly when the run neither opens with an interim code nor sends a first header late, other than 200 |
| Writers.LateRecoveryIsLoggedOnly | internal/routes/main_router.go:35-41 | a recovery after a partial body leaves 500 in the request log and 200 with the client and the capture |
| Writers.CaptureIsStable | internal/middleware/trace_errors.go:36-44 | the capture is a prefix of the body, complete up to 4096 bytes and final once full |
| Requests.NewRouter | internal/routes/main_router.go:23-55 | the eight mounts in order, which serving a request then relies on |
| Requests.FinishRequestLogger | internal/middleware/logger.go:94-133 | span attribute and log line from the status the logging writer latched; LevelsMatch says at which level |
| Requests.FinishTraceErrors | internal/middleware/trace_errors.go:60-92 | annotation and error line of a valid span from the captured status and body; an invalid span is left alone |
| Requests.RunHandler | internal/routes/main_router.go:40-41 | the logging writer receives exactly the handler's calls, and a 500 after a panic |
| Requests.ServeRequest | internal/routes/main_router.go:28-41 | a request served by the heap objects ends as the layered semantics of the mounted stack says |
| Requests.OutermostTraceErrorsDecides | internal/routes/main_router.go:32-35 | in any stack with TraceErrors inside otelchi and outside every request logger, the last http.status_code is the client's status unless the run opens with an interim code |
| Requests.TraceErrorsOutsideTracing | internal/routes/main_router.go:32-35 | mounted where no span is open yet, TraceErrors leaves no mark: why it comes after otelchi |
| Requests.SwappedMountsAgree | internal/routes/main_router.go:35-40 | with the mounts swapped, span and request line always carry the same status, and it is the client's exactly unless the run opens with an interim code |
| Requests.LoggerAloneMisleads | internal/middleware/logger.go:94-99 | without TraceErrors the span would report 500 for a reply of 200 |
| Requests.SpanStatusIsClientStatus | internal/middleware/trace_errors.go:65 | on the router's span the final status attribute is the client's status, exactly unless the run opens with an interim code |
| Requests.AnnotationClasses | internal/middleware/trace_errors.go:67-85 | over every run: ERROR exactly for client status 500 and up, error.kind exactly for 400 to 499, one event exactly from 400, with the first 4096 bytes of the reply |
| Requests.ProbesAreUnmarked | internal/routes/main_router.go:28-30 | health probes leave no mark on a span and no error line |
| Requests.OnlyProbesAreUntraced | internal/routes/main_router.go:28-30 | with tracing on a request is recorded on a span exactly when its path is none of the three probes |
| Requests.LevelsMatch | internal/middleware/logger.go:119-124 | the request line is at Error exactly from 500 and at Warn exactly from 400 to 499, and so is the error line on the client's status, with the first 4096 bytes of its body; whenever both are written they agree, and the request line stands alone exactly on a late error header |
| Requests.DebugKeepsErrorLines | internal/middleware/trace_errors.go:79-91 | in debug mode the error line alone is logged, exactly for client statuses from 400 |
| Requests.CleanRecovery | internal/routes/main_router.go:41 | a panic before any output is 500 for client and span |
| Tracing.Tracer.Execute | internal/handler/trace_test_handler.go:30-49 | one call of child, or a handler, takes the tracer from state to state as the run function says, on nil, error, panic and success paths |
| Tracing.Tracer.Call | internal/handler/trace_test_handler.go:38-46 | a callback's steps in order, with discarded, returned and inspected errors, and panics that end it; RunWrites says what they write |
| Tracing.Tracer.Handle | internal/logging/logging.go:25-33 | an enabled line is written, with trace and span id exactly when the span context is valid; a disabled one is not |
| Records.RunRecords | internal/handler/trace_test_handler.go:30-33 | spans are exported child first, identifiers handed out parent first without gaps, and every parent is the enclosing call |
| Records.RunIsOneTrace | internal/handler/trace_test_handler.go:31 | every span of a run carries its trace id |
| Records.RunConserves | internal/handler/trace_test_handler.go:30-49 | time is conserved exactly (sleeps asked for plus overshoot), spans nest, and the tree has the executed shape |
| Brackets.RunIsBracketed | internal/handler/trace_test_handler.go:31-48 | for every run, under any or no parent span, start and end events are well bracketed, every span starts under the innermost open one, and every line carries that one's ids |
| Brackets.RunLogs | internal/handler/trace_test_handler.go:35-47 | entry and exit lines stay in balance with the finished spans, per span |
| Brackets.EveryChildIsLogged | internal/handler/trace_test_handler.go:35-47 | every child span has exactly one span.start line, and one span.end line exactly when its callback neither failed nor panicked |
| Transcripts.RunWrites | internal/handler/trace_test_handler.go:30-49 | the whole word of every run, starts, ends and lines in order, is the one read off the scenario |
| Transcripts.RunLogIsTold | internal/logging/logging.go:21-33 | the log of a run is exactly the scenario's messages at or above the level, in order, each with the ids of its span |
| Transcripts.OnlyTextAboveDebug | internal/handler/trace_test_handler.go:35-47 | above DEBUG neither span.start nor span.end is written, only what callbacks emit |
| Logbook.EndpointLog | internal/handler/trace_test_handler.go:61-356 | at INFO each endpoint writes exactly its lines, in order, with their levels and the ids of the handler's or the call's span |
| Rebuild.Reconstruction | internal/handler/trace_test_handler.go:30-49 | the flat spans rebuild the tree in every arrival order exactly when no two siblings share both start and end |
| Rebuild.ScenarioIsRebuilt | internal/handler/trace_test_handler.go:30-49 | for every scenario: on every clock, from every tracer state and in every arrival order the exported spans rebuild the run's tree, if and only if no two neighbouring calls both go without a sleep |
| Rebuild.SeparatedIsRebuilt | internal/handler/trace_test_handler.go:30-49 | the rebuilt tree of such a scenario is nested and has the executed names, sleeps, statuses and exceptions |
| Rebuild.InstantSiblingsMislead | internal/handler/trace_test_handler.go:36 | a handler whose two calls go without a sleep, whatever else they do, has a run and an arrival order that mislead |
| Rebuild.TwoInstantsMislead | internal/handler/trace_test_handler.go:36 | the smallest such scenario: two child calls with sleep 0 and no callback |
| Placement.ErrorPlacement | internal/handler/trace_test_handler.go:38-48 | a call returns an error or panics exactly when a chain of callers handing it on, told step by step, leads to the callback that began it; a child span is in ERROR with an error exactly then, and a panic leaves the status unset |
| Placement.DiscardedNeverMatters | internal/handler/trace_test_handler.go:294-302 | calls whose error is discarded never decide how an enclosing call ends, panics apart |
| Placement.NestedMeans | internal/handler/trace_test_handler.go:31-36 | siblings are disjoint and lie inside their parent |
| Placement.RootDuration | internal/handler/trace_test_handler.go:36 | the root lasts at least all sleeps together, exactly that on an ideal clock |
| Placement.TruncationBound | internal/handler/trace_test_handler.go:33 | the recorded sleep_ms values sum to the total in whole milliseconds, short by at most one less than the number of calls |
| Placement.MillisecondsTruncate | internal/handler/trace_test_handler.go:33 | recorded milliseconds are truncated toward zero, for negative sleeps too |
| Sampling.Decision | k8s/otel-tail-sampler.yaml:90-104 | under any clock a scenario is kept exactly when a span failed, sleeps and overshoot reach the threshold, or the baseline picks it |
| Sampling.KeepMeans | k8s/otel-tail-sampler.yaml:90-104 | for any collection of spans: kept exactly when one failed, or two ends lie a second apart, or the baseline picks the trace |
| Sampling.KeepIsMonotone | k8s/otel-tail-sampler.yaml:90-104 | more spans can only speak for keeping a trace |
| Sampling.KeepIsOrderFree | k8s/otel-tail-sampler.yaml:90-104 | the decision does not depend on arrival order |
| Sampling.FragmentsMislead | k8s/otel-lb.yaml:2-5 | a slow trace split over two samplers is dropped by both: why spans are routed by trace |
| Scenarios.ScenarioFacts | internal/handler/trace_test_handler.go:61-356 | total sleep, number of spans and failures of each endpoint's tree |
| Scenarios.ScenarioTree | internal/handler/trace_test_handler.go:61-356 | name by name what each endpoint executes, what nests in what, and which call fails with what |
| Endpoints.ServedReply | internal/handler/trace_test_handler.go:51-55 | the client receives what the handler wrote, and only /failure leaves its server span in error |
| Endpoints.ScenarioDecision | internal/handler/trace_test_handler.go:57-60 | success and heavy are kept without the baseline exactly when overshoot alone fills the gap to the threshold; failure and latency always |
| Endpoints.RequestDecision | internal/handler/trace_test_handler.go:89-90 | the same for the whole request with its server span, with or without a propagated parent |
| Endpoints.StoredRequest | k8s/otel-lb.yaml:2-5 | end to end: a request whose spans travel through any agents, within the rate and before the decision, is stored exactly when the policies call for it, and what is stored rebuilds its tree |
| Front.HopsConserve | k8s/otel-lb.yaml:104-117 | however the agents hold and reorder spans, each has arrived or is still under way as often as it was sent |
| Front.TicksReachThePods | k8s/otel-tail-sampler.yaml:87 | after any hops, a decision tick finds its pod at the time that elapsed and leaves nothing undecided there that has waited long enough |
| Front.ForwardsReachThePods | k8s/otel-lb.yaml:104-117 | a span that an agent passes on is the next to arrive |
| Front.AgentsAreExact | k8s/otel-lb.yaml:104-117 | for any agents, pods and interleaving, a trace that no agent still holds and that was neither lost nor late is exported whole or not at all, as one sampler given every span sent decides |
| Exactness.WholeTracesAreExact | k8s/otel-lb.yaml:104-117 | for any pods and interleaving, a trace that was not evicted undecided and whose spans all came before its decision is exported whole or not at all, as a sampler holding all of it decides |
| Exactness.TimelyTracesAreExact | k8s/otel-tail-sampler.yaml:87 | spans within decision_wait of the first are never late, so their traces are exact |
| Exactness.AllOrNothing | k8s/otel-lb.yaml:2-5 | a trace with late spans is still exported whole or not at all, unless it was lost or queued a second time |
| Histories.NextOfTrace | k8s/otel-tail-sampler.yaml:86-104 | for one action and any trace, lost and queued again or not: what its pod then holds of it, how it is decided, and exactly which spans leave for storage |
| Histories.UndecidedIsUnexported | k8s/otel-tail-sampler.yaml:86-89 | in every run nothing of a trace is exported before a decision on it |
| Histories.LostIsUnstored | k8s/otel-tail-sampler.yaml:86-89 | once a pod has dropped a trace undecided, and unless another span of it comes, none of it is ever exported |
| Histories.HeldAtHome | k8s/otel-lb.yaml:104-117 | a trace is held only by the pod that its hash picks, and there once |
| Histories.TickDecides | k8s/otel-tail-sampler.yaml:87 | a tick leaves no trace of its pod undecided that has waited decision_wait |
| Histories.HistoriesMean | k8s/otel-tail-sampler.yaml:86-89 | decided, lost and late hold of a trace exactly when some action of the run decided it, dropped it undecided, or brought a span after its decision |
| Histories.TardyMeans | k8s/otel-tail-sampler.yaml:87 | tardy holds exactly when a span came decision_wait or more after the first, by arrival times alone |
| Histories.SlackMeans | k8s/otel-tail-sampler.yaml:87 | the bound on sweep delay holds exactly when at every arrival the last tick of that pod was at most that old |
| Histories.NewsMean | k8s/otel-tail-sampler.yaml:89 | the rate is judged on the arrivals of traces that their pod does not hold |
| Exactness.ShardedRefinesCentral | k8s/otel-lb.yaml:104-117 | on the same run the sharded pipeline exports of each trace that is not lost, and late in neither, what one central sampler exports, in the same order |
| Exactness.TimelyShardedRefinesCentral | k8s/otel-tail-sampler.yaml:87 | the same whenever the spans come within decision_wait, judged on the sharded run alone |
| Capacity.CapacityIsExact | k8s/otel-tail-sampler.yaml:86-89 | for every wait and every bound on sweep delay: no conforming run evicts an undecided trace, and just as much every conforming run stores each trace as the policies demand, if and only if rate times the seconds begun of both together fits the queue |
| Capacity.BurstLoses | k8s/otel-operator/otel-sampler.yaml:72-75 | when it does not fit, a run at exactly the declared rate and within the bound evicts a trace in error, none of which is stored although one sampler would keep it |
| Capacity.PipelineIsExact | k8s/otel-tail-sampler.yaml:86-104 | from the declared rate to exact exports of every trace without late spans: no hypothesis on evictions left |
| Capacity.HelmValuesSuffice | k8s/otel-tail-sampler.yaml:87-89 | the Helm values satisfy it for every sweep delay up to 285 seconds |
| Capacity.OperatorValuesLose | k8s/otel-operator/otel-sampler.yaml:73-75 | the operator values do not, even when no sweep is ever overdue: a trace in error leaves nothing in the exports |
| Lists.GetEnvSlice | internal/config/config.go:143-157 | the result is the trimmed pieces between the commas, in order and without the blank ones, or the fallback when unset or all are blank |
| Lists.ParsePicks | internal/config/config.go:145-152 | any comma-free pieces, joined and parsed, come back trimmed and in order, all but the blank ones and nothing else |
| Lists.ParseIsClean | internal/config/config.go:147-150 | parsed items are trimmed, non-empty and comma-free |
| Lists.ItemsKeepOrder | internal/config/config.go:146-151 | items come from the pieces in source order, and only blank pieces are passed over |
| Lists.ParsePrinted | internal/config/config.go:143-157 | joining a clean list and parsing it returns the list |
| Lists.ParseIsIdempotent | internal/config/config.go:143-157 | whatever was parsed survives printing and parsing |
| Text.SplitCuts | internal/config/config.go:147 | splitting cuts at every separator and loses nothing else |
| Text.TrimTakesTheEnds | internal/config/config.go:148 | trimming removes exactly the white space at both ends |
| Text.LatinSpaces | internal/config/config.go:148 | which characters up to U+00FF count as white space |
| Scopes.FieldsAreRuns | internal/middleware/jwt_auth.go:218 | the fields of a string are exactly its maximal runs without white space |
| Scopes.ScopeMatch | internal/middleware/jwt_auth.go:203-226 | a request passes exactly when the required scope is one of those runs; 401 exactly without a token |
| Scopes.FieldsOfJoined | internal/middleware/jwt_auth.go:218 | splitting a space-joined list of scope tokens (section 3.3 of RFC 6749) returns the list |

## Left out

- Write errors, short writes, flushing, hijacking, and statuses whose body net/http refuses (204, 304): the connection accepts every byte.
- The recoverer's exceptions (an Upgrade connection, an aborted handler): every panic becomes a final 500.
- What otelchi itself writes on the server span, and CORS, request id, real IP and security headers: layers that pass calls through.
- Debug-mode request output, which goes to the terminal and not to the log.
- Span attributes other than status code, error kind, response body, sleep and ids; the text of http.StatusText; what an exception event says.
- Callbacks that branch on anything but how their calls end (the clock, shared state), and runtime.Goexit.
- Spans that other services add to a propagated trace.
- Span identifiers are counted, not random; only their being distinct is used.
- 64-bit overflow of durations: the clock is unbounded.
- Concurrent calls inside one request: the handlers make none.
- Collector batches (agents may hold and reorder spans, one by one), retries, memory limits, restarts, pod changes and real randomness.
- The span-metrics branch of the operator's pipeline: it neither samples nor feeds the sampled one.
- OIDC discovery, token parsing, roles, the generated API, the repository layer, `Validate` and the scalar environment helpers: libraries or single branches.
- Text works on Unicode scalar values; byte sequences that are not UTF-8 are not modelled.
