# apparitor: a verified model

apparitor sits between an agent and what the agent wants to do. It turns each tool call (or agent invocation, or
resource read) into AuthZEN evaluation requests, asks a policy decision point about them, and folds the answers into
one verdict, or into one verdict per item when it shapes a listing. This project models that pipeline in Dafny and
proves what it promises: fail closed, agree with itself on every path, cache only what may be cached, stay inside the
time budget, and count every decision once.

Everything outside the library is arbitrary. The mapper, the decision point, the review predicate, the skill resolver
and the metrics sink are function values that may fail in every way the code can meet, handed to each evaluation; the
clock, the HTTP replies and the random jitter of a request are a script of readings. A cancelled await is an outcome of
its own. `dafny verify dfyconfig.toml` verifies all files.

| file | what it models |
|---|---|
| `Wrappers.dfy` | options, results, the error hierarchy, the three ways an await ends |
| `Json.dfy` | JSON documents, the values they load to, the strict reader |
| `CanonicalText.dfy` | the sorted, compact text of the cache key, and a parser that inverts it |
| `CodePoints.dfy` | which Python strings that text tells apart |
| `Models.dfy` | requests, responses, their wire form and their equality |
| `Decision.dfy` | verdicts, the severity lattice, the error table |
| `Cache.dfy`, `CacheRuns.dfy` | the ALLOW cache, and scans that interleave over it |
| `Client.dfy`, `AuthZenClient.dfy` | the retry loop in attempts and in time; response models over it |
| `Metrics.dfy` | counters and the latency histogram |
| `Engine.dfy`, `AuthorizationEngine.dfy` | the pipeline as functions, and the engine object |
| `EngineTheorems.dfy`, `EngineExact.dfy`, `EngineRuns.dfy` | what holds of every evaluation, every verdict in terms of what was met, and whole runs |
| `Backends.dfy`, `Cedar.dfy`, `Gateway.dfy` | batch shaping, the concurrent fan-out, the in-process backend, the example gateways |
| `Keys.dfy`, `Mapping.dfy` | composed policy keys and the mappers |
| `Gates.dfy`, `FastMcp.dfy` | the two network-boundary gates |

Points where the code is narrower or wider than its documentation suggests, and what is proved instead:

- A flush does not fence a scan that already waits for its answer: an ALLOW asked for before `clear()` and handled after
  it is cached and served (`CacheRuns.FlushDoesNotFenceWaitingScans`). It happens for a request exactly when the cache
  works and a scan for its key is waiting at the flush, so a flush with no scan in flight fences everything
  (`CacheRuns.FlushFencesExactly`).
- A request that ends on 429 replies is a hard block exactly when the retry of the last one was refused. When the
  clamped backoff runs into the deadline instead, the error is a timeout and resolves through `on_error`
  (`Client.ExhaustedFailure`, `Client.ThrottledUntilDeadline`).
- A listing agrees with enforcement exactly when nothing in the listing failed; one failing request hides all items
  (`EngineTheorems.VisibleMeansCallable`).
- The cache key tells requests apart by the UTF-16 units of their strings. A Python string shares its text with another
  one exactly when it holds a character outside the basic plane, which can also be written as two surrogates, or such
  two surrogates (`CodePoints.SharedTextExact`).

## Model

| member | source | states |
|---|---|---|
| Json.RejectDuplicates | src/apparitor/client.py:237-248 | the hook returns a dictionary exactly when no key repeats, with every pair and nothing else in it; otherwise the response is malformed |
| Json.LastMemberWins | src/apparitor/client.py:229-230 | the default reader keeps the last of the members that share a key |
| Json.StrictReaderExact | src/apparitor/client.py:226-255 | a document is accepted iff no object at any depth repeats a key, and then loads to the default last-wins value |
| Json.ReorderedLoadsEqual | src/apparitor/client.py:229-241 | permuting members at any depth does not change the loaded value of a document without repeats |
| Json.StrictReaderIgnoresOrder | src/apparitor/client.py:237-248 | permuting members at any depth changes neither acceptance nor value |
| CanonicalText.SortMembersSorts | src/apparitor/cache.py:33-37 | sorting keys permutes the members of an object and orders them by code point |
| CanonicalText.KeyLeqExact | src/apparitor/cache.py:33-37 | the key order is Python's: a prefix comes first, otherwise the first differing code point decides |
| CanonicalText.SortedUnique | src/apparitor/cache.py:33-37 | a sorted object is determined by its members, so dictionary order is irrelevant |
| CanonicalText.ReadUnitEscape | src/apparitor/cache.py:33-37 | every escaped UTF-16 unit reads back, whatever follows it |
| CanonicalText.ReadValuePrint | src/apparitor/cache.py:33-37 | the parser reads a printed value back at any nesting depth and stops where it ends |
| CanonicalText.ParsePrint | src/apparitor/cache.py:33-37 | parsing inverts printing for every document |
| CanonicalText.EqualValuesShareCanon | src/apparitor/cache.py:27-32 | documents of equal value have the same sorted form, at any depth |
| CanonicalText.DumpsInjective | src/apparitor/cache.py:26-38 | two documents print the same canonical text iff they load to equal values |
| CodePoints.Utf16OfInjective | src/apparitor/cache.py:33-37 | Python strings in which no surrogate pair stands split have equal texts only when they are equal, lone surrogates included |
| CodePoints.SharedTextExact | src/apparitor/cache.py:33-37 | a Python string shares its text with another one iff it holds an astral character or the two surrogates of one |
| Models.KeyTextIdentifiesRequests | src/apparitor/cache.py:26-38 | two requests have the same key text iff they are equal as JSON values, properties and context compared as mappings, absent context told from empty |
| Models.WireFormExact | src/apparitor/models.py:83-93 | the dump of a request loads to exactly its subject, action and resource by field name and, when there is one, its context |
| Decision.EscalateIsJoin | src/apparitor/decision.py:83-85 | escalation is the least upper bound of a total order: never a downgrade, associative, commutative, idempotent, with SKIP at the bottom |
| Decision.JoinIsMaximum | src/apparitor/decision.py:53-60 | the join of several verdicts is their maximum severity and one of them |
| Decision.JoinDependsOnMembers | src/apparitor/decision.py:83-85 | order, grouping and repetition of verdicts do not matter |
| Cache.DecisionCache.constructor | src/apparitor/cache.py:44-56 | the lifetime is clamped to the ceiling and the capacity to at least one |
| Cache.DecisionCache.Get | src/apparitor/cache.py:58-66 | hits iff an unexpired entry is held; an expired one is deleted, anything else stays |
| Cache.DecisionCache.SetAllow | src/apparitor/cache.py:68-78 | the new contents are the refresh in place, or the insertion at the end after at most one eviction; a suggested lifetime is only clamped down |
| Cache.DecisionCache.Clear | src/apparitor/cache.py:80-82 | nothing is left |
| Cache.SetKeepsOrder | src/apparitor/cache.py:68-78 | size never exceeds the capacity, only the oldest insertion is evicted, a refresh keeps its place |
| Cache.RunIsSubmap | src/apparitor/cache.py:58-82 | after any operations the bounded cache is a sub-map of the unbounded one: eviction only causes misses |
| Cache.RunIsUnboundedBelowCap | src/apparitor/cache.py:73-77 | while the unbounded map never outgrows the capacity the two are equal |
| Cache.UnboundedMeansNewestStoring | src/apparitor/cache.py:58-82 | with a monotone clock a lookup finds exactly the newest storing since the last flush, if it is still alive |
| Cache.HitMeansNewestStoring | src/apparitor/cache.py:58-82 | every hit is justified by a live storing since the last flush, and below the capacity every such storing hits |
| Cache.OrderIsInsertionOrder | src/apparitor/cache.py:73-78 | the held keys stand in the order in which they were inserted, refreshes not counting |
| CacheRuns.LoneScanIsSingleEvaluation | src/apparitor/engine.py:380-394 | the engine's single evaluation is a start step on a hit, and otherwise a start step and an end step around the one await, whether it is answered, fails or is cancelled |
| CacheRuns.EntryJustified | src/apparitor/engine.py:380-394 | every entry goes back to an answer of true without review for its key, after the latest flush; no deny, review or error is stored |
| CacheRuns.CachedAnswerIsJustified | src/apparitor/engine.py:380-394 | over all interleavings a cached ALLOW repeats an answer of true to an equal request, handled less than the ceiling ago and after the latest flush |
| CacheRuns.DisabledCacheNeverAnswers | src/apparitor/engine.py:79-87 | with the cache off or without a lifetime nothing is answered from it |
| CacheRuns.FlushDoesNotFenceWaitingScans | src/apparitor/engine.py:388-393 | a concrete run in which an answer waited for across a flush is stored and served |
| CacheRuns.FlushFencesExactly | src/apparitor/cache.py:80-82 | after any run and a flush, with nothing asked since, a request can be answered from the cache iff the cache works and a scan waiting at the flush asked for its key |
| CacheRuns.CachedAnswerPastFlush | src/apparitor/engine.py:380-394 | a cached ALLOW after a flush repeats a grant to an equal request asked after the flush, unless a scan for that key was waiting at it |
| Client.HTTPDecisionTransport.Post | src/apparitor/client.py:141-182 | the loop makes exactly the attempts and sleeps of the recursive specification and returns its result, also when an await is cancelled or raises anything else |
| Client.HTTPDecisionTransport.Backoff | src/apparitor/client.py:187-196 | one sleep clamped to the remaining budget, or none when the budget is gone; only a sleep can be cancelled |
| Client.RetryLoopExact | src/apparitor/client.py:141-185 | at most max_retries + 1 attempts; every one but the last ended in a timeout, a transport error or a 429, 502, 503 or 504 with attempts and time left; a last one of that kind stands only without them; the result is its meaning, an exhausted budget or a cancelled sleep |
| Client.EndsAfterUnique | src/apparitor/client.py:141-185 | that description determines the number of attempts and the result |
| Client.AttemptsWithinBudget | src/apparitor/client.py:147-158 | every attempt starts before the deadline, each of its four timeouts being the configured one or all that is left; a sleep of the jittered backoff or all that is left follows exactly the retried attempts with time left, and none ends past the deadline |
| Client.TotalSleepBounded | src/apparitor/client.py:187-196 | total sleep is at most the budget, and at most the sum of the capped backoffs with full jitter |
| Client.BudgetBoundsWallClock | src/apparitor/client.py:141-196 | if attempts end within the time they were handed, the request ends by the deadline, late by at most two scheduling lags |
| Client.BackoffDoubles | src/apparitor/client.py:187-189 | the first backoff is the base and each is twice the one before, up to the maximum |
| Client.OutcomeExact | src/apparitor/client.py:258-269 | a value comes only from a final 2xx body without repeated keys and is its loaded value; a client error only from a final 4xx; a timeout only from a final timeout or an exhausted budget; a cancellation only from a cancelled await |
| Client.ExhaustedFailure | src/apparitor/client.py:176-185 | unless a sleep was cancelled, a final 429 is a hard block iff its retry was refused, and any other end on a retryable reply resolves through on_error |
| Client.ThrottledUntilDeadline | src/apparitor/client.py:176-196 | a concrete punctual run, throttled once, that ends as a timeout because the clamped sleep reaches the deadline |
| AuthZenClient.EvaluateExact | src/apparitor/client.py:213-217 | the client answers with a decision and context iff the final body literally says them, once and with the context absent, null or an object; a body that does not is malformed; otherwise the failure of the request |
| AuthZenClient.EvaluateBatchExact | src/apparitor/client.py:219-223 | the same for a batch: one such object per answer, in order, or no list at all |
| AuthZenClient.AllowNeedsLiteralTrue | src/apparitor/client.py:213-217 | an uncached request is allowed iff its final 2xx body repeats no key, literally says true, and carries no context that the review predicate minds |
| AuthZenClient.BatchAllowNeedsLiteralTrue | src/apparitor/client.py:219-223 | a batch is allowed iff the final body lists one such answer per request |
| Metrics.BisectLeft | src/apparitor/metrics.py:69-71 | binary search finds the slot above all smaller bounds and not above the next one |
| Metrics.InMemoryMetrics.constructor | src/apparitor/metrics.py:54-64 | any bounds, duplicates included, are kept as a sorted permutation; nothing is counted yet |
| Metrics.InMemoryMetrics.RecordDecision | src/apparitor/metrics.py:66-73 | adds exactly one observation; labels, slots, sum and count stay those of the list of observations |
| Metrics.InMemoryMetrics.RecordCache | src/apparitor/metrics.py:75-79 | adds exactly one lookup outcome to the hits or the misses |
| Metrics.InMemoryMetrics.LatencyHistogram | src/apparitor/metrics.py:81-89 | entry i is the number of observations at most bound i, entries never decrease, the last is the latency count and the sum of all decision counters |
| Metrics.InMemoryMetrics.Reset | src/apparitor/metrics.py:91-99 | no observation and no lookup is left |
| Metrics.SlotsSumToCount | src/apparitor/metrics.py:81-89 | prefix sums of the slot counts are the counts of observations at most each bound |
| Metrics.SumMapIncrement | src/apparitor/metrics.py:67-68 | recording a decision raises the sum of the decision counters by one |
| Engine.FlattenAt | src/apparitor/engine.py:318-318 | position offset(i) + k of the flattened batch is request k of group i |
| EngineTheorems.BatchAnswerIsJoin | src/apparitor/engine.py:396-414 | aggregating and escalating once on any review equals joining the per-leg verdicts |
| EngineTheorems.GuardedIsJoin | src/apparitor/engine.py:375-414 | without faults and with the cache off, the single and the batch endpoint give the same result, the join of the legs, with its reason and status |
| EngineTheorems.GuardedVerdictIsJoin | src/apparitor/engine.py:375-414 | without faults, and over any cache that agrees with the decision point, every path gives the join of the legs |
| EngineTheorems.MessageVerdictIsHomomorphic | src/apparitor/engine.py:367-414 | without faults, and over any cache that agrees with the decision point, the verdict of two messages evaluated as one is the escalation of their verdicts, abstention being the unit |
| EngineTheorems.MessageVerdictIgnoresOrder | src/apparitor/engine.py:367-414 | without faults, and over any cache that agrees with the decision point, permuting, regrouping or repeating calls does not change the verdict |
| EngineTheorems.GroupLegs | src/apparitor/engine.py:323-332 | the shared iterator hands every group exactly the answers to its own requests |
| EngineExact.GroupsExact | src/apparitor/engine.py:466-480 | a message maps to one list of requests per call (none, the one, or the several returned), unless a mapping raises; then the first fault stands |
| EngineExact.GuardedExact | src/apparitor/engine.py:264-292 | the verdict on any list of requests, completely: cached, the failure, the misfit, the first fault of the review, or block on any denial, else human review on any wish for it, else allow, with its text; only one request touches the cache |
| EngineExact.MessageExact | src/apparitor/engine.py:244-262 | the same for messages, with the first mapper fault blocking and nothing to ask skipping |
| EngineExact.ListingExact | src/apparitor/engine.py:294-347 | the verdict on each item of a listing, completely: abstained, the failure of the listing, or what the answers to its own requests deserve |
| EngineTheorems.ItemsArePointwise | src/apparitor/engine.py:294-347 | one result per call: the join of the legs of that call's requests, abstentions blocked |
| EngineTheorems.FaultHidesListing | src/apparitor/engine.py:341-347 | if some request or review fails, no item of the listing is allowed |
| EngineTheorems.VisibleMeansCallable | src/apparitor/engine.py:177-200 | with the cache off and a decision point that answers both endpoints alike, an item is allowed in a listing iff calling it alone is allowed and nothing in the listing failed; then verdict, status and reason agree, whichever endpoint is used |
| EngineTheorems.AllowMeansGranted | src/apparitor/engine.py:264-277 | ALLOW is given iff the cache hits or every request got true and its context is not one the review predicate minds; it always carries SUCCESS |
| EngineTheorems.GrantedPointwise | src/apparitor/engine.py:375-378 | over a decision point that answers both endpoints alike, a list is granted iff each of its requests is granted alone |
| EngineTheorems.MessageFailsClosed | src/apparitor/engine.py:244-262 | a message is allowed iff it maps to at least one request and all were granted or the one was cached; mapper faults and abstention never allow |
| EngineTheorems.InlinePassesExactly | src/apparitor/decision.py:112-141 | the inline predicate passes what the gateway predicate passes, and beyond that only messages that map to nothing |
| EngineTheorems.FaultMet | src/apparitor/engine.py:264-292 | an ERROR message verdict is the table applied to a fault of the mapping, the decision point or a review; only an answer count that does not fit gives a fault of the engine's own |
| EngineTheorems.ItemFaultMet | src/apparitor/engine.py:294-347 | the same for every erroneous item of a listing that asked something |
| EngineTheorems.ReviewOnlyForServiceErrors | src/apparitor/engine.py:279-292 | on the aggregate and the per-item path an ERROR is a block, or a review only for a service error that was met, and only under the review policy |
| EngineTheorems.WrongLengthBlocks | src/apparitor/engine.py:320-322 | a batch answer of the wrong length is (BLOCK, ERROR) on both paths whatever on_error says |
| EngineTheorems.ItemFailsClosed | src/apparitor/engine.py:294-347 | an allowed item had requests, and the answers at their positions were all true without review |
| EngineRuns.PerformOne | src/apparitor/engine.py:89-200 | every operation of the engine object gives its caller and its cache what the specification says, whatever the sink does, and records that outcome |
| EngineRuns.PerformRun | src/apparitor/engine.py:202-242 | over any run of operations outcomes and cache do not depend on the sink; a sink that does not raise has seen exactly the verdicts the callers got, one per listed call, with a block for each interruption and nothing for empty or refused operations |
| AuthorizationEngine.AuthorizationEngine.EvaluateToolCalls | src/apparitor/engine.py:89-104 | an unparseable call blocks the message and leaves the cache; otherwise verdict and cache are those of the normalised calls; one decision is recorded, at zero latency for an unparseable message, unless the message is empty |
| AuthorizationEngine.AuthorizationEngine.EvaluateNormalized | src/apparitor/engine.py:106-127 | verdict and cache are those of the specification whatever the sink does; with a quiet sink exactly one decision is recorded |
| AuthorizationEngine.AuthorizationEngine.EvaluateRequests | src/apparitor/engine.py:129-147 | the same for pre-mapped requests |
| AuthorizationEngine.AuthorizationEngine.EvaluateWithBoundary | src/apparitor/engine.py:149-175 | refuses without a decision iff caller and boundary are one principal; otherwise evaluates both legs with the same action, resource and context |
| AuthorizationEngine.AuthorizationEngine.EvaluateEach | src/apparitor/engine.py:177-200 | one verdict per call, whatever the sink does; one record per call, or one if cancelled |
| AuthorizationEngine.AuthorizationEngine.Single | src/apparitor/engine.py:380-394 | lookup, question and storing in order; only an ALLOW is stored |
| AuthorizationEngine.AuthorizationEngine.DecideEachCall | src/apparitor/engine.py:294-347 | the imperative loop over groups computes the item-by-item specification |
| AuthorizationEngine.AuthorizationEngine.CombineGroups | src/apparitor/engine.py:323-333 | walking groups and one shared iterator gives each group its own slice of the answers; the first review fault wins |
| AuthorizationEngine.AuthorizationEngine.BuildRequests | src/apparitor/engine.py:367-373 | the requests of all calls in order, or the first mapper fault |
| AuthorizationEngine.AuthorizationEngine.EmitEach | src/apparitor/engine.py:349-365 | one record per item unless the sink raises |
| AuthorizationEngine.MetricsSink.RecordPreEngineRefusal | src/apparitor/decision.py:196-206 | a refusal before the engine counts once as (BLOCK, ERROR); a raising sink is swallowed |
| Backends.BatchRoundTrip | src/apparitor/engine.py:449-463 | merging the entries of a shaped batch gives the requests back in order |
| Backends.Gather | src/apparitor/backends.py:80-89 | for every completion order: all results in request order, or the first failure to complete |
| Backends.EvaluateBatch | src/apparitor/backends.py:80-93 | the batch is answered request by request, or fails with one request's failure |
| Backends.FanOutIsPointwise | src/apparitor/backends.py:80-93 | the fan-out of the engine's batch equals the single queries; any failing entry fails the batch and no shorter list comes back |
| Backends.NativeBackendIsDeterministic | src/apparitor/backends.py:76-93 | the native backend meets the assumption of the path-agreement theorems |
| Backends.QueryExact | src/apparitor/backends.py:91-128 | a query answers iff its final body literally gives a boolean result, malformed if the body gives none, otherwise the failure of the request |
| Backends.AllowNeedsLiteralTrue | src/apparitor/backends.py:76-93 | over the native backend, without the cache, requests are allowed iff every query ended on a 2xx body that repeats no key and literally says true |
| Cedar.CedarIsDeterministic | src/apparitor/cedar.py:117-158 | over bindings that answer batches like single requests, the Cedar backend meets the assumption of the path-agreement theorems |
| Cedar.DecideExact | src/apparitor/cedar.py:126-144 | the engine is asked about the subject as principal, the action and the resource as quoted uids and the context; only its allow is one, no decision denies, a raise is malformed |
| Cedar.DecideBatchExact | src/apparitor/cedar.py:146-158 | the same for every request of a batch in order; one unusable identifier or a raise fails it whole |
| Gateway.EvaluateBatch | examples/cedar/gateway/gateway.py:161-192 | a readable body with a list of at most 100 entries gets one decision per entry in order, true only for an object entry whose merged tuple was allowed; anything else is 400 or 413 |
| Gateway.MergesCoincide | examples/cedar/gateway/gateway.py:99-110 | on dumped payloads the membership-based merge reads as the dump of the library's merge, with null for absent members |
| Gateway.RequestBodyIsDump | src/apparitor/client.py:215-215 | the body of a request is its dump, absent context dropped |
| Gateway.BatchEntries | src/apparitor/engine.py:449-463 | a batch body holds the defaults, the entries and the demand for every decision, and nothing else |
| Gateway.GatewayBatchIsPointwise | examples/opa/gateway/gateway.py:171-202 | the gateway decides entry i of an engine batch as it decides request i alone |
| Keys.NormalizeIdempotent | src/apparitor/mapping.py:379-381 | normalising twice is normalising once, and a normalised name needs no stripping |
| Keys.NormalizeExact | src/apparitor/mapping.py:379-381 | two names share a key iff, stripped, they are the same letters in whatever case |
| Keys.StripShape | src/apparitor/mapping.py:136-137 | stripping drops whitespace around the text and nothing else |
| Keys.McpToolKeyExact | src/apparitor/mapping.py:127-142 | two calls share an MCP id iff stripped servers and normalised tools agree |
| Keys.McpToolKeyDefined | src/apparitor/mapping.py:136-141 | an id exists iff both segments are non-empty and slash-free |
| Keys.PromptKeyExact | src/apparitor/fastmcp.py:388-402 | a prompt key determines the stripped label and the verbatim name |
| Keys.AgentResourceExact | src/apparitor/a2a.py:256-267 | type and id determine the agent label and the verbatim skill |
| Keys.EntityUidExact | src/apparitor/cedar.py:55-64 | a Cedar uid determines the mapped type and the identifier, whatever the type text contains |
| Mapping.RedactionForgetsValues | src/apparitor/mapping.py:184-191 | with redaction, calls that differ only in argument values map to one request |
| Mapping.ForwardedArgumentsAreKept | src/apparitor/mapping.py:186-191 | without redaction and truncation, equal requests come only from equal names and arguments |
| Mapping.DefaultMapExact | src/apparitor/mapping.py:170-215 | the default mapper asks about the request-scoped subject or the configured agent, for the normalised tool with its arguments as they may be forwarded, and faults only without a subject |
| Mapping.McpCallsShareResource | src/apparitor/mapping.py:233-250 | two calls map to one MCP resource iff stripped servers and normalised tools agree |
| Mapping.DualMessageNeedsBoth | src/apparitor/mapping.py:313-340 | a dual-principal message is allowed iff user and agent differ and the batch of both legs of every call, user before agent over one action, resource and context, was granted throughout; a missing or collapsed principal is a hard block; the cache takes no part |
| Gates.Gate | src/apparitor/fastmcp.py:269-296 | only a clean ALLOW executes; everything else refuses with fixed text, and what the engine did not count is counted |
| Gates.A2AAuthorizationExecutor.Execute | src/apparitor/a2a.py:188-205 | the delegate runs iff the request the invocation is about was granted, on both legs with a boundary; every invocation counts once, as an allow iff it ran |
| Gates.AuthorizeRequestExact | src/apparitor/engine.py:149-175 | with a boundary, allowed iff the two principals differ and both legs were granted; without one, iff the request was granted or cached |
| Gates.ServeAll | src/apparitor/a2a.py:188-231 | with a boundary, over any run of invocations the delegate runs for exactly those whose subject and resource resolved and whose caller differs from the boundary and was granted with it; every other one refuses, and each is counted once |
| Gates.InvocationRequestExact | src/apparitor/a2a.py:211-276 | what is asked about an invocation: the authenticated user by stripped name, else the injected or opted-in static subject; agent.invoke on the agent or its verbatim skill; the enrichment and the tenant |
| Gates.AuthenticatedCallerStands | src/apparitor/a2a.py:233-254 | an authenticated caller is its stripped name, whatever is injected or configured; a nameless one is refused |
| Gates.AuthenticatedCallersAreToldApart | src/apparitor/a2a.py:233-254 | users whose stripped names differ never share a request |
| Gates.WorkloadCallerIsInjected | src/apparitor/decision.py:173-193 | a caller of the reserved workload type is injected by the deployment, never minted from authentication or configuration |
| FastMcp.FastMCPAuthorizationMiddleware.OnCallTool | src/apparitor/fastmcp.py:200-212 | the tool runs iff a subject resolved and everything the mapper makes of the call for that subject and server label was granted; every call counts once, as an allow iff it ran |
| FastMcp.ToolCallExact | src/apparitor/fastmcp.py:345-360 | with the default mapper a tool call is authorized iff the request for the resolved subject and the id of stripped label and normalised name was granted or cached |
| FastMcp.FastMCPAuthorizationMiddleware.OnAccess | src/apparitor/fastmcp.py:237-267 | reads and prompts run iff the request they stand for was granted on both legs, and count once, as an allow iff they ran; an opted-out surface runs uncounted |
| FastMcp.FastMCPAuthorizationMiddleware.OnListTools | src/apparitor/fastmcp.py:214-235 | listed tools keep their order, shown iff an entry of that name was allowed; no subject and faults hide all |
| FastMcp.ListedMeansCallable | src/apparitor/fastmcp.py:328-343 | for a mapper that looks at names only, a tool is listed iff calling it is authorized and nothing in the listing failed |
| FastMcp.AccessesAreToldApart | src/apparitor/fastmcp.py:362-404 | two accesses of one client are equal requests iff they are the same access: URIs and prompt names are verbatim |
| FastMcp.InjectedExact | src/apparitor/fastmcp.py:345-360 | the mapper is told the client by its verbatim subject claim, or the opted-in workload, the host's or the static subject, with the token's facts, and the pinned, host's or server's label |
| FastMcp.ShapedRequestExact | src/apparitor/fastmcp.py:362-404 | the request of a read is about that client and the verbatim URI, that of a prompt about the label and the verbatim name, when both are usable |
| FastMcp.ClaimsAreToldApart | src/apparitor/fastmcp.py:406-415 | clients with different subject claims are never one subject, whatever client their tokens were issued to |
| FastMcp.TokenOutranksHost | src/apparitor/fastmcp.py:406-435 | a verified token outranks host-injected subjects and is never downgraded |
| FastMcp.WorkloadIsVerified | src/apparitor/fastmcp.py:416-426 | a workload subject comes from a verified client token, opted in, or from the host itself |

## Left out

- SHA-256: cache keys go through an arbitrary digest; the run theorem asks for an injective one.
- Floats, NaN and non-string dictionary keys: JSON values are null, booleans, integers, strings, arrays and objects.
- CanonicalText.DumpsInjective: strings inside documents are Unicode scalar values; what surrogates do to the text of a string is stated in CodePoints, string by string.
- Models.KeyTextIdentifiesRequests: strings are Unicode scalar values here too.
- Tokenising JSON text of PDP responses: the strict reader starts from the parse tree, or from the fact that there is none.
- HTTP, TLS, pooling, redirects and the URL guard; a reply is a status with a body, a timeout or a transport error.
- Latency and budgets are real numbers; float rounding is not modelled.
- OPA, Cedar and cedarpy policy evaluation: arbitrary functions that may fail. The construction of the Cedar backend (loading and validating policies) is not modelled.
- Log lines, log levels and logging failures, except that a raising metrics sink never changes a verdict.
- A raising metrics sink records nothing for the write that raises.
- The review predicate is a function of the response context within one evaluation; between evaluations it may be any other.
- Adapter detection (adapters.py), scanner.py, nemo.py, lazy exports and missing-dependency guards: normalisation is a partial function whose failure blocks the message.
- Context variables and scope managers: request-scoped subjects and contexts are inputs. The mapper of the FastMCP middleware is one function of what it is told; a mapper that changes between requests is met at the engine only.
- Unicode lower-casing beyond A to Z, and Python title-casing, which is an arbitrary function.
- The size measure of the argument cap is an arbitrary function of the arguments.
- AuthorizationEngine.AuthorizationEngine.Single: runs without interference between lookup and storing; interleaved scans are the step machine of CacheRuns, whose steps are the same two functions.
- Gates.Gate: the wrapped handler is a counter of executions; what it returns or raises afterwards is not modelled.
- FastMcp.FastMCPAuthorizationMiddleware.OnListTools: the listing is a sequence of names; mount prefixes (`_listed_name`) and the fetch of the list itself are not modelled.
- EngineTheorems.VisibleMeansCallable: stated with the cache off, because listings never consult it and a cached ALLOW carries its own reason text; so is FastMcp.ListedMeansCallable.
- EngineTheorems.MessageVerdictIsHomomorphic: asks that cached entries agree with what the decision point answers now, because a stale entry need not.
- Examples other than the two gateways, fuzz harnesses, release tooling.
