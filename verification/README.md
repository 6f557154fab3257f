# BSGateway: verified models of its protocols, caches and rules

A Dafny model of the parts of BSGateway whose correctness spans several functions, or several processes,
with proofs over every input, every interleaving and every run. `dafny verify dfyconfig.toml` checks it.

| files | what they model |
|---|---|
| `RegistryMerge`, `RegistryProtocol`, `RegistryProgress`, `RegistryService` | the per-tenant model registry: the yaml-and-database merge, the double-checked locked TTL cache as a step system over interleaved calls, and the service object |
| `RouterPassthrough`, `Tiers` | what a tenant may pass through, and which tier a score, a hint or a priority leads to |
| `TaskWorker`, `TaskProtocol`, `TaskProgress`, `TaskDelivery`, `DeliveryProgress`, `ClaudeRetry` | the executor task protocol: what a worker publishes and posts, the gateway that streams or waits, delivery from the stream under bounded parallelism, and the retry state machine of the Claude executor |
| `Messages`, `Conditions`, `ConditionMeaning`, `RuleEngine`, `RuleBatch` | text extraction, conditions, first-match evaluation, and batch evaluation |
| `Presets`, `PresetIntents`, `Cache`, `RulesCache`, `RulesEffect`, `RulesRepository` | preset application and what its intents change, the Redis cache manager, and the cached rule list under all histories of mutations |
| `StaticScore`, `ScoreInputs`, `Fingerprint`, `Collisions`, `CachingClassifier` | the complexity score and what it reads, the hashed byte stream, what equal streams hide, and the classifier cache |
| `IntentClassifier` | hydration of intent examples and the best match over them |
| `RateLimit` | the fixed-window rate limiter, with delayed and failing Redis commands |

## How to read the models

- **Interleavings.** `RegistryProtocol`, `TaskProtocol`, `TaskDelivery` and `RateLimit` are step systems: a
  `State`, an `Event` for each stretch between two awaits, `Enabled`, `Apply`, and `IsRun` over whole event
  sequences; the runs of `CachingClassifier` interleave calls at their awaits likewise. Every theorem
  quantifies over all runs. The objects beside them (`ModelRegistryService`, `StreamManager`, `WorkerLoop`,
  `RateLimiter`) carry the source's loops and dictionaries.
- **Libraries are parameters.** Clocks, Redis answers, database rows, generated ids, `lower`, regex search,
  tokenisation, `float`, similarity and the hash are parameters or functions about which nothing is assumed
  beyond what a `requires` says; a parsed number may be a NaN or an infinity. Floating-point weights and
  times are exact reals.
- **Failures are inputs.** A Redis command that fails, a lost reply or a lost publish is a flag or an event.

## Where the code differs from what it says, or from what one would expect

- `bsgateway/streams.py:94-96` describes an idle timeout; the code (`106-110`) sets one deadline when the
  iteration starts. The model follows the code. `TaskProtocol.IdleReadingExactly` says when the two readings
  part, and `StopsInMidStream` is a run that loses text by it.
- A stream that runs into its deadline ends with the stop frame and no error, so the client cannot tell it
  from a complete answer (`TaskProtocol.TimeoutLooksComplete`; by `CompleteExactly` that is the only case).
- `worker/executors.py:261` catches only `OSError`: any other exception in an attempt leaves the executor
  without a done chunk (`ClaudeRetry.EmitsOneDoneLast` says exactly when, `NullByteEmitsNothing` is an input).
- An executor exception with empty text is a failure in the posted report but no error on the stream
  (`TaskWorker.OutcomesAgreeExactly` gives the exact condition).
- A Claude run that hits its deadline reports success, because `TimeoutError` is an `OSError` with empty
  text (`ClaudeRetry.DeadlineReportsSuccess`).
- An exception in the waiting loop, of the subscription or of a read, ends the wait before the deadline
  (`TaskProtocol.LoopErrorForcesFalseTimeout`; `GaveUpExactly` says that nothing else does).
- Acknowledging on delivery means that the tasks of a lost poll answer are never started
  (`TaskDelivery.LostExactly` gives the condition, `AcknowledgedAndLost` a run).
- The batch path of the rule engine classifies the last message, the single path all user text
  (`RuleBatch.TwoTurnsDiverge`; `AgreeAlwaysExactly` gives the condition).
- `float` accepts "nan", for which neither `gt` nor `lte` holds (`Conditions.NanFailsBoth`,
  `OrderComplementsExactly`).
- A preset can take matches away: its rules may be the first to ask for an intent, and its intents may change
  the answer (`PresetIntents.IntentReadersCanChange`; `MatchesKeptExactly` gives the condition).
- The join in `bsgateway/mcp/service.py:71-76` and `177-191` does not normalise ids: rules from the cache lose
  all conditions there (`RulesCache.RawJoinAgreesExactly`), so a second simulation can match what the first
  one did not (`SecondSimulationMatches`).
- The request fingerprint skips unnamed tools, joins list content by newlines where the scorer joins by blanks,
  renders blocks that the scorer passes over, among them all of a system message that is a list, and frames
  with bytes that text may contain. Requests that hash alike can so score differently
  (`Collisions.UnnamedToolsMisscore`, `ListContentMisscores`, `SystemBlocksMisscore`, `FramingBytesMisscore`);
  `Fingerprint.SameSignalsExactly` says exactly when those without framing bytes do.
- With a threshold of -1 or less an example of similarity exactly -1 reaches it and is passed over
  (`IntentClassifier.OppositeIsPassedOver`).

## Assumptions

- Redis: `INCR` is atomic, `XREADGROUP >` reads from the group's cursor and refuses a count below one,
  publishes to a subscribed channel arrive in order unless lost, keys expire no earlier than their TTL.
- The rate limiter's clock and Redis's clock are the same clock.
- The result POST is an event that writes the row or does not; the worker never checks its status. The
  theorems that need the write say so.
- The UUID text used in cache keys has 36 characters and no colon; parsing inverts printing for ids and times.
- The fingerprint hash does not collide on the requests of the run.

## Model

| member | source | states |
|---|---|---|
| RegistryMerge.MergeMembers | bsgateway/routing/registry.py:176-209 | the visible models are the yaml entries that are neither replaced nor hidden, and the last custom row of each name |
| RegistryMerge.MergeDistinct | bsgateway/routing/registry.py:190-209 | no name is listed twice if the yaml lists none twice |
| RegistryMerge.MergeWithoutRows | bsgateway/routing/registry.py:190-196 | a tenant without rows sees the yaml, in yaml order |
| RegistryMerge.MergeOrder | bsgateway/routing/registry.py:190-209 | the visible yaml entries come first, in yaml order, then the tenant's, in the order in which their names first appear |
| RegistryProtocol.MutualExclusion | bsgateway/routing/registry.py:138-144 | with the lock invariant, no two calls of one tenant are inside its critical section |
| RegistryProtocol.LockedAlways | bsgateway/routing/registry.py:138-174 | one lock per tenant, and every call inside the section holds it, in every state of every run |
| RegistryProgress.HeldAlways | bsgateway/routing/registry.py:138-174 | conversely, every lock is held by exactly the call inside its section, and the guard by exactly the call at it: returns, aborts and failed reads give both back |
| RegistryProgress.CanFinish | bsgateway/routing/registry.py:149-174 | however many calls are in its way, a call that has not failed has a continuation, with no cancelled call and no failed read, in which it is answered |
| RegistryProgress.AnswerableExactly | bsgateway/routing/registry.py:149-174 | in every reachable state a call can still be answered iff it was not cancelled and did not fail |
| RegistryProtocol.InvalidateIsABarrier | bsgateway/routing/registry.py:149-174 | once an invalidation has returned, every call that starts later returns the merge of rows at least as recent as those committed when the invalidation was still under way |
| RegistryProtocol.EntryOrigin | bsgateway/routing/registry.py:160-164 | a cached entry is the merge of one earlier committed row set, read and stored by one call and not popped since |
| RegistryProtocol.HitIsRecent | bsgateway/routing/registry.py:146-158 | what is served from the cache was read before it was stored, and is served less than the TTL after it was stored |
| RegistryProtocol.MissesCoalesce | bsgateway/routing/registry.py:154-165 | without an invalidation between them, a store is followed by no query and no store of that tenant for a full TTL |
| RegistryService.ModelRegistryService.constructor | bsgateway/routing/registry.py:110-126 | the yaml is normalised once, and cache and locks start empty |
| RegistryService.ModelRegistryService.LockFor | bsgateway/routing/registry.py:138-144 | the same lock for the same tenant for ever, a new one for a new tenant |
| RegistryService.ModelRegistryService.Compute | bsgateway/routing/registry.py:176-220 | the loops compute the merge, whose members are exactly the visible ones |
| RegistryService.ModelRegistryService.ListModels | bsgateway/routing/registry.py:149-165 | hit on either check returns the entry and changes nothing; a miss returns and stores the merge |
| RegistryService.ModelRegistryService.GetPassthroughSet | bsgateway/routing/registry.py:167-168 | the passthrough names of what the listing returns |
| RegistryService.ModelRegistryService.Invalidate | bsgateway/routing/registry.py:170-174 | removes exactly that tenant's entry |
| RegistryService.SoloList | bsgateway/routing/registry.py:149-165 | the uninterrupted call of the object is a run of the protocol with the same outcome |
| RegistryService.SoloInvalidate | bsgateway/routing/registry.py:170-174 | likewise for an invalidation |
| RegistryService.SoloHit | bsgateway/routing/registry.py:149-153 | a listing that finds a live entry is answered at once, takes no lock and changes nothing else |
| RouterPassthrough.LoadModels | bsgateway/routing/hook.py:96-117 | the derived baseline is all tier models and all named yaml entries |
| RouterPassthrough.PassthroughMeaning | bsgateway/routing/hook.py:490-514 | a tenant may pass a name through iff it is a tier's model, has a deciding passthrough row, or is an untouched yaml name |
| RouterPassthrough.HiddenStaysHidden | bsgateway/routing/hook.py:502-514 | a hidden name that is no tier's model and has no passthrough row is not passed through |
| RouterPassthrough.NoRowsMeansBaseline | bsgateway/routing/hook.py:507-514 | a tenant without rows gets the baseline that requests without a tenant get |
| RouterPassthrough.RoutePrecedence | bsgateway/routing/hook.py:447-488 | a name in the passthrough set goes to itself, any other alias to what it stands for, the rest where auto-routing decides |
| RouterPassthrough.HidingRedirects | bsgateway/routing/hook.py:447-488 | requests for a hidden model that is no tier's go to the model it is an alias of, or else to a tier's; a tier's model is passed through all the same |
| Tiers.TierOfScore | bsgateway/routing/hook.py:719-725 | on a partition of 0..100 every score has exactly one tier and the lookup finds it |
| Tiers.LookupsAgree | bsgateway/routing/classifiers/static.py:94-99 | classifier and router name the same tier iff some tier covers the score or their fallback names agree |
| Tiers.BlendBetweenAndMonotone | bsgateway/routing/hook.py:661-666 | the blend is seven tenths of the score and three of the hint to the nearest integer, a half to the even one; it lies between its inputs and is monotone in both |
| Tiers.HighestIsHighest | bsgateway/routing/hook.py:520-524 | the highest tier has the greatest upper bound, and is the first such |
| Tiers.AutoRouteIsTotal | bsgateway/routing/hook.py:660-686 | on a partition the decision names the one tier covering the final score, with a model of a tier of that name, never the fallback; that tier's own if names are unique |
| Tiers.AutoRouteMonotone | bsgateway/routing/hook.py:590-686 | with or without a hint, a higher score and hint never lead to a lower tier, and a critical request goes to the top one |
| Tiers.AutoRouteStaysConfigured | bsgateway/routing/hook.py:582-734 | with any tiers at all the chosen model is some tier's; without any it is the built-in one |
| Tiers.FallbacksExactly | bsgateway/routing/hook.py:612-686 | a failed classifier leads to the fallback tier, a missing score counts as fifty, and a name no tier has is served by the fallback tier, else the first tier, else the built-in model |
| TaskWorker.HandleTask | worker/main.py:170-234 | the loop publishes, posts and signals what the script says |
| TaskWorker.Collect | worker/executors.py:68-99 | collecting a stream gives text and error of its consumed prefix; no result iff the executor raises before a done chunk |
| TaskWorker.AggregateIsReport | worker/executors.py:68-99 | where there is a result, its text, error and success are those of the worker's report |
| TaskWorker.MessagesCarryOutput | worker/main.py:176-211 | the published deltas concatenate to the posted output, exception or not |
| TaskWorker.DoneIsLast | worker/main.py:188-199 | exactly one terminal message, the last, unless the executor simply stops |
| TaskWorker.OutcomesAgreeExactly | worker/main.py:179-199 | the stream shows an error iff the report says failure, except for an exception with empty text; a reported error text is the last one on the stream |
| TaskProtocol.StreamAlways | bsgateway/chat/service.py:547-619 | the stream invariant: what was forwarded plus what waits in the subscription is what was published |
| TaskProtocol.ClientTextIsAPrefix | bsgateway/chat/service.py:586-595 | in every reachable state the client's text is a prefix of the published text |
| TaskProtocol.StreamIsPrefixOfOutput | bsgateway/chat/service.py:586-595 | without lost publishes it is a prefix of the output to be posted |
| TaskProtocol.CompleteExactly | bsgateway/chat/service.py:584-595 | an ended stream saw the done message iff no deadline was taken in its loop |
| TaskProtocol.EndedTextExactly | bsgateway/chat/service.py:584-619 | an ended lossless stream, deadline or not, carries the text of the messages it took, which is all the posted text iff the others carry none |
| TaskProtocol.StreamRefinesBatch | bsgateway/chat/service.py:547-619 | a lossless stream in which no deadline was taken carries exactly the posted output: the role, a frame for each non-empty delta in order, one stop frame, and an error frame after it iff some message had an error |
| TaskProtocol.StreamReadsAs | bsgateway/chat/service.py:579-619 | every ended stream reads as what it took: the role once and first, the spoken deltas in order, one stop frame, and then, iff the last non-empty error among them is m, one error frame saying m, the last frame |
| TaskProtocol.TimeoutLooksComplete | bsgateway/chat/service.py:584-619 | a run in which the deadline ends the stream with a stop frame and no error; CompleteExactly gives the condition |
| TaskProtocol.IdleReadingExactly | bsgateway/streams.py:94-110 | the coded deadline is never later than the documented idle one and equals it iff no message came after the first instant; with no further message the code can stop before the documented deadline iff one did and that deadline is still to come |
| TaskProtocol.StopsInMidStream | bsgateway/streams.py:94-110 | a lossless run in which a message arrives one instant before the deadline, the idle timeout has not passed, and the stream ends with half of the output |
| TaskProtocol.NoFalseTimeout | bsgateway/chat/service.py:676-701 | if nothing raises in the waiting loop, a timeout means the row was open at every moment before the deadline, even if the done signal was lost |
| TaskProtocol.GaveUpExactly | bsgateway/chat/service.py:676-694 | a wait that reaches its final read took its deadline iff nothing raised in its loop, in the subscription or in a read of the row |
| TaskProtocol.AwaitIsHonest | bsgateway/chat/service.py:676-701 | whatever fails, a returned row has the report's verdict, output and error, and a timeout means the row was open at the last read and ever before; a last read that raises is the only way to no answer |
| TaskProtocol.SignalFollowsRow | worker/main.py:215-234 | with the POST written, a done signal in hand means a terminal row |
| TaskProtocol.FirstSignalSuffices | bsgateway/chat/service.py:678-686 | so the first signal ends the wait with the report |
| TaskProtocol.ModesAgree | bsgateway/chat/service.py:474-520 | a lossless stream without a deadline taken and a returned wait of the same task carry the same text and error and, but for one case, the same verdict: the row is failed iff an error frame was sent |
| TaskProtocol.LoopErrorForcesFalseTimeout | bsgateway/chat/service.py:687-694 | one exception in the loop gives a run that times out although the row becomes terminal at time zero |
| TaskProtocol.ForwardChunks | bsgateway/chat/service.py:584-595 | the forwarding loop yields the frames of the consumed prefix and keeps its last error |
| TaskProtocol.StreamWorkerResponse | bsgateway/chat/service.py:579-619 | role frame, one frame per non-empty delta, one stop frame, and iff an error was consumed an error frame with the last one, at the end; their text is the consumed text |
| TaskProtocol.AwaitTaskCompletion | bsgateway/chat/service.py:676-701 | the first terminal row seen is returned, else the final read decides |
| TaskProgress.AnswerableExactly | bsgateway/chat/service.py:621-701 | in every reachable state: the wait can still return the report iff it has not given up, and the row is written or an uncrashed worker has yet to write it |
| TaskProgress.AnsweredAtOnce | bsgateway/chat/service.py:676-686 | with the signal still to come and nothing failing, the wait is answered without any time passing |
| TaskProgress.StreamCanComplete | bsgateway/chat/service.py:547-619 | a stream of an executor that says when it is done can, from every reachable state without a lost message or crash, be completed without any time passing, and then shows the whole output |
| TaskDelivery.StartedOnceInOrder | worker/main.py:321-335 | over all runs tasks are started in publish order, each at most once, and only after acknowledgement |
| TaskDelivery.BoundedParallelism | worker/main.py:309-335 | the worker never holds more tasks than its limit |
| TaskDelivery.DeliveryIsAPartition | bsgateway/api/routers/workers.py:311-332 | everything behind the cursor went to exactly one poll, and is started iff that poll's answer arrived |
| TaskDelivery.LostIsNeverStarted | bsgateway/api/routers/workers.py:326-330 | tasks of an answer that was lost, or that the worker no longer waits for, are never started by any poll |
| TaskDelivery.LostExactly | worker/main.py:321-335 | in every reachable state: a delivered task is started in no continuation iff its answer was lost or the worker no longer waits for it |
| TaskDelivery.AcknowledgedAndLost | bsgateway/api/routers/workers.py:311-332 | a run that acknowledges a task whose answer is lost, after which no continuation starts it |
| DeliveryProgress.StartableExactly | worker/main.py:309-335 | in every reachable state of a worker that takes tasks at all: a published task is started in some continuation iff no answer that carried it was lost or given up |
| DeliveryProgress.NextBatch | bsgateway/streams.py:37-74 | a poll with free hands delivers all there is, or as much as was asked for |
| TaskDelivery.StreamManager.constructor | bsgateway/streams.py:25-26 | an empty stream without a group |
| TaskDelivery.StreamManager.Publish | bsgateway/streams.py:28-35 | appends one entry and returns its id |
| TaskDelivery.StreamManager.Consume | bsgateway/streams.py:37-74 | returns the next entries in order, all there are up to the count, and moves the cursor past them |
| TaskDelivery.StreamManager.Acknowledge | bsgateway/streams.py:76-78 | adds the id to the acknowledged set |
| TaskDelivery.StreamManager.PollTasks | bsgateway/api/routers/workers.py:311-332 | answers the next tasks, all there are up to the count, and acknowledges exactly those |
| TaskDelivery.WorkerLoop.constructor | worker/main.py:299-300 | nothing in flight |
| TaskDelivery.WorkerLoop.Prepare | worker/main.py:311-324 | prunes finished tasks and asks for no more than the free slots |
| TaskDelivery.WorkerLoop.Launch | worker/main.py:333-335 | one new handle per task, the limit kept |
| TaskDelivery.WorkerLoop.Round | worker/main.py:309-335 | a whole round against the endpoint starts exactly the entries the cursor passed, and afterwards the worker is full, the batch was, or the stream is exhausted |
| ClaudeRetry.EmitsOneDoneLast | worker/executors.py:156-193 | for every sequence of attempts: exactly one done chunk, the last, iff the attempt that ends the run does not raise an exception the loop leaves uncaught; no done chunk at all iff it does |
| ClaudeRetry.AttemptsBound | worker/executors.py:153-187 | at least one attempt and at most retries + 1, one for a negative setting |
| ClaudeRetry.ExecutionMeaning | worker/executors.py:140-262 | the emission is the text of all attempts in order and then the last attempt's terminal chunk, or the exhaustion error, or nothing but the exception if it raised one that is no operating-system error |
| ClaudeRetry.EmissionIsConsumedWhole | worker/executors.py:68-99 | a consumer that stops at the first done chunk takes all of it, and finds one iff no exception escapes |
| ClaudeRetry.ReportOfExecution | worker/main.py:170-213 | the worker's report on an execution: all the text; for an escaping exception its message, in the report and in the terminal message the worker adds; ReportFromLast says the rest without the terminal chunk |
| ClaudeRetry.ReportFromLast | worker/executors.py:257-262 | read off the last process alone: success iff it exited with code 0 or met an operating-system error without text; else the exhaustion error if it complained of a rate limit, else its standard error, or "exit" and its code, or the message of what was raised |
| ClaudeRetry.HitsLimitExactly | worker/executors.py:166-175 | an attempt counts as rate-limited iff it ends badly, by itself or by an operating-system error, and the detector finds a limit in its complaint and standard error |
| ClaudeRetry.ExitTextIsDecimal | worker/executors.py:257-260 | the exit text ends in the code in decimal, with a sign if negative |
| ClaudeRetry.TextForbidsRetry | worker/executors.py:176-187 | an attempt that showed text and no error is not retried for what standard error says |
| ClaudeRetry.DeadlineReportsSuccess | worker/executors.py:252-262 | a missed deadline is reported as success |
| ClaudeRetry.NullByteEmitsNothing | worker/executors.py:211-233 | a system prompt with a null character: no chunk at all, a failure report, and the only message is the one the worker adds |
| ClaudeRetry.RunOncePasses | worker/executors.py:201-262 | an attempt passes its deltas on and then its terminal chunk, unless that one is swallowed as a rate limit, or the attempt raises an exception that is no operating-system error and escapes; ReportFromLast says what the terminal chunk reports |
| ClaudeRetry.Execute | worker/executors.py:153-193 | the retry loop emits what the specification says and ends as it says, with one done chunk or with an exception and none, after at most retries + 1 attempts |
| ClaudeRetry.Drain | worker/executors.py:159-182 | the inner loop: what is passed on, whether a delta or a rate limit was seen, whether it ended |
| Messages.ExtractText | bsgateway/routing/classifiers/base.py:22-49 | the extraction loops join the text parts, of all messages or of the user's |
| Messages.ExtractSystemPrompt | bsgateway/routing/classifiers/base.py:52-62 | the top-level prompt, else the first plain system message |
| Messages.SystemPromptExactly | bsgateway/routing/classifiers/base.py:52-62 | the request's own prompt if it has one, else the first system message in plain text, else nothing |
| Messages.TextsOfBoth | bsgateway/routing/classifiers/base.py:22-49 | text comes message by message, in order |
| Messages.TextsOfMessage | bsgateway/routing/classifiers/base.py:22-49 | a message gives its plain text, or exactly the texts of its text blocks, or nothing; nothing to the user text unless its role is user |
| Messages.OnlyLastUser | bsgateway/routing/classifiers/base.py:36-49 | if the only user message is the last and plain text, the user text is its content |
| Conditions.Complements | bsgateway/rules/conditions.py:39-94 | negation turns a condition round iff its field is an allowed one, and `not_in` is the negation of `in` |
| Conditions.OrderComplementsExactly | bsgateway/rules/conditions.py:76-119 | `gt` is the negation of `lte`, and `lt` of `gte`, iff neither side is a NaN |
| Conditions.NanFailsBoth | bsgateway/rules/conditions.py:104-119 | a user text "nan" fails all four comparisons |
| Conditions.BetweenIsTwoBounds | bsgateway/rules/conditions.py:76-88 | `between` holds iff its value is a list of two with `gte` the first and `lte` the second, NaN and infinities included |
| ConditionMeaning.ContainsExactly | bsgateway/rules/conditions.py:101-104 | `contains` holds iff the field is present and its lower-cased text is something, the lower-cased value, and something more |
| ConditionMeaning.OrderExactly | bsgateway/rules/conditions.py:76-119 | for finite numbers `gt`, `lt`, `gte` and `lte` hold iff the field's number stands so to the expected one; absent values, lists and other text count as zero |
| ConditionMeaning.BetweenExactly | bsgateway/rules/conditions.py:84-88 | `between` has its lower bound first and includes both |
| ConditionMeaning.InExactly | bsgateway/rules/conditions.py:89-92 | `in` is a choice of `eq` |
| ConditionMeaning.ToolsInExactly | bsgateway/rules/conditions.py:122-129 | for the list of tool names `in` is a common member |
| ConditionMeaning.RegexExactly | bsgateway/rules/conditions.py:65-75 | a pattern is searched for in the field, unless it is too long or suspicious |
| ConditionMeaning.TextFieldsExactly | bsgateway/rules/conditions.py:97-98 | each text field is the one it says |
| ConditionMeaning.OptionalFieldsExactly | bsgateway/rules/conditions.py:97-98 | so are the optional ones, which if absent equal nothing but null |
| ConditionMeaning.NumberFieldsExactly | bsgateway/rules/conditions.py:97-98 | each number is the one it says, a truth value one or zero |
| ConditionMeaning.RequestFacts | bsgateway/rules/models.py:127-168 | what a request is known by: its texts, counts, signs of code and errors, and the functions among its tools |
| ConditionMeaning.KeywordRoutes | bsgateway/rules/engine.py:29-79 | a lone rule for a word takes exactly the requests whose user text has the word, in any case |
| RuleEngine.SortPermutes | bsgateway/rules/engine.py:55 | sorting loses and adds no rule |
| RuleEngine.SortAscends | bsgateway/rules/engine.py:55 | by ascending priority |
| RuleEngine.SortIsStable | bsgateway/rules/engine.py:55 | rules of equal priority keep their order |
| RuleEngine.EvaluateMeaning | bsgateway/rules/engine.py:52-79 | the result is a matching rule of least priority number if any rule matches, else the active default of greatest number, else nothing |
| RuleEngine.EvaluatePlainly | bsgateway/rules/engine.py:52-79 | the same in terms of the rules' own fields: what is returned is active, and best among the active rules whose conditions all hold, or the greatest active default |
| RuleEngine.TraceMeaning | bsgateway/rules/engine.py:52-111 | one trace entry per visited candidate in priority order, only the last possibly a match |
| RuleEngine.OrderIsIrrelevant | bsgateway/rules/engine.py:55-79 | with unique priorities result and trace do not depend on the order of the rules |
| RuleEngine.TiesDependOnOrder | bsgateway/rules/engine.py:55-79 | with equal priorities they do |
| RuleEngine.FirstFailingDecides | bsgateway/rules/engine.py:87-102 | a rule matches iff no condition fails, and the trace names the first that does |
| RuleEngine.EntryExactly | bsgateway/rules/engine.py:87-111 | an entry names its rule and, if that missed, kind, field and operator of the first condition that failed |
| RuleEngine.MatchRule | bsgateway/rules/engine.py:81-111 | the condition loop returns the conjunction and appends one entry |
| RuleEngine.FirstMatch | bsgateway/rules/engine.py:52-79 | the rule loop computes the evaluation |
| RuleEngine.EvaluateRequest | bsgateway/rules/engine.py:29-79 | the evaluation in the request's context, with an intent only if a classifier and an intent condition exist; ConditionMeaning says what its conditions mean of the request |
| RuleBatch.CollectTexts | bsgateway/rules/engine.py:140-147 | one text per request, repeats included, or failure if some request has no hashable last content |
| RuleBatch.ClassifyTexts | bsgateway/rules/engine.py:149-154 | the shared map holds what the classifier says for exactly those texts |
| RuleBatch.EvaluateOne | bsgateway/rules/engine.py:160-204 | one request in the context given by its entry of the map |
| RuleBatch.EvaluateBatch | bsgateway/rules/engine.py:123-158 | pointwise the evaluation with the intent of the last message; fails as a whole iff some request has an empty list of messages or a last message whose content is a list |
| RuleBatch.BatchRefinesSingle | bsgateway/rules/engine.py:29-79 | if the one user message of each request is its last, in plain text, batch and single evaluation agree in rule, target and trace |
| RuleBatch.AgreeAlwaysExactly | bsgateway/rules/engine.py:140-175 | batch and single evaluation of a request give the same result on every list of rules iff there is no classifier, or it says the same of the last message and of all user text |
| RuleBatch.TwoTurnsDiverge | bsgateway/rules/engine.py:145-176 | two user turns on which batch matches and single evaluation does not |
| Presets.PresetGoesBehind | bsgateway/presets/service.py:118-136 | a preset's rules are numbered strictly upwards after every existing one |
| Presets.PresetLeavesNoGap | bsgateway/presets/service.py:118-136 | the first number follows the greatest existing one, or is zero, and the rest follow on it |
| Presets.AddedRulesAre | bsgateway/presets/service.py:118-150 | each added rule is its template's, active, at the economy, premium or else balanced model, with the template's conditions, not negated |
| Presets.AddedIntentsAre | bsgateway/presets/service.py:91-116 | each added intent is the preset's, with all its examples and a threshold of seven tenths |
| Presets.BehindKeepsUnique | bsgateway/presets/service.py:118-136 | so priorities stay unique iff they were |
| Presets.ConservativeExtension | bsgateway/rules/engine.py:55-79 | in any context an existing match keeps rule, target and trace; otherwise the preset's rules follow in template order and its last default replaces the fallback |
| PresetIntents.ConservativeForRequests | bsgateway/rules/engine.py:44-79 | if no active non-default rule reads the intent, matches are kept even when the intent changes |
| PresetIntents.MatchesKeptExactly | bsgateway/rules/engine.py:44-79 | on all the rules a preset can be applied to, every match of a request keeps rule, target and trace iff the classifier says of the request what it said before, and nothing at all if the preset asks for intents |
| PresetIntents.IntentReadersCanChange | bsgateway/rules/engine.py:44-79 | a preset with an intent condition takes a match away: no rule asked for an intent, so a rule for requests without one matched; with the preset applied the classifier is asked, and the request goes to the preset's target |
| Presets.CannotApplyTwice | bsgateway/presets/service.py:60-69 | after an application the same preset is refused, by its intents or by its rule names |
| Presets.TenantRules.ApplyPreset | bsgateway/presets/service.py:30-165 | succeeds iff known, all models registered, no intent shared and the rows keep the constraints; otherwise nothing changes |
| Presets.TenantRules.InsertRows | bsgateway/presets/service.py:91-150 | the transaction inserts all rows or none |
| RulesCache.JoinIsById | bsgateway/api/routers/rules.py:111-127 | joining by text gives each rule exactly its own conditions, in table order |
| RulesCache.FormsJoinAlike | bsgateway/api/routers/rules.py:82-127 | a fresh list and its JSON copy, tenant column included, join to the same responses and engine rules |
| RulesCache.GroupByRule | bsgateway/api/routers/rules.py:123-126 | the dictionary holds the conditions of each key, in order |
| RulesCache.BuildResponses | bsgateway/api/routers/rules.py:111-127 | every row joined with its conditions |
| RulesCache.AssembleRules | bsgateway/api/routers/rules.py:238-266 | every row as the rule the engine evaluates |
| RulesCache.RunKeepsCoherence | bsgateway/rules/repository.py:38-157 | after any history in which each lost invalidation of this tenant was followed by an effective one or an expiry, its cached list is the current one; other tenants' invalidations may all be lost |
| RulesCache.CacheIsTransparent | bsgateway/rules/repository.py:78-95 | so in any such history a read joins to what the database would give, and evaluates alike, hit or miss |
| RulesCache.TenantsAreSeparate | bsgateway/core/cache.py:152-154 | an operation on one tenant changes neither rows nor entry of another |
| RulesCache.OthersNeverShow | bsgateway/rules/repository.py:38-157 | after any history a tenant has the rows and the cache entry that its own operations alone would have left |
| RulesCache.ReadsItsOwn | bsgateway/rules/repository.py:78-95 | and reads what it would read with no other tenant there |
| RulesEffect.ReadShowsTable | bsgateway/rules/repository.py:78-95 | after any history in which the tenant's lost invalidations were made good, a read shows every rule of its table once, by ascending priority, each column and condition its own |
| RulesEffect.UpdateExactly | bsgateway/rules/repository.py:97-122 | exactly the given columns of exactly the rule named change, if no other rule has the name or the priority; else nothing does |
| RulesEffect.CreateExactly | bsgateway/rules/repository.py:38-64 | a new rule is added, active, iff no rule has its name or its priority |
| RulesEffect.DeleteExactly | bsgateway/rules/repository.py:124-133 | a deletion takes exactly the rule named and exactly its conditions |
| RulesEffect.ReorderExactly | bsgateway/rules/repository.py:135-157 | every rule named gets its new priority and the rest stays, iff all priorities stay different |
| RulesEffect.ReplaceExactly | bsgateway/rules/repository.py:185-216 | the new conditions take the place of all the rule's old ones, and nothing else changes |
| RulesEffect.PresetExactly | bsgateway/presets/service.py:118-165 | a preset's rules come after the tenant's own, each with its conditions, or nothing happens |
| RulesEffect.ReadStoresExactly | bsgateway/rules/repository.py:78-95 | a read that misses stores what it read, but never an empty list |
| RulesEffect.KeysAlways | bsgateway/rules/repository.py:38-157 | a tenant's names and priorities stay unique over every history |
| RulesEffect.ReadAfterUpdate | bsgateway/rules/repository.py:78-122 | after an accepted update whose invalidation arrived, whatever the cache held, the next read shows the new name, priority, default flag and target |
| RulesCache.LostInvalidationIsStale | bsgateway/core/cache.py:97-107 | one lost invalidation serves an old name |
| RulesCache.GroupByNativeId | bsgateway/mcp/service.py:71-73 | the dictionary keyed by unnormalised ids holds, for every key of either form, the conditions filed under it, in order |
| RulesCache.RawJoin | bsgateway/mcp/service.py:71-76 | every row of the listing, and every engine rule of the simulation, with what that dictionary holds for its id as it stands |
| RulesCache.RawJoinAgreesExactly | bsgateway/mcp/service.py:71-76 | after every history this join gives the responses of the normalising one iff the read missed the cache or no listed rule has a condition; likewise the engine rules |
| RulesCache.SecondSimulationMatches | bsgateway/mcp/service.py:175-214 | after one read that fills the cache, the simulation matches a rule whose condition fails |
| Cache.CacheManager.constructor | bsgateway/core/cache.py:34-37 | no entries, counters at zero |
| Cache.CacheManager.Get | bsgateway/core/cache.py:54-76 | the decoded value or nothing; undecodable text is deleted if possible; both counters after every outcome |
| Cache.CacheManager.Set | bsgateway/core/cache.py:78-95 | stored or left as it was, with the failure counted |
| Cache.CacheManager.Delete | bsgateway/core/cache.py:97-107 | removed or left as it was, with the failure counted |
| RulesRepository.RulesRepository.constructor | bsgateway/rules/repository.py:22-25 | empty tables over the given cache |
| RulesRepository.RulesRepository.Commit | bsgateway/rules/repository.py:46-62 | a refused transaction changes nothing and invalidates nothing; a committed one deletes the key |
| RulesRepository.RulesRepository.CreateRule | bsgateway/rules/repository.py:38-64 | the creation step of the history model |
| RulesRepository.RulesRepository.UpdateRule | bsgateway/rules/repository.py:97-122 | the update step; the key is deleted even when no row matched |
| RulesRepository.RulesRepository.DeleteRule | bsgateway/rules/repository.py:124-133 | the deletion step; the key is deleted only with a row |
| RulesRepository.RulesRepository.ReorderRules | bsgateway/rules/repository.py:135-157 | the reordering step; nothing for an empty request |
| RulesRepository.RulesRepository.ReplaceConditionsOf | bsgateway/rules/repository.py:185-216 | the conditions of one rule are replaced; nothing is invalidated |
| RulesRepository.RulesRepository.ListRules | bsgateway/rules/repository.py:78-95 | cache first, then the database, storing a non-empty list |
| StaticScore.ScoreMonotone | bsgateway/routing/classifiers/static.py:35-92 | with non-negative weights the score never falls when any signal rises or simple keywords get fewer, through all branches, floors, truncation and clamp |
| StaticScore.KeywordsMonotone | bsgateway/routing/classifiers/static.py:130-140 | the three keyword branches fit together monotonically |
| StaticScore.KeywordBands | bsgateway/routing/classifiers/static.py:64-71 | exactly which keyword counts reach which floor |
| StaticScore.CodeBands | bsgateway/routing/classifiers/static.py:152-162 | exactly which blocks, lines and error traces reach which floor |
| StaticScore.PromptBands | bsgateway/routing/classifiers/static.py:112-128 | exactly which prompts reach the floor |
| StaticScore.TokenBands | bsgateway/routing/classifiers/static.py:101-110 | exactly which word counts, at 1.3 tokens a word rounded down, lie in which band |
| StaticScore.KeywordsForceScore | bsgateway/routing/classifiers/static.py:64-71 | three complex keywords in the user text and no simple one give 70 at least |
| StaticScore.CodeForcesScore | bsgateway/routing/classifiers/static.py:78-82 | thirty lines of fenced code, or eighteen with an error trace, give 50 at least |
| StaticScore.PromptForcesScore | bsgateway/routing/classifiers/static.py:73-76 | four complexity words in the system prompt give 50 at least |
| StaticScore.FloorsBind | bsgateway/routing/classifiers/static.py:64-84 | the floors bind whatever the weights |
| StaticScore.ClampIsIdle | bsgateway/routing/classifiers/static.py:53-84 | with weights summing to at most one the score is the floored total, truncated |
| StaticScore.NegativeWeightBreaksIt | bsgateway/routing/classifiers/static.py:53-62 | a negative weight makes the score fall when a tool is added |
| StaticScore.Score | bsgateway/routing/classifiers/static.py:35-92 | the score lies between 0 and 100 |
| StaticScore.MoreToolsNoCheaper | bsgateway/routing/classifiers/static.py:30-33 | one more tool never moves a request to a cheaper tier of a partition |
| Fingerprint.FeedHash | bsgateway/routing/cache_classifier.py:108-154 | the updates are the stream of the request's items |
| Fingerprint.FlattenExactly | bsgateway/routing/cache_classifier.py:90-105 | content is hashed as its text, or block by block, one to a line, in order, other blocks as they are rendered |
| Fingerprint.OtherBlocksTellApart | bsgateway/routing/cache_classifier.py:90-135 | requests that differ in a block the scorer passes over hash apart |
| Fingerprint.ToolNameExactly | bsgateway/routing/cache_classifier.py:143-152 | a tool is known by its top-level name, by its function's only if it has none |
| Fingerprint.DecodeEncoded | bsgateway/routing/cache_classifier.py:130-135 | a UTF-8 encoded character is decoded whatever follows |
| Fingerprint.UniquelyDecodable | bsgateway/routing/cache_classifier.py:131-152 | items without framing bytes can be read back from their stream |
| Fingerprint.EqualStreamsExactly | bsgateway/routing/cache_classifier.py:108-154 | without framing bytes, streams are equal iff roles, flattened contents, system text and tool names are |
| ScoreInputs.SignalsExactly | bsgateway/routing/classifiers/static.py:35-51 | any two requests have equal signals, under all text functions and settings, iff all text, user text, system prompt, user turns and number of tools agree |
| ScoreInputs.AnswersExactly | bsgateway/routing/classifiers/static.py:30-92 | and are always classified alike iff those texts agree, the turns lie in the same of four bands, and the tools agree as far as five |
| Fingerprint.SameSignalsExactly | bsgateway/routing/classifiers/static.py:35-51 | requests without framing bytes that hash alike have equal signals, under all text functions and settings, iff all text, user text, system prompt and number of tools agree; and equal classifications iff the texts do and the tools as far as five |
| Fingerprint.EqualStreamsClassifyAlike | bsgateway/routing/classifiers/static.py:30-51 | in the domain equal streams classify alike |
| Collisions.FramingBytesCollide | bsgateway/routing/cache_classifier.py:131-135 | with framing bytes in the text, one message hashes like two |
| Collisions.FramingBytesMisscore | bsgateway/routing/cache_classifier.py:131-135 | and with the default weights those two requests score 11 and 13 |
| Collisions.ListContentCollides | bsgateway/routing/cache_classifier.py:90-105 | list content hashes like text joined by newlines but is scored joined by blanks |
| Collisions.ListContentMisscores | bsgateway/routing/cache_classifier.py:90-105 | so a keyword across two blocks is found in one of two requests that hash alike: scores 11 and 45 |
| Collisions.SystemBlocksCollide | bsgateway/routing/classifiers/base.py:52-62 | a system message in a text block hashes like plain text, but the scorer finds no system prompt in it |
| Collisions.SystemBlocksMisscore | bsgateway/routing/classifiers/base.py:52-62 | so one system message scores 14 in plain text and 11 in a block |
| Collisions.UnnamedToolsCollide | bsgateway/routing/cache_classifier.py:143-152 | an unnamed tool leaves the stream alone and counts one tool more |
| Collisions.UnnamedToolsMisscore | bsgateway/routing/cache_classifier.py:143-152 | so a short message with and without it hashes alike and scores 13 and 11 |
| CachingClassifier.PayloadRoundTrip | bsgateway/routing/cache_classifier.py:168-190 | reading back what was written gives the result, and different results differ |
| CachingClassifier.KeyIsInjective | bsgateway/routing/cache_classifier.py:157-165 | a key names one tenant, or none, and one fingerprint |
| CachingClassifier.HitsStayWithTheirTenant | bsgateway/routing/cache_classifier.py:261-305 | whatever a call answers is the inner result of a call by the same tenant with the same fingerprint, however the calls interleave |
| CachingClassifier.CacheNeverChangesAnswers | bsgateway/routing/cache_classifier.py:248-337 | in any run of calls interleaved at their awaits, with evictions, failures and detectable corruption between them, a call answers what the inner classifier would, if equal fingerprints classify alike |
| CachingClassifier.SoloCall | bsgateway/routing/cache_classifier.py:248-337 | a call that nothing interrupts is a run of those steps with the method's answer, entries and counters |
| CachingClassifier.StaticSeparates | bsgateway/routing/cache_classifier.py:108-165 | on the domain, with no hash collision, equal fingerprints do classify alike for the static classifier |
| CachingClassifier.StaticAnswersNeverChange | bsgateway/routing/cache_classifier.py:248-337 | which holds in any such run for the static classifier on the stated domain |
| CachingClassifier.FirstOfEqualHashesWins | bsgateway/routing/cache_classifier.py:263-305 | of two requests with one fingerprint the second is answered rightly iff both classify alike |
| CachingClassifier.CountersConserve | bsgateway/routing/cache_classifier.py:275-319 | in any interleaving hits and misses together count the calls answered from the cache or classified, each once |
| CachingClassifier.CountersExactly | bsgateway/routing/cache_classifier.py:275-319 | hits count exactly the reads that answered a call from a usable entry, misses the calls that were classified |
| CachingClassifier.StoredIsServed | bsgateway/routing/cache_classifier.py:263-319 | what a call stored answers the next read of the same tenant and fingerprint, as a hit |
| CachingClassifier.UnusableIsDropped | bsgateway/routing/cache_classifier.py:263-315 | if Redis takes its deletes, a call that stores nothing leaves nothing unusable under its key, and no other key is touched |
| CachingClassifier.CachedClassifier.constructor | bsgateway/routing/cache_classifier.py:217-230 | counters start at zero |
| CachingClassifier.CachedClassifier.Read | bsgateway/routing/cache_classifier.py:263-315 | the usable payload, or nothing and the corrupt one deleted if possible |
| CachingClassifier.CachedClassifier.Classify | bsgateway/routing/cache_classifier.py:248-337 | answer and new state of one call; without a cache the inner result and no counting |
| IntentClassifier.Group | bsgateway/embedding/serialization.py:54-74 | the loop groups usable embeddings under names in order of first appearance |
| IntentClassifier.Hydrate | bsgateway/embedding/serialization.py:51-84 | the groups that are not empty, none without an active model |
| IntentClassifier.HydrationIsExact | bsgateway/embedding/serialization.py:57-84 | the candidates are exactly the current embedded rows, each under its intent |
| IntentClassifier.Classify | bsgateway/rules/intent.py:44-72 | the first candidate of maximal score, if it reaches the threshold and lies above -1 |
| IntentClassifier.ClassifyRows | bsgateway/rules/intent.py:44-72 | an intent iff the text is not empty, a row of the active model with an embedding reaches the threshold and one lies above -1; it owns a row of maximal score |
| IntentClassifier.OppositeIsPassedOver | bsgateway/rules/intent.py:54-70 | with a threshold of -1 a row that reaches it is passed over |
| RateLimit.ValidAlways | bsgateway/chat/ratelimit.py:37-65 | in every run with increments within sixty seconds, no counter is reset while a call can still draw from it |
| RateLimit.VerdictExactly | bsgateway/chat/ratelimit.py:37-82 | every check is degraded, and then refuses, iff a command of it got no reply; else it is allowed iff at most the limit of increments of its tenant and minute had reached the store, its own included, with what is left, and the second at which the next minute begins |
| RateLimit.CountersAreIncrements | bsgateway/chat/ratelimit.py:53-55 | a counter holds exactly the increments of its tenant and minute that reached the store |
| RateLimit.WindowBound | bsgateway/chat/ratelimit.py:53-65 | at most the limit is allowed per tenant and window, failed commands and lost replies included |
| RateLimit.MinuteBound | bsgateway/chat/ratelimit.py:47-65 | at most twice the limit in any sixty seconds |
| RateLimit.SixtySecondsIsExact | bsgateway/chat/ratelimit.py:53-55 | allowing any longer delay, up to two minutes, has a run that lets two requests through a limit of one |
| RateLimit.RateLimiter.constructor | bsgateway/chat/ratelimit.py:34-35 | no counters |
| RateLimit.RateLimiter.Check | bsgateway/chat/ratelimit.py:37-82 | one uninterrupted check: the new counter, and a verdict that is degraded iff a command got no reply, and else allowed iff the count is within the limit |

## Left out

- HTTP routing, authentication, audit events, logging, sampling of cache hits, metrics: plumbing over libraries.
- LiteLLM calls, the LLM and ML classifiers, subprocess handling, the Codex and OpenCode executors.
- `submit_task` in `bsgateway/api/routers/execute.py`, worker registration and worker selection.
- `TenantRepository` and its caches, among them the tenant list whose key ignores limit and offset.
- Concurrent readers of the rule list: its fill is not locked, so histories are sequential.
- A repository without a cache: reads are then always fresh.
- Field values on the Redis stream: payloads stay opaque, since text that is itself JSON decodes to another type.
- Conditions whose value contains nested lists or objects, and message contents that are dictionaries.
- Requests that are malformed beyond the model's types: roles or names that are not text, tools that are not objects, lone surrogates.
- Embedding of preset examples, and the failure of the embedding service, which only leaves examples without vectors.
- Cosine similarity itself, vector packing, and errors from vectors of different lengths: similarity is a parameter.
- Integers too large for a float in numeric conditions, which make the comparison raise.
- An error in writing the MCP configuration file, which is raised before the first attempt.
- Tiers of equal names: they are keys of a mapping in the configuration, so they cannot arise.
- Float rounding in weights, blend and token ratio: exact rationals.
- The detection of tenant ids in metadata, and the time to live read from the environment.
- Fairness: progress is stated as a continuation that exists, not as one that a scheduler must choose.
- The number of seconds in the text of the execution timeout, which no subprocess run can reach.
- RulesCache.FormsJoinAlike: compares values after parsing; the textual form of ids in the rule test is the same on both sides.
- CachingClassifier.StaticAnswersNeverChange: assumes that the 128-bit hash does not collide on the requests of the run.
