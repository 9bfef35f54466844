# OpenModelOps: verified models of its protocols and algorithms

Each module restates one component of the platform in Dafny and proves what the component is for, over
every input, every run or every interleaving. Components that change state in place are classes and
methods; each method is proved equal to a function on values, and the theorems are about that function.
Components that only compute are functions.

| files | component |
|---|---|
| `Catalog.dfy` | component catalog: depth-first cycle check |
| `Lru.dfy`, `PromptCache.dfy`, `Banking.dfy` | recency orders, the prompt cache index, the idempotency window |
| `DecisionEngine.dfy`, `EngineRuns.dfy` | decision engine: cache, circuit breaker, fallback |
| `Scheduler.dfy`, `SchedulerRuns.dfy` | bounded asynchronous scheduler, all interleavings of its segments between awaits |
| `Outbox.dfy`, `OutboxRuns.dfy` | integration outbox and dispatcher |
| `Sre.dfy`, `SreRuns.dfy` | governed Kubernetes changes, all interleavings of proposers, approvers and executors |
| `Factory.dfy`, `FactoryStore.dfy`, `FactoryRuns.dfy` | workload lifecycle, its documents and its optimistic store |
| `Reconciler.dfy`, `ReconcilerRuns.dfy` | workload operator, with failure allowed at any API call |
| `Reals.dfy`, `Rounding.dfy`, `Planner.dfy` | products and quotients, decimal rounding, memory admission |
| `Retrieval.dfy` | hybrid product retrieval with diversified selection |
| `Rag.dfy` | corrective retrieval, as a loop and as a compiled graph |
| `Calibration.dfy`, `Ensemble.dfy` | judge calibration and the judge panel |

`dafny verify dfyconfig.toml` checks the whole project.

## Where the code gives less than it seems to

- Two `stop` calls that overlap around a restart leave workers running that no later `stop` lists; then
  more than `slots` generations run at once (`OverlappingStopsBreakTheBound`). A `start` is safe exactly
  when no earlier worker is generating or could still take an item (`StartKeepsTheBoundIff`), and in any
  reachable state the bound holds from there on exactly when the workers able to hold an item keep to it
  (`BoundedIffAble`). Stops that do not overlap always lead to safe starts (`SeparateStopsStartSafely`).
- The dispatcher catches only `RuntimeError` and `ValueError`. A handler that raises anything else leaves
  its message pending with its attempt uncounted, and can starve the messages behind it for ever, at any
  limit and even while every batch contains them (`EscapesStarve`). A message is called once per attempt,
  once for its delivery and once per escaping exception, so more than five times exactly when those
  outnumber the tries left (`CallsAreExact`, `FiveTries`). A due message with r messages ahead has had its
  turn once r / limit + 1 passes have ended without an escaping exception (`NoStarvationWithin`).
- The operator converts `spec.replicas` and `spec.port` to 32 bits before validating them, so it accepts
  exactly the counts that are in range modulo 2^32 (`AcceptableIff`). The schema of a ModelDeployment
  refuses such counts first (deploy/go/crds.yaml:23); that of an AgentDeployment preserves unknown fields
  (deploy/go/crds.yaml:54) and lets them through (`OversizedReplicasAreAccepted`).
- `resource.MustParse` panics on a quantity that is present but malformed; such a resource never
  converges, unless it is an evaluation run whose Job already exists (`ConvergesIffQuantitiesParse`).
- The compiled retrieval graph treats an empty rewrite as "use the question"; the loop searches for the
  empty string. They issue the same queries exactly when no empty rewrite is used (`SameQueriesIff`).
- Concurrent admissions can together exceed the cache budget. They keep to it exactly when the planner
  has no second slot, or a second slot cannot hold one token (`ConcurrentGrantsFitIff`). What k of them
  can take is at most the budget times 1 + 1/2 + ... + 1/k (`ConcurrentGrantsAreHarmonic`), and for every
  k that bound is attained (`HarmonicBoundIsAttained`). An empty prompt is admitted even where the
  reserves alone exceed the memory (`AdmissionWithinTotalIff`, `EmptyPromptsOvercommit`).

## Model

| member | source | states |
|---|---|---|
| `Catalog.CycleCheck.Visit` | platforms/factory/catalog.py:80-89 | None means everything reachable from the component is finished in topological order and the shared sets are restored; otherwise there is a real dependency cycle through the named component; the recursion terminates |
| `Catalog.ValidateAcyclic` | platforms/factory/catalog.py:76-92 | returns normally if and only if the graph has no closed walk, self-loops included; the order of insertion into `visited` is a topological order of every component |
| `Catalog.TopologicalOrderExcludesCycles` | platforms/factory/catalog.py:76-92 | a graph whose components can all be put in dependency order has no cycle |
| `Catalog.WalkDescends` | platforms/factory/catalog.py:86-89 | along any chain of dependencies the finishing positions strictly descend |
| `Catalog.Build` | platforms/factory/catalog.py:42-50 | exactly which lists are accepted and which error every other list raises, naming the first component with unknown dependencies and which they are |
| `Catalog.DuplicatesShrinkTheGraph` | platforms/factory/catalog.py:43-45 | the dictionary is as large as the list exactly when no id repeats |
| `Catalog.GraphDependencies` | platforms/factory/catalog.py:43 | without duplicates the dictionary holds each component's own dependencies |
| `Recency.StackDistance` | platforms/metal_runtime/cache.py:42-46 | a key is among the c newest distinct keys exactly when fewer than c other keys were touched since its last touch |
| `Recency.AppendTouch` | platforms/metal_runtime/cache.py:31-47 | touching inside a window of c keys and then evicting is the same as recomputing the window from the whole history |
| `Recency.PositionByDistance` | platforms/metal_runtime/cache.py:42-46 | in last-touch order a key stands in front of exactly the keys touched after it |
| `OrderedDicts.EvictOldest` | platforms/metal_runtime/cache.py:45-46 | the eviction loop leaves the newest `capacity` keys in order with their values |
| `PromptCache.PromptCacheIndex.Create` | platforms/metal_runtime/cache.py:19-24 | construction fails exactly for capacities below one |
| `PromptCache.PromptCacheIndex.Lookup` | platforms/metal_runtime/cache.py:31-37 | a hit exactly when the key was touched and fewer than `capacity` other keys since; it returns the entry last recorded; the index refines the history of calls |
| `PromptCache.PromptCacheIndex.Record` | platforms/metal_runtime/cache.py:39-47 | the index keeps holding exactly the `capacity` most recently touched keys in recency order, each with its last recorded entry |
| `PromptCache.PromptCacheIndex.Size` | platforms/metal_runtime/cache.py:49-51 | the size is the number of held keys and never exceeds capacity |
| `PromptCache.Inclusion` | platforms/metal_runtime/cache.py:31-47 | on the same calls a smaller index's keys are, in the same order, a subsequence of a larger one's, although the two touch different keys |
| `PromptCache.HitsAreMonotone` | platforms/metal_runtime/cache.py:31-37 | every hit of a smaller index is a hit of a larger one |
| `Banking.IdempotencyWindow.ScoreTransaction` | platforms/banking/api.py:43-66 | the response is the one the request sequence alone determines, and the map never exceeds its capacity after a call |
| `Banking.Remember` | platforms/banking/api.py:61-63 | inserting a new id and evicting at most one leaves the newest ids of the window |
| `Banking.RepeatWithinWindow` | platforms/banking/api.py:45-52 | an id repeated with fewer than the window's distinct other ids in between gets the earlier answer marked duplicate, whatever its other fields say |
| `Banking.RepeatsKeepTheFirstAnswer` | platforms/banking/api.py:45-52 | a chain of such repeats keeps the decision, score and reasons of the first scoring |
| `DecisionEngine.CircuitBreaker.Allows` | platforms/decisionops/engine.py:27-34 | closed, reset after the interval, or refused: the answer and the new state |
| `DecisionEngine.CircuitBreaker.Success` | platforms/decisionops/engine.py:36-38 | closes the breaker and clears its count |
| `DecisionEngine.CircuitBreaker.Failure` | platforms/decisionops/engine.py:40-43 | counts the failure and opens the breaker once the threshold is reached |
| `DecisionEngine.Evaluator.AskPrimary` | platforms/decisionops/engine.py:75-92 | breaker, primary, validation, fallback and cache write composed: outcome, breaker and cache after each of the three courses |
| `DecisionEngine.Evaluator.Evaluate` | platforms/decisionops/engine.py:64-108 | one evaluation equals the step function on engine states that the run theorems use |
| `EngineRuns.CacheProvenance` | platforms/decisionops/engine.py:75-92 | every cached value is a validated primary output for its key; no fallback output ever enters the cache |
| `EngineRuns.DecisionProvenance` | platforms/decisionops/engine.py:70-94 | a record attributed to the primary carries what the primary once validly answered for that state and question |
| `EngineRuns.CacheIsRecencyOrder` | platforms/decisionops/engine.py:72-92 | after any run the cache holds the `capacity` most recently touched keys in order |
| `EngineRuns.MirrorsStep` | platforms/decisionops/engine.py:64-108 | an engine with a cache and one without stay in step through one evaluation |
| `EngineRuns.CachingIsTransparent` | platforms/decisionops/engine.py:64-114 | with a deterministic, valid primary every evaluation of every run has the same record as with capacity 0 |
| `EngineRuns.OpenIffThresholdReached` | platforms/decisionops/engine.py:27-43 | in every reachable state the breaker is open if and only if the counted failures reach the threshold |
| `EngineRuns.FailingCallsAreRateLimited` | platforms/decisionops/engine.py:27-43 | while the primary keeps failing, a span of T ticks contains at most threshold * (T / reset + 1) calls |
| `Scheduler.BoundedScheduler.Create` | platforms/metal_runtime/scheduler.py:17-24 | construction fails exactly for non-positive slots or limit |
| `Scheduler.BoundedScheduler.SubmitItem` | platforms/metal_runtime/scheduler.py:37-42 | refuses exactly when the queue is full, otherwise enqueues without blocking |
| `Scheduler.BoundedScheduler.CancelItem` | platforms/metal_runtime/scheduler.py:42 | a deadline or a departed caller cancels the future and nothing else |
| `Scheduler.BoundedScheduler.WorkerDequeue` | platforms/metal_runtime/scheduler.py:46-50 | takes the oldest item; a cancelled one is dropped, another is passed to the backend |
| `Scheduler.BoundedScheduler.WorkerFinish` | platforms/metal_runtime/scheduler.py:50-56 | settles the future through the try, except and finally clauses, or leaves a cancelled one alone |
| `Scheduler.BoundedScheduler.WorkerInterrupted` | platforms/metal_runtime/scheduler.py:51-56 | cancellation passes the except clause, runs finally and ends the worker |
| `Scheduler.BoundedScheduler.StartWorkers` | platforms/metal_runtime/scheduler.py:26-28 | starts `slots` workers unless the roster is occupied |
| `Scheduler.BoundedScheduler.BeginStop` | platforms/metal_runtime/scheduler.py:30-34 | cancels every listed worker that has not ended |
| `Scheduler.BoundedScheduler.EndStop` | platforms/metal_runtime/scheduler.py:34-35 | clears the roster when the awaited workers have ended |
| `SchedulerRuns.InvariantAlways` | platforms/metal_runtime/scheduler.py:26-56 | queue order and limit, `active`, worker and item states agree in every reachable state of every interleaving |
| `SchedulerRuns.FirstInFirstOut` | platforms/metal_runtime/scheduler.py:22-56 | items leave the queue in submission order, the queue keeps its limit, and `active` counts the workers holding an item |
| `SchedulerRuns.BackendRunsAtMostOnce` | platforms/metal_runtime/scheduler.py:46-50 | the backend runs at most once per item, and only for one not cancelled when it was dequeued |
| `SchedulerRuns.FuturesSettleOnce` | platforms/metal_runtime/scheduler.py:49-53 | a settled future never changes again |
| `SchedulerRuns.RepliesKeepTheWorker` | platforms/metal_runtime/scheduler.py:48-56 | no reply kills a worker, even when a deadline closed the future during generation |
| `SchedulerRuns.WorkersEndOnlyByStop` | platforms/metal_runtime/scheduler.py:30-56 | a worker ends only because a stop listed it |
| `SchedulerRuns.EveryItemHasOneFate` | platforms/metal_runtime/scheduler.py:37-56 | every accepted item is exactly one of queued, in progress, settled, given up or abandoned by stop |
| `SchedulerRuns.ActiveWithinSlots` | platforms/metal_runtime/scheduler.py:26-56 | while every start is safe, at most `slots` generations run at once across any number of restarts |
| `SchedulerRuns.SeparateStopsStartSafely` | platforms/metal_runtime/scheduler.py:26-35 | while stops do not overlap every start is safe |
| `SchedulerRuns.StartKeepsTheBoundIff` | platforms/metal_runtime/scheduler.py:26-28 | from a start on, `active` stays within `slots` whatever is submitted exactly when no earlier worker is generating or could still take an item |
| `SchedulerRuns.BoundedIffAble` | platforms/metal_runtime/scheduler.py:37-56 | in every reachable state `active` stays within a bound, whatever is submitted, exactly when the workers able to hold an item do |
| `SchedulerRuns.ActiveBound` | platforms/metal_runtime/scheduler.py:26-56 | in any run each stop that clears workers it was not waiting for adds at most another `slots` |
| `SchedulerRuns.OverlappingStopsBreakTheBound` | platforms/metal_runtime/scheduler.py:30-35 | a run in which overlapping stops let a one-slot scheduler generate twice at once |
| `Outbox.IntegrationOutbox.Enqueue` | platforms/integrations/outbox.py:43-63 | a known key returns its message and changes nothing, a new one is appended pending |
| `Outbox.IntegrationOutbox.PendingBatch` | platforms/integrations/outbox.py:65-74 | the earliest due pending rows in order, at most `limit`, and all of them when they fit |
| `Outbox.IntegrationOutbox.Delivered` | platforms/integrations/outbox.py:76-80 | sets the status of that row alone |
| `Outbox.IntegrationOutbox.Failed` | platforms/integrations/outbox.py:82-94 | attempt count, backoff, clipped error and dead-lettering at five, for that row alone |
| `Dispatcher.OutboxDispatcher.Dispatch` | platforms/integrations/dispatcher.py:29-44 | one message's effect on the table and the status it ends in |
| `Dispatcher.OutboxDispatcher.RunOnce` | platforms/integrations/dispatcher.py:26-45 | the table after the whole batch, and that the three counters are what became of it and add up to its size |
| `OutboxRuns.CallsAreExact` | platforms/integrations/dispatcher.py:28-44 | how often each message's handler was called: attempts, delivery and escaping exceptions; never for an unregistered destination; more than five times exactly when the escapes outnumber the tries left |
| `OutboxRuns.FiveTries` | platforms/integrations/dispatcher.py:34-44 | a handler that raises only what the loop catches is called at most five times for a message |
| `OutboxRuns.KeysStayUnique` | platforms/integrations/outbox.py:44-48 | at most one message per idempotency key in every reachable state |
| `OutboxRuns.TerminalRowsAreFinal` | platforms/integrations/outbox.py:76-94 | delivered and dead-letter rows never change again |
| `OutboxRuns.WorkStep` | platforms/integrations/dispatcher.py:28-44 | the tries left over all pending rows strictly decrease with every message dealt with, and an escaping exception leaves them |
| `OutboxRuns.Drains` | platforms/integrations/dispatcher.py:26-45 | messages dealt with are bounded by the tries present and enqueued, in every run |
| `OutboxRuns.OutboxDrains` | platforms/integrations/dispatcher.py:26-45 | with no new messages nothing is pending once as many passes have ended without an escaping exception as there were tries left, each finding something due while anything was pending |
| `OutboxRuns.NobodyOvertakes` | platforms/integrations/outbox.py:65-94 | new and retried messages queue behind a waiting one |
| `OutboxRuns.FetchClearsLimit` | platforms/integrations/outbox.py:65-74 | a batch that leaves a due message out removes a full limit of those ahead of it |
| `OutboxRuns.NoStarvation` | platforms/integrations/outbox.py:65-94 | a due message has had its turn, its handler called or found missing, once the limits of the passes no exception escaped from add up to more than the messages ahead of it |
| `OutboxRuns.NoStarvationWithin` | platforms/integrations/outbox.py:65-94 | with r messages ahead it has had its turn within r / limit + 1 passes that no exception escapes from, whatever is enqueued or retried meanwhile |
| `OutboxRuns.PassIsRun` | platforms/integrations/dispatcher.py:26-45 | what one pass does to the table is what the step-by-step run does |
| `OutboxRuns.EscapedPassIsRun` | platforms/integrations/dispatcher.py:34-38 | a pass that ends in an escaping exception is the step-by-step run that ends in that call |
| `OutboxRuns.EscapesStarve` | platforms/integrations/dispatcher.py:38 | for every n and every limit, a run in which an uncaught exception repeats n times and the due message behind it never has its turn |
| `Sre.GuardsAreExact` | platforms/kubernetes_sre/actions.py:59-84 | the guard sequence lets a writer call through exactly when it is approved, current, independent and within bounds |
| `Sre.SREStore.SaveProposal` | platforms/kubernetes_sre/store.py:39-58 | inserts a proposed row unless the id exists, and touches no other row |
| `Sre.SREStore.Approve` | platforms/kubernetes_sre/store.py:69-78 | approves exactly a proposed row with the approved digest, keeps its proposal, touches no other row, and no further approval of it succeeds |
| `Sre.SREStore.ClaimExecution` | platforms/kubernetes_sre/store.py:89-95 | claims exactly an approved row, keeps its proposal and approval, touches no other row, and afterwards nobody can claim it |
| `Sre.SREStore.FinishExecution` | platforms/kubernetes_sre/store.py:97-102 | ends exactly an executing row as executed or failed; it cannot be claimed or finished again; every other row is unchanged |
| `Sre.ChangeExecutor.Execute` | platforms/kubernetes_sre/actions.py:59-84 | one writer call when the guards pass and none otherwise |
| `Sre.KubernetesSREService.Approve` | platforms/kubernetes_sre/service.py:53-59 | approves exactly a stored, unapproved proposal of somebody else |
| `Sre.KubernetesSREService.Execute` | platforms/kubernetes_sre/service.py:61-75 | uninterrupted, a claim, at most one write and a final status that tells whether it succeeded |
| `SreRuns.InvariantAlways` | platforms/kubernetes_sre/service.py:53-75 | claims have one owner, approvals match their rows and writes their claims, in every interleaving with crashes |
| `SreRuns.WriterIsCalledAtMostOnce` | platforms/kubernetes_sre/store.py:89-102 | at most one writer call per proposal, none before a claim, exactly one when executed |
| `SreRuns.EveryWriteIsSanctioned` | platforms/kubernetes_sre/actions.py:59-84 | every writer call is for the stored, approved proposal, by three distinct identities, before expiry, in a managed namespace, with replicas in 0..100 |
| `SreRuns.ProposalsOnlyAdvance` | platforms/kubernetes_sre/store.py:69-102 | payloads never change, approvals are given once, statuses only advance and end for good |
| `SreRuns.CrashedClaimIsNeverRetried` | platforms/kubernetes_sre/service.py:66-75 | after a crash between claim and report the proposal stays claimed and is never written again |
| `Factory.FactoryWorkload.RecordGate` | platforms/factory/domain.py:109-115 | replaces a required gate before approval only |
| `Factory.FactoryWorkload.MissingOrFailedGates` | platforms/factory/domain.py:117-120 | exactly the required gates that are absent or not passed |
| `Factory.FactoryWorkload.Approve` | platforms/factory/domain.py:122-134 | exactly when validated, all gates passed and the actor neither owner nor evaluator |
| `Factory.FactoryWorkload.Provision` | platforms/factory/domain.py:136-139 | from approved only, recorded in the history |
| `Factory.FactoryWorkload.Release` | platforms/factory/domain.py:141-144 | from provisioned only, recorded in the history |
| `Factory.FactoryWorkload.Suspend` | platforms/factory/domain.py:146-149 | from released only, with a reason |
| `Factory.FactoryWorkload.Retire` | platforms/factory/domain.py:151-154 | from released or suspended only, with a reason |
| `Factory.AppliedKeepsSound` | platforms/factory/domain.py:109-175 | every operation keeps gates, independent approver and an unbroken history from `validated` to the current stage |
| `Factory.ApprovalIsFinal` | platforms/factory/domain.py:109-175 | past approval gates, approver and policy are fixed and the stage never falls back |
| `FactoryDocuments.RoundTrip` | platforms/factory/store.py:83-127 | reading back what was written gives the same workload, constructor checks included |
| `FactoryDocuments.SpecRoundTrip` | platforms/factory/store.py:86 | a specification is read back exactly when it is valid |
| `FactoryDocuments.GateRoundTrip` | platforms/factory/store.py:89-92 | a gate result is read back exactly when its evidence is not blank |
| `FactoryDocuments.DocumentsAreFaithful` | platforms/factory/store.py:83-97 | different workloads have different documents |
| `FactoryStore.FactoryStore.Create` | platforms/factory/store.py:40-50 | inserts version 1 unless the id exists |
| `FactoryStore.FactoryStore.Get` | platforms/factory/store.py:52-61 | the workload last written and its version, to its own tenant only |
| `FactoryStore.FactoryStore.Save` | platforms/factory/store.py:63-77 | adds a version exactly when id, tenant and expected version match, and otherwise changes nothing |
| `FactoryRuns.NoLostUpdates` | platforms/factory/store.py:52-77 | under any interleaving stored version n+1 is one permitted operation on stored version n |
| `FactoryRuns.StoredWorkloadsAreSound` | platforms/factory/domain.py:109-175 | every stored workload past approval has all gates passed, an independent approver and an unbroken history |
| `FactoryRuns.GatesAreFrozenAfterApproval` | platforms/factory/domain.py:109-134 | from the approved version on gates, approver and policy never change and history only grows |
| `Reconciler.Operator.Reconcile` | go/internal/operator/reconciler.go:36-68 | lookup, parsing, validation, workload, observation and status composed, with a fault at any call |
| `Reconciler.Operator.ReconcileDeployment` | go/internal/operator/reconciler.go:124-144 | creates or overwrites the Deployment, failing or panicking where the calls do |
| `Reconciler.Operator.ReconcileService` | go/internal/operator/reconciler.go:145-155 | creates the Service or overwrites its selector and ports |
| `Reconciler.Operator.ReconcileJob` | go/internal/operator/reconciler.go:158-170 | leaves an existing Job alone and creates a missing one |
| `Reconciler.Operator.ObservedState` | go/internal/operator/reconciler.go:70-93 | phase, message and completion as read from the workload |
| `Reconciler.Operator.SetStatus` | go/internal/operator/reconciler.go:172-183 | writes the status only when it differs from the one read |
| `ReconcilerRuns.AttemptIsBetween` | go/internal/operator/reconciler.go:36-93 | for every cluster and every failure each object is as it was or as it should be, the status is written last, and ending without error means the goal is reached |
| `ReconcilerRuns.DoneMeansDeclared` | go/internal/operator/reconciler.go:124-156 | a reconciliation without error has established the declared Deployment and the Service selector and ports |
| `ReconcilerRuns.Idempotent` | go/internal/operator/reconciler.go:36-93 | for every resource, repeating a reconciliation that ended without error alters no object and writes no status |
| `ReconcilerRuns.RetriesConverge` | go/internal/operator/reconciler.go:36-93 | for every cluster, after any number of attempts failing anywhere one clean attempt reaches the cluster that an undisturbed one would have |
| `ReconcilerRuns.TargetIsStable` | go/internal/operator/reconciler.go:129-169 | aiming again from a half-finished cluster aims at the same cluster |
| `ReconcilerRuns.OnlyValidSpecsAreWritten` | go/internal/operator/reconciler.go:42-53 | every workload write is for the declared spec and Validate accepts it |
| `ReconcilerRuns.ExistingJobsAreKept` | go/internal/operator/reconciler.go:158-165 | no attempt ever changes an existing Job |
| `ReconcilerRuns.EvaluationsGetTheirJob` | go/internal/operator/reconciler.go:158-170 | an evaluation that finishes without error has its Job, and Deployment and Service are untouched |
| `ReconcilerRuns.ConvergesIffQuantitiesParse` | go/internal/operator/reconciler.go:104-109 | an accepted resource converges exactly when its quantities parse or it is an evaluation run with its Job there; otherwise no attempt changes anything |
| `ReconcilerRuns.AcceptableIff` | go/internal/platform/spec.go:22-67 | exactly which resources are accepted, in terms of what they declare |
| `ReconcilerRuns.DeclaredReplicasRunIff` | go/internal/platform/spec.go:42 | an accepted resource runs its declared replica count exactly when that count is within 1..100 |
| `ReconcilerRuns.OversizedReplicasAreAccepted` | go/internal/platform/spec.go:42 | an AgentDeployment with 2^32 + 1 replicas is accepted and deployed as 1 |
| `Rounding.RoundToMonotone` | platforms/metal_runtime/planner.py:18 | rounding to a number of decimals preserves order |
| `Rounding.RoundToFixes` | platforms/metal_runtime/planner.py:18 | a number with no more decimals is its own rounding |
| `Rounding.RoundToIsNear` | platforms/judgeops/calibration.py:81-86 | rounding moves a number by at most half a unit in the last place |
| `Planner.MaximumContextIsLargest` | platforms/metal_runtime/planner.py:65-69 | the computed maximum is exactly the largest context that fits a slot's share |
| `Planner.AdmissionIsExact` | platforms/metal_runtime/planner.py:62-78 | admitted exactly when there is a slot and the prompt fits; the grant is the largest context up to the request that fits, covers the prompt exactly when no negative generation is asked for, and memory stays within the total |
| `Planner.ReportedEstimateWithinTotal` | platforms/metal_runtime/planner.py:71-78 | the displayed estimate of an admission is within a total given in thousandths |
| `Planner.AdmissionWithinTotalIff` | platforms/metal_runtime/planner.py:71-78 | with empty prompts allowed, an admission stays within the total exactly when the reserves alone do |
| `Planner.EmptyPromptsOvercommit` | platforms/metal_runtime/planner.py:75-78 | an empty prompt admitted although the reserves exceed the memory |
| `Planner.LiveGrantsShare` | platforms/metal_runtime/planner.py:62-78 | the i-th oldest grant in use takes at most 1/i of the budget, through any asks and ends |
| `Planner.HarmonicBudgetIsProduct` | platforms/metal_runtime/planner.py:58-60 | the whole budget, half of it, and so on to a k-th of it add up to the budget times 1 + 1/2 + ... + 1/k |
| `Planner.ConcurrentGrantsAreHarmonic` | platforms/metal_runtime/planner.py:58-78 | k concurrent grants use at most the budget times 1 + 1/2 + ... + 1/k, and k is at most the number of slots |
| `Planner.HarmonicBoundIsAttained` | platforms/metal_runtime/planner.py:58-78 | for every k a planner and requests that take the whole harmonic bound |
| `Planner.TwoGrantsExceedTheBudget` | platforms/metal_runtime/planner.py:58-78 | whenever a second slot can hold a token, two requests granted in full that exceed the budget |
| `Planner.ConcurrentGrantsFitIff` | platforms/metal_runtime/planner.py:58-78 | concurrent grants fit the budget, whatever is asked and ended, exactly when there is no second slot or it cannot hold one token |
| `Retrieval.Accumulate` | platforms/ecommerce/retrieval.py:20-24 | whatever order the token set is visited in, each component is the signed count of the tokens hashed to it |
| `Retrieval.NormalisedIsUnit` | platforms/ecommerce/retrieval.py:25-26 | an embedding has length one, or is zero |
| `Retrieval.CosineInRange` | platforms/ecommerce/retrieval.py:29-30 | a cosine lies between -1 and 1 |
| `Retrieval.ScoreInUnitInterval` | platforms/ecommerce/retrieval.py:54-58 | every score lies in [0, 1], before and after rounding |
| `Retrieval.Collect` | platforms/ecommerce/retrieval.py:51-58 | the loop collects the scored hits in catalog order |
| `Retrieval.CandidatesAreTheScored` | platforms/ecommerce/retrieval.py:52-58 | a hit is a candidate exactly when it is some product's positive score |
| `Retrieval.SortIsStable` | platforms/ecommerce/retrieval.py:59 | the sort is descending, keeps every hit and leaves ties in catalog order |
| `Retrieval.Choose` | platforms/ecommerce/retrieval.py:62-70 | the choice has the highest marginal score and is the first that has it |
| `Retrieval.Search` | platforms/ecommerce/retrieval.py:48-73 | the loops compute the greedy selection from the sorted candidates |
| `Retrieval.SearchIsGreedy` | platforms/ecommerce/retrieval.py:60-73 | min(limit, candidates) distinct hits, the top of the sort first, each pick maximal over what remains |
| `Retrieval.SearchBreaksTiesInOrder` | platforms/ecommerce/retrieval.py:62-72 | among equally good candidates the earlier in the sort is picked |
| `Retrieval.SearchPrefix` | platforms/ecommerce/retrieval.py:61 | a smaller limit asks for a prefix of the answer to a larger one |
| `Rag.SearchDocuments` | platforms/rag/workflow.py:50 | retrieval and grading in order, with stateful services |
| `Rag.Invoke` | platforms/rag/workflow.py:47-55 | the loop with early return computes the recursive account of the attempts |
| `Rag.Simulates` | platforms/rag/workflow.py:75-105 | from any retrieve node the graph does what is left of the loop in two steps per attempt |
| `Rag.GraphEqualsLoop` | platforms/rag/workflow.py:47-105 | same queries, same calls in order, same answer, documents, attempts and status, within 2 * maximum steps |
| `Rag.SameQueriesIff` | platforms/rag/workflow.py:77 | the two issue the same queries exactly when no empty rewrite is used for a non-empty question |
| `Rag.EmptyRewriteDiverges` | platforms/rag/workflow.py:77 | the first empty rewrite is where they part |
| `Rag.NonemptyRewritesSuffice` | platforms/rag/workflow.py:86-87 | a rewriter that never returns an empty string meets the condition |
| `Rag.AttemptsAreBounded` | platforms/rag/workflow.py:49-55 | one query per attempt, at most the maximum, and a refusal only after all of them found nothing |
| `Calibration.CertainChanceIsAgreement` | platforms/judgeops/calibration.py:74-78 | certain chance agreement forces complete agreement, so kappa never divides by zero |
| `Calibration.KappaFormula` | platforms/judgeops/calibration.py:74-78 | kappa is 2(tp tn - fp fn) over the sum of margin products wherever that is positive, and 1 where it vanishes |
| `Calibration.KappaRange` | platforms/judgeops/calibration.py:74-78 | kappa lies in [-1, 1] and is 1 exactly when fp = fn = 0 |
| `Calibration.PerfectKappaIsAgreement` | platforms/judgeops/calibration.py:59-84 | a report's kappa is 1 exactly when the judge agreed with every label |
| `Calibration.ReportIgnoresOrder` | platforms/judgeops/calibration.py:59-95 | report and refusal do not depend on the order of the cases |
| `Calibration.RolesExchange` | platforms/judgeops/calibration.py:69-86 | exchanging judge and human keeps accuracy and kappa and swaps precision with recall |
| `Calibration.RecallComplementsFalseFails` | platforms/judgeops/calibration.py:83-86 | with positive labels recall and false-fail rate add up to one |
| `Calibration.BrierRange` | platforms/judgeops/calibration.py:87-94 | the Brier score lies in [0, 1] and is 0 exactly when every probability states its label |
| `Calibration.QualifiesIff` | platforms/judgeops/calibration.py:37-51 | no failure is named exactly when all six gates hold |
| `Calibration.RateGatesBoundAccuracy` | platforms/judgeops/calibration.py:43-86 | passing both gates with the rounded rates implies exact accuracy of at least 1 minus the larger limit minus half a millionth, and reported accuracy within a millionth |
| `Ensemble.ScoreDimensions` | platforms/judgeops/ensemble.py:34-39 | every dimension's median and the widest spread, or failure exactly when a judge lacks a score |
| `Ensemble.Evaluate` | platforms/judgeops/ensemble.py:32-64 | verdict, reason, scores, weighted score, confidence and disagreement in terms of medians and spreads |
| `Ensemble.SortSorts` | platforms/judgeops/ensemble.py:38 | the values behind a median are the judges' values in order |
| `Ensemble.ScoresAreMedians` | platforms/judgeops/ensemble.py:36-38 | each dimension's score is the median of what the judges gave it |
| `Ensemble.MedianWithinRange` | platforms/judgeops/ensemble.py:38-39 | a median lies between the smallest and the largest value |
| `Ensemble.MajorityBelow` | platforms/judgeops/ensemble.py:38 | a strict majority below a value puts the median below it |
| `Ensemble.PanelIgnoresOrder` | platforms/judgeops/ensemble.py:32-64 | nothing that is decided depends on the order of the judges |
| `Ensemble.PassBoundsEveryJudge` | platforms/judgeops/ensemble.py:44-52 | on a pass no judge scored any dimension further below its threshold than the allowed disagreement |
| `Ensemble.MajorityBelowPreventsPass` | platforms/judgeops/ensemble.py:44-52 | a strict majority below the threshold of any dimension rules out a pass |
| `Ensemble.WeightedMeanBetween` | platforms/judgeops/ensemble.py:40-41 | the weighted score lies between the smallest and the largest median |
| `Ensemble.PassReachesWeightedThreshold` | platforms/judgeops/ensemble.py:40-52 | on a pass the weighted score reaches the weighted mean of the thresholds |

## Left out

- Digests, ids and clocks: SHA-256 is an injective digest, a cache key is the values it is computed from, random ids are positions or parameters, timestamps are integer ticks. Nothing is claimed about cryptography.
- Foreign calls: backends, handlers, providers, retrievers, graders, rewriters, scorers and cluster writers are arbitrary replies or functions; what they do outside the program is not modelled.
- SQL and sqlite internals: each table is a value and each single statement one atomic step; a unique-key violation between the SELECT and the INSERT of one `enqueue` racing another is not modelled, nor is a failure of storage itself, inside `finish_execution` included.
- OutboxRuns.NoStarvation: assumes one dispatcher and a clock that strictly advances between steps; two dispatchers racing on the unconditional updates have no such bound. Passes an exception escapes from do not count, because for them the bound is false (`EscapesStarve`).
- SchedulerRuns.WorkersEndOnlyByStop: a backend call ends with a result or an `Exception`; one that raises `CancelledError` or another `BaseException` of its own ends its worker without a stop, and one that swallows its cancellation keeps it, and neither is modelled.
- SchedulerRuns.ActiveWithinSlots: assumes that every start is safe, because otherwise the bound is false (`StartKeepsTheBoundIff`, `OverlappingStopsBreakTheBound`).
- Rag.GraphEqualsLoop: assumes no empty rewrite that is used, because otherwise it is false (`SameQueriesIff`); LangGraph is modelled as running one node after another.
- Planner.ConcurrentGrantsAreHarmonic: assumes that each request counts at least the grants then in use as active and that the vision reserve is not negative; a negative number of active slots is not modelled.
- Planner.AdmissionIsExact: is for prompts of at least one token, and its bound on the total is for a vision reserve that is not negative or reserves that fit the memory. `Planner.AdmissionWithinTotalIff` also assumes a generation that is not negative.
- DecisionEngine.Evaluator.Evaluate: capacities are at least 0; a negative one makes the eviction loop fail on an empty dictionary. Probabilities are a list of named numbers without repeated names being merged.
- Floating point: reals are exact. Rounding is modelled where its result is used or promised (weights, retrieval scores, displayed estimates, the rates the gates compare); the theorems on kappa and the Brier score are about the exact figures, and the rounded display of panel scores is not modelled.
- Retrieval.NormalisedIsUnit: the square root is any number whose square is the sum of squares; tokenising, case folding and the stopword list are not modelled, and the vector index is a field of each product.
- FactoryDocuments.RoundTrip: a JSON object is a record of its members; defaults for members that an older document lacks are not modelled.
- Blank reasons, evidence and rollback texts are judged by the ASCII characters that `strip` removes, not by all of Unicode's whitespace.
- Component fields other than ids and dependencies, and the checks on their form, are not modelled; nor is reading YAML.
- The workload scorecard is a display of the missing gates. Sorting of error lists is not modelled: they are sets.
- Reconciler.Operator.Reconcile: API-server defaulting, resource-version conflicts, immutable fields (an API server refuses to change the selector of a foreign Deployment of the same name, which then never converges) and objects created or deleted by others between two calls are not modelled; every object has the name of its resource, and fields the operator always sets to constants are implied.
- Status messages, refusals of the executor and calibration failures are values that stand for their texts.
- FactoryRuns.NoLostUpdates: only new workloads are created in these runs; `create` itself stores whatever workload it is given, as `FactoryStore.FactoryStore.Create` does.
- Integers are unbounded, except the 32-bit conversions of the operator. Sizes of database columns are not modelled.
- Judge and panel construction: the check that judges have distinct identities, and the rubric's own validation, are preconditions.
- Banking rules, regular-expression guardrails, injection screening, telemetry, metrics, HTTP routes, command-line tools, manifests, the model-lifecycle table and its store, incident workflows and adapters: single checks, plumbing or foreign calls.
