# Verified model of an enterprise agent platform

The platform runs agent workflows for many tenants. Most of it moves rows between HTTP handlers and a
database, but it contains several protocols and algorithms whose correctness is not evident from any
single function. This project models those in Dafny and proves what they keep over whole runs.

| module | models |
|---|---|
| `WebhookDelivery`, `WebhookLease` | the delivery table and its audit log, and any number of workers that claim rows with a lease, send, and record the outcome late, twice or never |
| `CircuitBreaker`, `CircuitProtocol` | the persistent circuit breaker, and calls that are admitted in one state and complete in another |
| `Delegation`, `DelegationProtocol` | delegating work to other agents under depth and concurrency caps, exactly-once claim, fenced completion |
| `Text`, `Normalisation`, `Chunking` | text normalisation and the overlapping chunks whose offsets are recovered by searching |
| `RetryEngine`, `RetryBudget` | the retry loop of a workflow node under a deadline, and branches that share one retry budget |
| `SseParser` | the incremental parser of server-sent events |
| `OperatorIdempotency` | operator actions that are replayed by an idempotency key |
| `AlertLifecycle` | firing, recovery, escalation and notification cooldown of an alert |
| `Organization`, `OrganizationRace` | which calls can change the owner of an organization, one after the other and interleaved |

Each stateful component has two parts. A specification says what one operation does to the state, as a
function on values; a class performs the operation on mutable fields and is proved equal to it, error
cases included. The protocol modules then let arbitrary sequences of steps run and prove what every run
keeps. A call that locks the row it works on is one atomic step, so an interleaving of workers is a
sequence of steps; a call that reads without a lock, or commits in the middle, is two. A clock may be read
before the lock is obtained. A failing property is kept as the code has it: a lemma gives the run that
breaks it, and another says that it holds if and only if a condition on the steps does.

Where the code differs from what one might expect of it, the model follows the code:

- A lease is fenced by the owner string alone, so a task can end the lease of a later task of the same
  worker (`WebhookLease.SelfTakeoverOverlaps`), and a crash on the last attempt strands a row
  (`WebhookLease.CrashOnLastAttempt`).
- A call admitted while a circuit was closed carries no token, and its late success can close a half-open
  circuit whose probe is still out (`CircuitProtocol.TokenlessSuccessClosesEarly`).
- The circuit reads its clock before it waits for the row lock. A late failure and probe can then reopen it
  at the time of an earlier window, whose tokens fit again (`CircuitProtocol.EarlyReadingsReuseTokens`).
- The lineage walk stops at the configured maximum plus two, so a delegation that asks for a larger
  maximum is never refused for its depth (`DelegationProtocol.DepthGuardFailsFromCap`).
- Cancelling a delegation locks nothing, so it can overwrite a completion
  (`DelegationProtocol.CancelOverwritesCompletion`).
- Cutting a stream inside a CR LF pair makes the parser see a blank line (`SseParser.SplitPairCounterexample`).
- A node that times out by itself is blamed on the workflow deadline when the deadline limited its attempt,
  although time remains (`RetryEngine.TimeoutVerdict`).
- An invocation runs its workflow in its own session, which the circuit breaker commits; interrupted after
  that, it leaves its key refused for good (`OperatorIdempotency.InterruptedInvocationIsStranded`).
- An operator action that carries an idempotency key without claiming it overwrites the record of whoever
  did (`OperatorIdempotency.SharedKeyBreaksReplay`).
- The organization service accepts the status `invited`, which only the request schema excludes; with it an
  owner can leave the organization without an owner for good (`Organization.InvitedOwnerIsLost`). So can a
  removal that overlaps a transfer (`OrganizationRace.RemovalLosesOwner`).

## Model

| member | source | states |
|---|---|---|
| WebhookDelivery.Repository.ClaimNext | backend/app/services/integration/webhook_delivery_repository.py:19-72 | validates its arguments in order; claims the oldest unlocked row that is addressed to this group and tenant and neither finished, used up, waiting nor leased, and updates it in place; returns nothing exactly if there is none |
| WebhookDelivery.Repository.Select | backend/app/services/integration/webhook_delivery_repository.py:36-60 | finds that row in the order of creation |
| WebhookDelivery.FirstExists | backend/app/services/integration/webhook_delivery_repository.py:57-59 | the order by creation time and identifier has a least element in every non-empty set of rows |
| WebhookDelivery.Repository.AddAudit | backend/app/services/integration/webhook_delivery_repository.py:74-98 | appends one audit fact with the row's attempt count and the truncated error message, and changes no row |
| WebhookDelivery.Repository.MarkDelivered | backend/app/services/integration/webhook_delivery_repository.py:100-120 | takes effect exactly if the row still runs under this owner; otherwise returns false and changes nothing, not even the log |
| WebhookDelivery.Repository.MarkFailed | backend/app/services/integration/webhook_delivery_repository.py:122-159 | the same fence; then a retry or, once the attempts are used up, a dead letter, with the matching audit fact |
| WebhookDelivery.Repository.ReplayDelivery | backend/app/services/integration/webhook_delivery_repository.py:161-183 | resets exactly the finished rows of the tenant; refuses unfinished ones and does not find those of other tenants |
| WebhookDelivery.BackoffMonotone | backend/app/services/integration/webhook_delivery.py:62-66 | the back-off never shrinks with the attempt number and stays between the smaller of base and maximum, and the maximum |
| WebhookDelivery.BackoffDoubles | backend/app/services/integration/webhook_delivery.py:62-66 | the first back-off is the base and each further one twice the one before, up to the maximum |
| WebhookLease.AuditLogTellsRows | backend/app/services/integration/webhook_delivery_repository.py:63-98 | in every reachable state, whatever the interleaving of claims, completions, crashes, takeovers and replays, folding the log gives back each row: its last status, its claims since the last replay, its lease owner |
| WebhookLease.RunningIffClaimed | backend/app/services/integration/webhook_delivery_repository.py:61-72 | a delivery runs under an owner exactly if its last audit fact is a claim by that owner |
| WebhookLease.CompletionFollowsClaim | backend/app/services/integration/webhook_delivery_repository.py:100-159 | every completion fact follows, for its delivery, directly on a claim fact of the same owner |
| WebhookLease.OneCompletionPerClaim | backend/app/services/integration/webhook_delivery_repository.py:100-159 | the map from completion facts to the claim facts before them is injective: both exist, are claims by the completing owners on the same deliveries, and differ |
| WebhookLease.FenceIsOwnerOfLastClaim | backend/app/services/integration/webhook_delivery.py:103-157 | a task's completion takes effect exactly if the last fact is a claim under its owner string; so a task whose claim is the last always succeeds |
| WebhookLease.CurrentTaskHolds | backend/app/services/integration/webhook_delivery.py:108-116 | a task whose claim is the last fact holds the lease, for the attempt number it captured |
| WebhookLease.PollTakesOldestDue | backend/app/services/integration/webhook_delivery_repository.py:36-60 | a poll claims a delivery if and only if one is due for its worker, and then the oldest of them |
| WebhookLease.WorkersServeTheirGroup | backend/app/services/integration/webhook_delivery.py:108-116 | over any run a worker only has deliveries of its own group, and of its own tenant if it has one |
| WebhookLease.LeaseExclusion | backend/app/services/integration/webhook_delivery_repository.py:36-68 | throughout a run no two tasks of one delivery both have an unexpired lease, if and only if no row is claimed while a task of it is in flight that lost its lease before it expired; without stolen leases that never happens |
| WebhookLease.StepKeepsExclusive | backend/app/services/integration/webhook_delivery_repository.py:36-68 | the same for one step from any exclusive state that satisfies the invariant; an unexpired lease that is still held keeps every claim out |
| WebhookLease.LiveLeaseIsHeld | backend/app/services/integration/webhook_delivery_repository.py:109-115 | throughout a run every task with an unexpired lease still holds it, for its attempt, if and only if no step steals one: an outdated task of the same owner string marks the row |
| WebhookLease.StepKeepsLive | backend/app/services/integration/webhook_delivery_repository.py:109-115 | the same for one step, from any state where unexpired leases are held |
| WebhookLease.LiveFailureOutcome | backend/app/services/integration/webhook_delivery.py:127-136 | for a task whose claim is the last fact, so for every unexpired one if nothing was stolen, the retry time, computed from the captured attempt, and the burial, decided from the stored one, agree |
| WebhookLease.RetryWithoutBackoff | backend/app/services/integration/webhook_delivery.py:127-136 | in any run, a failure that takes effect is retried without back-off exactly if the stored count allows another attempt and the captured one did not |
| WebhookLease.NoClaimBeforeRetryTime | backend/app/services/integration/webhook_delivery_repository.py:46-54 | after a retry the next operation on the delivery is a claim whose clock reading is at or after the retry time |
| WebhookLease.SelfTakeoverOverlaps | backend/app/services/integration/webhook_delivery_repository.py:109-115 | leases can be stolen: a worker that takes over its own lease can lose the second one to its own late failure, and a rival then holds a second unexpired lease |
| WebhookLease.WhoMayChangeRow | backend/app/services/integration/webhook_delivery_repository.py:36-68 | a running row changes only by a claim at or after its lease expiry or by a task of its lease owner, a finished row only by a replay of its tenant, a pending row only by a claim |
| WebhookLease.UntouchedRow | backend/app/services/integration/webhook_delivery_repository.py:36-60 | no step changes a row other than the one it is about |
| WebhookLease.AttemptBudget | backend/app/services/integration/webhook_delivery_repository.py:46-68 | with one common limit attempts stay within it, pending rows are strictly below, dead letters are exhausted, and a row runs exactly if its lease owner is set and exactly if its lease expiry is set |
| WebhookLease.AbandonedForever | backend/app/services/integration/webhook_delivery_repository.py:46-52 | a running row at the limit with no task left is never changed again |
| WebhookLease.CrashOnLastAttempt | backend/app/services/integration/webhook_delivery_repository.py:46-52 | a task that crashes on its last attempt leaves its row running, and nothing ever changes it again, if and only if its worker has no other task of the delivery in flight |
| CircuitBreaker.CircuitRow.Admit | backend/app/runtime/workflow/circuit_breaker.py:141-166 | a closed circuit admits, an open one only after the recovery timeout and then as the first probe of a new window, a half-open one up to its quota |
| CircuitBreaker.CircuitRow.Succeed | backend/app/runtime/workflow/circuit_breaker.py:183-203 | a success clears the failures of a closed circuit, or releases a matching probe and closes the circuit with the last one |
| CircuitBreaker.CircuitRow.Fail | backend/app/runtime/workflow/circuit_breaker.py:222-242 | a failure counts towards the threshold, or reopens a half-open circuit if the probe matches |
| CircuitBreaker.Service.BeforeCall | backend/app/runtime/workflow/circuit_breaker.py:125-166 | every outcome of asking for a call: invalid configuration, disabled, first use, changed policy, open, admitted with its token |
| CircuitBreaker.Service.RecordSuccess | backend/app/runtime/workflow/circuit_breaker.py:168-203 | records a success for the token of this context and clears it; unknown circuits and disabled policies record nothing |
| CircuitBreaker.Service.RecordFailure | backend/app/runtime/workflow/circuit_breaker.py:205-242 | records a failure, for a new circuit if there is none, and returns the new state |
| CircuitBreaker.Service.FindOrInsert | backend/app/runtime/workflow/circuit_breaker.py:89-101 | a missing circuit is inserted closed with the given policy, an existing one is left alone |
| CircuitProtocol.CircuitShape | backend/app/runtime/workflow/circuit_breaker.py:146-166 | in every run, whatever clock readings its calls took, a circuit has one of three sound shapes of counters and times |
| CircuitProtocol.WindowsIncrease | backend/app/runtime/workflow/circuit_breaker.py:130-154 | in every state of a run, whatever reading comes next, half-open windows open at strictly increasing times, if and only if no failure is counted on a reading a full recovery timeout or more before the last window; readings are taken before the lock |
| CircuitProtocol.LateFailureBreaksOrder | backend/app/runtime/workflow/circuit_breaker.py:147-154 | such a failure is what it takes: some reading reopens an open circuit at or before its last window if and only if the counted failure was read a full recovery timeout before that window |
| CircuitProtocol.PromptFailuresAreNotLate | backend/app/runtime/workflow/circuit_breaker.py:210-239 | no failure is late if each is counted within a recovery timeout of its reading |
| CircuitProtocol.ReadingUnderLockIsPrompt | backend/app/runtime/workflow/circuit_breaker.py:210-239 | nor if the clock were read under the row lock |
| CircuitProtocol.EarlyReadingsReuseTokens | backend/app/runtime/workflow/circuit_breaker.py:210-239 | early readings break the order: a second window opens before the first, or at the same time, and then the old token closes the circuit while the new probe is out |
| CircuitProtocol.ProbeConservation | backend/app/runtime/workflow/circuit_breaker.py:147-196 | over any run without late failures the success count of a half-open circuit is that of its probes in flight, and the circuit is closed only with no probe of the last window out, if and only if no success without a token arrives while it is half-open |
| CircuitProtocol.HolderAccounting | backend/app/runtime/workflow/circuit_breaker.py:147-165 | in every run, late failures or not, the holders of the current token are the success count, the successes without a token and the older tokens of the same time |
| CircuitProtocol.ProbeAccounting | backend/app/runtime/workflow/circuit_breaker.py:147-165 | without late failures the probes of the current window still in flight are the success count and the successes without a token in this window; so the count is exact if and only if there were none |
| CircuitProtocol.ClosedAfterAllProbes | backend/app/runtime/workflow/circuit_breaker.py:186-196 | without late failures, when a success closes the circuit, as many probes of its window are out as successes without a token arrived in it |
| CircuitProtocol.TokenlessSuccessClosesEarly | backend/app/runtime/workflow/circuit_breaker.py:107-123 | the condition is needed: a success without a token closes a circuit while a probe is out |
| CircuitProtocol.StaleProbes | backend/app/runtime/workflow/circuit_breaker.py:107-123 | without late failures a success from an older window never changes the circuit; a failure leaves a half-open circuit alone, and counts in the closed and open states unless this very instant is recorded already |
| CircuitProtocol.NewWindowIsUnheld | backend/app/runtime/workflow/circuit_breaker.py:147-156 | without late failures only the call that opens a window holds its token |
| CircuitProtocol.OpenUntilRecovered | backend/app/runtime/workflow/circuit_breaker.py:147-153 | an open circuit admits a call exactly if its reading lies a full recovery timeout after that of the last counted failure, and no completion closes it |
| CircuitProtocol.Transitions | backend/app/runtime/workflow/circuit_breaker.py:75-101 | the four possible changes of state with their causes, and that the stored policy never changes |
| CircuitProtocol.FailuresInARow | backend/app/runtime/workflow/circuit_breaker.py:197-239 | the failure count of a closed circuit is that of the failures reported since it was last closed or had a success without a token; it opens exactly with the failure that brings these to the threshold |
| Delegation.Service.DelegationDepth | backend/app/services/agent_delegation/service.py:90-108 | the lineage walk in the tenant with its cycle check ends and gives the depth of the walk, or the cycle error |
| Delegation.WalkReportsCycle | backend/app/services/agent_delegation/service.py:90-108 | a cycle is reported if and only if the walk comes back to an execution before its cap |
| Delegation.OtherTenantsDoNotCount | backend/app/services/agent_delegation/service.py:96-99 | rows of other tenants have no influence on the walk |
| Delegation.Service.Create | backend/app/services/agent_delegation/service.py:110-213 | all refusals in order; an existing key returns its delegation or conflicts on another target; otherwise one pending row with its depth and time limit |
| Delegation.RequestPasses | backend/app/services/agent_delegation/service.py:128-155 | a request gets past the first checks if and only if its source is alive, its actor may use it, each limit asked for or set is in its range, and payload and key are valid |
| Delegation.RefusedFor | backend/app/services/agent_delegation/service.py:128-155 | the first failing check names the refusal |
| Delegation.NewPasses | backend/app/services/agent_delegation/service.py:161-169 | under a new key a delegation is refused for its agents, a cycle, its depth or the active ones, in this order and for nothing else |
| Delegation.Service.Claim | backend/app/services/agent_delegation/claim.py:27-167 | in place: refuses unless the delegation is pending, in time and its source alive; otherwise inserts a fresh running worker execution and one frontier and binds them |
| Delegation.ClaimPasses | backend/app/services/agent_delegation/claim.py:51-90 | a claim passes if and only if the owner is named, the delegation is pending and in time, and its source is alive |
| Delegation.ClaimRefusedFor | backend/app/services/agent_delegation/claim.py:51-90 | the first failing check names the refusal |
| Delegation.Service.LockDelegation | backend/app/services/agent_delegation/completion.py:23-76 | the fence: the delegation of the tenant runs, and for exactly this worker execution |
| Delegation.Service.Finish | backend/app/services/agent_delegation/completion.py:79-314 | in place: completion, failure and timeout succeed only past the fence and with a matching execution status, and set status, end and error |
| Delegation.FinishPasses | backend/app/services/agent_delegation/completion.py:23-76 | an outcome is accepted if and only if it comes from the worker bound to a running delegation and agrees with how its execution ended |
| Delegation.FinishedAs | backend/app/services/agent_delegation/completion.py:79-314 | each outcome sets its status and its error, cut to the columns, and nothing else but the end |
| Delegation.Service.ReadForCancel | backend/app/services/agent_delegation/service.py:234-254 | reads and checks a delegation of the source for its creator or an administrator, and locks nothing |
| Delegation.CancelPasses | backend/app/services/agent_delegation/service.py:234-254 | a cancel passes its checks if and only if its actor may use the source and the delegation is pending or running |
| Delegation.EndRefusedFor | backend/app/services/agent_delegation/completion.py:23-76 | the first failing check of a completion or a cancel names the refusal |
| Delegation.AllowedExactly | backend/app/services/agent_delegation/lifecycle.py:14-22 | the transition table: nothing leaves a terminal status or returns to pending, and a pending row can only be started or cancelled |
| Delegation.Service.WriteCancel | backend/app/services/agent_delegation/service.py:256-281 | writes status and end of the row that was read, whatever became of it |
| DelegationProtocol.WalkIsLineage | backend/app/services/agent_delegation/service.py:90-108 | on a forest the walk meets no execution twice and reports the true lineage up to its cap |
| DelegationProtocol.WalkInTenant | backend/app/services/agent_delegation/service.py:96-101 | looking only at the delegations of its tenant the walk loses none of the lineage |
| DelegationProtocol.DepthIsTrue | backend/app/services/agent_delegation/service.py:163-186 | in every reachable state the graph is a forest, the walk never reports a cycle, stored depths are the true lineage up to the cap, and a maximum below the cap is respected |
| DelegationProtocol.DepthGuardFailsFromCap | backend/app/services/agent_delegation/service.py:90-108 | the bound is exact: for every allowed maximum from the cap on, some run stores a delegation deeper than requested |
| DelegationProtocol.LifecycleStep | backend/app/services/agent_delegation/lifecycle.py:15-41 | no step deletes, revives or rebinds a delegation; it moves along an allowed transition or stays, if and only if the step is not a cancel that overwrites a terminal row |
| DelegationProtocol.LifecycleRun | backend/app/services/agent_delegation/lifecycle.py:15-41 | the history of a delegation is a path of allowed transitions, so that terminal states absorb, if and only if no cancel writes to it after it became terminal |
| DelegationProtocol.CancelOverwritesCompletion | backend/app/services/agent_delegation/service.py:234-281 | that happens: in every reachable state, each running delegation can be completed and then still become cancelled |
| DelegationProtocol.ClaimedOnce | backend/app/services/agent_delegation/claim.py:56-129 | of all claims of one delegation in a run at most one succeeds |
| DelegationProtocol.OneWorkerOneFrontier | backend/app/services/agent_delegation/claim.py:92-129 | delegations and worker executions correspond one to one, each with exactly one frontier |
| DelegationProtocol.FinishedByItsWorker | backend/app/services/agent_delegation/completion.py:44-76 | only the bound worker execution finishes a delegation, while it runs and with its real status, and it can finish no other |
| DelegationProtocol.ActiveCap | backend/app/services/agent_delegation/repository.py:40-47 | with a common cap an execution never has more pending and running delegations than it |
| DelegationProtocol.KeyNamesOneDelegation | backend/app/services/agent_delegation/service.py:128-161 | a key names one delegation for good; creating with it again adds no row, however full the cap is |
| DelegationProtocol.ClaimableUntilTimeout | backend/app/services/agent_delegation/claim.py:70-103 | while a created delegation is pending, in every later state, a claim is too late exactly from its creation plus the seconds asked for or set; before that it succeeds exactly if the source is alive, and leases the worker for as many seconds |
| Normalisation.NormalizeClean | backend/app/services/knowledge/ingestion.py:28-33 | the result has no CR, tab, double space, triple line feed or outer whitespace |
| Normalisation.NormalizeFixedPoints | backend/app/services/knowledge/ingestion.py:28-33 | exactly such texts are left unchanged |
| Normalisation.NormalizeIdempotent | backend/app/services/knowledge/ingestion.py:41 | normalising again, as chunking does on the ingest path, changes nothing |
| Normalisation.NormalizeKeepsInk | backend/app/services/knowledge/ingestion.py:28-33 | every character that is not whitespace is kept, in order |
| Normalisation.WordGap | backend/app/services/knowledge/ingestion.py:29-33 | between two clean texts any run of spaces and tabs becomes one space |
| Normalisation.ParagraphGap | backend/app/services/knowledge/ingestion.py:29-33 | between two clean texts one or two line feeds stay, and a longer run becomes two |
| Text.LineEnds | backend/app/services/knowledge/ingestion.py:30 | a CR LF pair, and a CR that no LF follows, becomes one LF |
| Text.IsSpaceExactly | backend/app/services/knowledge/ingestion.py:33 | the characters that stripping removes |
| Chunking.WindowEnd | backend/app/services/knowledge/ingestion.py:48-52 | a window is never empty, never longer than the maximum, and at least half of it unless it reaches the end of the text |
| Chunking.WindowEndsRight | backend/app/services/knowledge/ingestion.py:48-52 | a window that text follows ends at the last line feed of its second half if there is one, and otherwise at the maximum length |
| Chunking.WindowEndMonotone | backend/app/services/knowledge/ingestion.py:48-52 | despite the back-off to a line feed a later window never ends earlier |
| Chunking.FindStripped | backend/app/services/knowledge/ingestion.py:53-56 | the first hit of a window's stripped content is the stripped window itself |
| Chunking.ChunkOfWindow | backend/app/services/knowledge/ingestion.py:53-65 | the chunk of a window has the exact offsets of its stripped content; only a blank window has none |
| Chunking.CutWindows | backend/app/services/knowledge/ingestion.py:44-69 | the loop ends with exact slices in order that miss nothing readable; each is all of one window but the whitespace around it, every window ends where it should, and the next begins the overlap before its end, or one later than it began |
| Chunking.FewByReach | backend/app/services/knowledge/ingestion.py:68 | all chunks but one, times the least advance, are fewer than the length |
| Chunking.ChunkText | backend/app/services/knowledge/ingestion.py:35-69 | for every text and every sizes: the two errors, or the chunks of such windows of the normalised text, with exact offsets, complete, in order and at most one for each least advance |
| Chunking.DocumentVersion.Ingest | backend/app/services/knowledge/ingestion.py:80-113 | committed chunks are cut from exactly the text whose hash is stored; each failure leaves the state the code leaves |
| Chunking.DocumentVersion.ChunkContent | backend/app/services/knowledge/ingestion.py:85-90 | chunking the normalised content gives offsets into that content |
| RetryEngine.DelayBounds | backend/app/runtime/workflow/runtime.py:104-108 | the delay never falls with the attempt number and stays between the first and the largest back-off |
| RetryEngine.DelayDoubles | backend/app/runtime/workflow/runtime.py:104-108 | without jitter the first delay is the back-off and each further one twice the one before, up to the largest; jitter adds its share, also up to the largest |
| RetryEngine.Runtime.ExecuteNode | backend/app/runtime/workflow/runtime.py:232-280 | the loop makes exactly the attempts, retries and delays of its specification and ends with the same result |
| RetryEngine.FailedTurn | backend/app/runtime/workflow/runtime.py:252-280 | a failed attempt is retried if and only if its kind of failure is listed, attempts and budget are left and the delay fits, never for an open circuit or a timeout at the deadline; otherwise the caller gets the error of that failure |
| RetryEngine.CutOff | backend/app/runtime/workflow/runtime.py:244-247 | a node that would run longer than its timeout fails as timed out, even if it would have succeeded; any other ends by itself |
| RetryEngine.Runtime.Execute | backend/app/runtime/workflow/runtime.py:353-356 | the nodes run in order, each on the output of the one before, until one fails |
| RetryEngine.DeadlineSafety | backend/app/runtime/workflow/runtime.py:238-280 | whatever the nodes do and however long database calls take, every attempt reads the clock before the deadline, gets a positive timeout within the node's limit and the remaining time, and its node ends by the deadline but for the pause before it; the workflow exceeds its deadline by no more than the pauses around its last attempt |
| RetryEngine.WorkflowAttempts | backend/app/runtime/workflow/runtime.py:232-280 | the attempts form a legal sequence, each with the node's time or what remains of the workflow's, retries after their delay on the same input and successors on the output; success costs one attempt for each node and retry; failure has one of three causes |
| RetryEngine.AttemptsDoNotOverlap | backend/app/runtime/workflow/runtime.py:353-354 | no attempt of a sequential workflow starts before every earlier one has ended |
| RetryEngine.TimeoutVerdict | backend/app/runtime/workflow/runtime.py:246-255 | a timeout is reported as the workflow's although time remains exactly if the deadline limited the attempt and the node gave up by itself before its timeout was up |
| RetryBudget.SharedBudget | backend/app/runtime/workflow/runtime.py:258-280 | however branches interleave, retries stay within the shared budget, each node within its attempts, and all attempts within one for each node and retry |
| RetryBudget.LoopsEnd | backend/app/runtime/workflow/runtime.py:236-280 | every loop ends: at most four steps for each allowed attempt change anything |
| RetryBudget.LoopIsABranch | backend/app/runtime/workflow/runtime.py:232-297 | what the loop of a node does is a run of one such branch |
| Text.UnixNewlinesConcat | frontend/src/utils/sse.ts:53 | converting line ends in two halves differs from converting the whole exactly by one LF for a cut inside a CR LF pair |
| SseParser.SplitJoin | frontend/src/utils/sse.ts:54 | splitting at blank lines loses nothing and leaves none inside a block |
| SseParser.SplitResume | frontend/src/utils/sse.ts:54-55 | greedy splitting can be resumed from its last block when more text arrives |
| SseParser.ParseEvent | frontend/src/utils/sse.ts:14-47 | the pass over the lines gives the event of the block: the last event, identifier and valid retry fields, and all data lines joined |
| SseParser.BlockMeans | frontend/src/utils/sse.ts:14-47 | a block of event, data, id, retry and ignorable lines, in any order and number, is parsed to what the lines mean: all data, the last name and identifier, the last retry that is a number |
| SseParser.RoundTrip | frontend/src/utils/sse.ts:14-47 | writing any event name, data lines, identifier and retry and parsing the block gives the event back; without a name it is a message |
| SseParser.UnknownLinesChangeNothing | frontend/src/utils/sse.ts:22-42 | comments and lines with other field names change nothing |
| SseParser.LinesOfCrLfJoin | frontend/src/utils/sse.ts:15 | lines may end with CR LF as well |
| SseParser.Parser.Consume | frontend/src/utils/sse.ts:52-59 | parses all complete blocks and keeps the last one, or nothing at the end |
| SseParser.Parser.Push | frontend/src/utils/sse.ts:62-65 | emits the events completed by the chunk and buffers the rest |
| SseParser.Parser.Flush | frontend/src/utils/sse.ts:66-68 | emits what is buffered and empties the buffer |
| SseParser.Parser.Reset | frontend/src/utils/sse.ts:69-71 | drops what is buffered |
| SseParser.StreamIsOnePass | frontend/src/utils/sse.ts:49-73 | for every chunking the events are those of one pass over the separately converted chunks |
| SseParser.StreamMeans | frontend/src/utils/sse.ts:49-73 | however the text of a stream of such blocks is cut into chunks, the events are exactly what the blocks mean |
| SseParser.PushOfWholeBlocks | frontend/src/utils/sse.ts:52-65 | pushing whole blocks emits all their events at once and leaves the buffer empty |
| SseParser.NormalisedChunksExact | frontend/src/utils/sse.ts:53 | converting chunks separately is exact if and only if no chunk boundary splits a CR LF pair, and adds one LF for each that does |
| SseParser.BlocksReadExact | frontend/src/utils/sse.ts:49-73 | the blocks read chunk by chunk are those of the whole stream if and only if no chunk boundary splits a CR LF pair |
| SseParser.IncrementalEqualsBatch | frontend/src/utils/sse.ts:49-73 | incremental parsing equals parsing the whole stream for every chunking that splits no CR LF pair |
| SseParser.SplitPairCounterexample | frontend/src/utils/sse.ts:53 | a split pair can turn one event into two |
| OperatorIdempotency.Service.Claim | backend/app/services/runtime_operations/operator_governance.py:180-198 | registers an unused key and returns the record of a used one unchanged |
| OperatorIdempotency.Service.Settle | backend/app/services/runtime_operations/operator_governance.py:216-230 | a success stores its result, a failure none; a missing record is an error |
| OperatorIdempotency.Service.ExecuteExecution | backend/app/services/runtime_operations/operator_governance.py:273-358 | every outcome of an action on an execution, including roll-backs and the record left behind |
| OperatorIdempotency.Service.ExecuteTrigger | backend/app/services/runtime_operations/operator_governance.py:360-434 | every outcome of an action on a trigger in one transaction, including roll-backs and the record left behind |
| OperatorIdempotency.IncompleteCallIsRefused | backend/app/services/runtime_operations/operator_governance.py:103-110 | without a confirmation the six destructive actions are refused, and without a key retries and invocations |
| OperatorIdempotency.UnavailableActionIsRefused | backend/app/services/runtime_operations/operator_governance.py:291-292 | an action that is not available is refused unless its key is known |
| OperatorIdempotency.FirstUseActs | backend/app/services/runtime_operations/operator_governance.py:305-358 | the first use of a key, or a call without one, leaves exactly one settled record with the right result and one audit fact, or the error of the service |
| OperatorIdempotency.UsedKeyGives | backend/app/services/runtime_operations/operator_governance.py:180-214 | a used key gives the execution of the same successful action if it still exists, and otherwise a conflict |
| OperatorIdempotency.UnregisteredKeyFails | backend/app/services/runtime_operations/operator_governance.py:216-225 | an action that claims no key fails under one that nobody registered |
| OperatorIdempotency.Service.BeginInvocation | backend/app/runtime/workflow/circuit_breaker.py:154-165 | an invocation whose workflow reserves a probe commits its claimed record as started, and the execution it created |
| OperatorIdempotency.BeginPasses | backend/app/services/runtime_operations/operator_governance.py:366-389 | an invocation gets as far as that if and only if it brings an unused key and its trigger may be invoked |
| OperatorIdempotency.Service.CloseInvocation | backend/app/services/runtime_operations/operator_governance.py:403-434 | its second transaction settles that record, and audits a success with that execution |
| OperatorIdempotency.StartedExactly | backend/app/runtime/workflow/circuit_breaker.py:154-165 | in every reachable state a committed record is started if and only if its invocation committed early and has since neither closed nor been overwritten; all others have succeeded with a result or failed without one |
| OperatorIdempotency.NeverLeftStarted | backend/app/services/runtime_operations/operator_governance.py:216-230 | so without early commits no record is ever left started |
| OperatorIdempotency.InterruptedInvocationIsStranded | backend/app/services/runtime_operations/operator_governance.py:403-431 | an invocation interrupted after its early commit, in any reachable state, leaves its key refused for good; the execution it created stays, but no successful action is ever recorded under the key |
| OperatorIdempotency.RecordAfterStep | backend/app/services/runtime_operations/operator_governance.py:324-347 | a committed record changes if and only if a call that carries its key without claiming it overwrites it, or its own invocation closes, with another value |
| OperatorIdempotency.RecordIsFinal | backend/app/services/runtime_operations/operator_governance.py:180-214 | if keys are given only to actions that claim them, a committed record whose invocation is not under way never changes |
| OperatorIdempotency.OneEffectPerKey | backend/app/services/runtime_operations/operator_governance.py:294-356 | over any run at most one successful action is committed under each key, if and only if none succeeds although its key has an effect: unclaimed, or at the close of an early-committed invocation |
| OperatorIdempotency.StepKeepsUnique | backend/app/services/runtime_operations/operator_governance.py:294-356 | the same for one step |
| OperatorIdempotency.ProperCallsRepeatNothing | backend/app/services/runtime_operations/operator_governance.py:180-214 | calls that give keys only to claiming actions never do so, early commits included |
| OperatorIdempotency.KeyDecidesLaterCalls | backend/app/services/runtime_operations/operator_governance.py:200-214 | the record decides every later call with a key whose invocation is not under way: an invocation returns the same execution whatever the trigger's status, a failed or stranded key never acts again, and the store does not change |
| OperatorIdempotency.OpenKeyRefuses | backend/app/services/runtime_operations/operator_governance.py:200-204 | while a record is started, every call that claims its key is refused |
| OperatorIdempotency.SharedKeyBreaksReplay | backend/app/services/runtime_operations/operator_governance.py:324-347 | the condition is needed: three runs in which a shared key loses a result, has two effects, or replays an effect never made |
| AlertLifecycle.SortSorts | backend/app/services/integration/alert_lifecycle.py:127 | the escalation items are taken in order of their count |
| AlertLifecycle.Escalate | backend/app/services/integration/alert_lifecycle.py:124-130 | the loop applies, earliest first, the items of the sorted list whose count is reached |
| AlertLifecycle.ReachedIsPrefix | backend/app/services/integration/alert_lifecycle.py:127-129 | those are exactly the first items, so more firings never undo an item |
| AlertLifecycle.SeverityOfAll | backend/app/services/integration/alert_lifecycle.py:124-130 | the severity is that of the last reached item that gives one, and otherwise the base |
| AlertLifecycle.LevelOfAll | backend/app/services/integration/alert_lifecycle.py:124-130 | the level is that of the last reached item that gives one, or zero, and one more for each item after it |
| AlertLifecycle.NothingReached | backend/app/services/integration/alert_lifecycle.py:125-126 | before the first item the severity is the base, a warning if it is unknown |
| AlertLifecycle.OperatorsByOrder | backend/app/services/integration/alert_lifecycle.py:45-49 | which operators hold below, at and above the threshold |
| AlertLifecycle.PolicyOrder | backend/app/services/integration/alert_lifecycle.py:132-141 | the first policy with the alert's routing key is selected, otherwise the first general one; none exactly if no policy of either kind is for the severity |
| AlertLifecycle.Service.EvaluateRule | backend/app/services/integration/alert_lifecycle.py:56-93 | creates, fires, recovers or leaves the instance, and records one transition for each change |
| AlertLifecycle.Service.EmitTransition | backend/app/services/integration/alert_lifecycle.py:95-122 | escalates, publishes once for the key, selects the policy, binds the routing key and applies the cooldown |
| AlertLifecycle.EmitDecides | backend/app/services/integration/alert_lifecycle.py:95-122 | a transition is logged with its decision, and a routed one starts a cooldown of the policy's seconds |
| AlertLifecycle.PublishedOnce | backend/app/services/integration/alert_lifecycle.py:99-109 | publishing again under a key changes nothing |
| AlertLifecycle.FireCountIsMatchCount | backend/app/services/integration/alert_lifecycle.py:66-102 | over any evaluations, rules and policies the fire count is the number of matches, and the publisher swallows no transition |
| AlertLifecycle.FiringIffMatched | backend/app/services/integration/alert_lifecycle.py:58-93 | an evaluation that applies leaves the alert firing exactly if its value matches, creates none otherwise, and stores value and time |
| AlertLifecycle.TransitionHistory | backend/app/services/integration/alert_lifecycle.py:80-102 | no idempotency key is used twice; a recovery comes only right after a firing, and each firing counts one more |
| AlertLifecycle.CooldownBetweenRoutes | backend/app/services/integration/alert_lifecycle.py:117-122 | a firing with a policy is suppressed exactly if the cooldown after the last routed transition is not over; a recovery never is |
| AlertLifecycle.RoutingKeySticks | backend/app/services/integration/alert_lifecycle.py:115-116 | a routing key once bound is never changed |
| AlertLifecycle.RoutingKeyBinds | backend/app/services/integration/alert_lifecycle.py:115-116 | an alert without a routing key takes that of the policy selected for its transition |
| Organization.Governance.AddMember | backend/app/services/organization/service.py:229-273 | every refusal of an addition, or one active member at the end |
| Organization.Governance.UpdateMember | backend/app/services/organization/service.py:275-326 | every refusal of an update, or exactly the given role and status on that member |
| Organization.Governance.RemoveMember | backend/app/services/organization/service.py:328-359 | every refusal of a removal, or that member removed |
| Organization.Governance.TransferOwner | backend/app/services/organization/service.py:361-401 | the role moves to the target in place, also when the target is the owner itself |
| Organization.Governance.SetSuspended | backend/app/services/organization/service.py:186-227 | only an active owner or administrator suspends or reactivates the organization, and no membership changes |
| Organization.AddingMembers | backend/app/services/organization/service.py:229-273 | every way to add a member and each refusal: only an active owner or administrator, never as owner, only an active user without a membership |
| Organization.ChangingMembers | backend/app/services/organization/service.py:275-359 | managers change and remove members, but only the owner touches the owner, and nobody is made owner this way |
| Organization.HandingOver | backend/app/services/organization/service.py:361-401 | the role moves exactly from its active holder to an active member of a running organization |
| Organization.Suspending | backend/app/services/organization/service.py:186-227 | only an active owner or administrator suspends the organization or lifts that |
| Organization.OwnerRemainsExactly | backend/app/services/organization/service.py:425-435 | the owner check passes with exactly one other active owner, is a conflict with none and an error with two |
| Organization.OwnerAfterStep | backend/app/services/organization/service.py:294-300 | a step keeps exactly one active owner, and moves it only by a transfer of that owner to an active member, if and only if the owner does not set its own status to invited |
| Organization.OneOwner | backend/app/schemas/organization.py:20-22 | over any serial calls that the schema lets through there is exactly one owner, active; without a transfer it is the founder |
| Organization.OwnerIsFixed | backend/app/services/organization/service.py:425-435 | demoting, suspending or removing the owner is refused to everybody, the owner included |
| Organization.OwnerlessForever | backend/app/services/organization/service.py:361-388 | without an active owner no calls ever bring one back |
| Organization.InvitedOwnerIsLost | backend/app/services/organization/service.py:300-301 | the service itself lets an owner reach that state |
| Organization.UsersStayDistinct | backend/app/services/organization/service.py:249-251 | no user ever has two memberships |
| OrganizationRace.HandsOverFromOwner | backend/app/services/organization/service.py:370-388 | of concurrent transfers only one by the owner of the moment hands the role over, although the actor was read before the lock |
| OrganizationRace.WhoReads | backend/app/services/organization/service.py:361-372 | which calls get past their first step |
| OrganizationRace.WritesWhatChanged | backend/app/services/organization/service.py:300-308 | a later write changes exactly the fields that differed from what was read, whatever the membership has become |
| OrganizationRace.HandoverSees | backend/app/services/organization/service.py:372-388 | a transfer goes ahead exactly if its target is active and nobody but its actor owns the organization by then |
| OrganizationRace.OwnerAfterMove | backend/app/services/organization/service.py:284-308 | a read, write or hand-over keeps exactly one active owner, if and only if it does not write another role or an inactive status to the owner of the moment |
| OrganizationRace.OneOwnerInterleaved | backend/app/services/organization/service.py:328-388 | however calls interleave there is exactly one active owner throughout, if and only if no such write happens |
| OrganizationRace.RemovalLosesOwner | backend/app/services/organization/service.py:328-349 | it happens: a removal that read a member before the role was handed to it leaves no active owner |

## Left out

- RetryEngine.DeadlineSafety: a node that is cut off stops at once.
- SseParser.IncrementalEqualsBatch: the condition is exact for the blocks (`SseParser.BlocksReadExact`). For
  the events it goes one way: a pair that is split at the end of a block can be harmless.
- RetryBudget.SharedBudget: counts retries and attempts of concurrent branches, not their times.
- OperatorIdempotency.KeyDecidesLaterCalls: executions that results refer to are never deleted.
- Liveness: no claim that every delivery ends or that every circuit leaves the half-open state. The first is
  false (`CrashOnLastAttempt`), and probes that end with an uncounted error never report.
- The change that a circuit call makes is durable at its step; a caller that rolls it back is not modelled.
- The unlocked reads of one cancel, or of one update or removal of a member, are a single read.
- Delegation.Service.Create: asks for tables in which each worker execution belongs to one delegation. No
  constraint of the database says so, but `DelegationProtocol.DepthIsTrue` proves it of every reachable table.
- Completion, failure and timeout of a delegation are one operation with three outcomes; their audit and
  trace rows, and the metadata copied into results, are not modelled. The lookups of agent versions and the
  checks of payload and model budget are two Boolean inputs of a request.
- The worker loop of webhook deliveries (`run_forever`) and the notification outcome that follows a
  completion; sending is an arbitrary success or failure, and tasks may crash at any time.
- The SHA-256 hashes and the token counts of chunks, and the vector index, which is a Boolean outcome. An
  index provider that fails with an HTTP error is not modelled.
- The number parser of the `retry` field is a parameter of the event parser.
- The planner and executor of workflow graphs; branches of a frontier interleave arbitrarily instead. The
  dynamic type checks of configuration values, and exception classes whose names imitate error codes.
- Missing resources and permissions of operator actions, and the audit rows beside the idempotency record.
  A keyed run whose workflow commits early is one step at its end: none of the modelled tables changes before.
- Notification groups, deliveries, provider fallback, metrics and audit rows of alerts; an alert operator is
  one of the six valid ones, and fingerprints, which are hashes, are not computed: one instance is modelled.
- Names and tenants of organizations, and their audit rows; the service's own user lookups are two sets
  given with each call.
- Integer widths: the languages of the repository do not overflow here, so integers are unbounded.
- Everything else in the repository: HTTP routers, persistence models, migrations, model gateways, scheduling,
  the retrieval and evaluation pipelines, and the user interface.
