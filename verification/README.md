# Verification of pyfilament's coordination protocols

pyfilament runs tasks across processes that share a Redis server and a SQL database. This project models the
parts where that sharing is subtle and proves what they promise over every run, every interleaving or every
input. `dafny verify dfyconfig.toml` checks all of it (Dafny 4.11).

| file | what it models |
|---|---|
| `Clocks.dfy` | the global clock and the rounding of its readings |
| `Semaphores.dfy` | the keys of one semaphore, the five Lua scripts as functions, and their loops proved against them |
| `SemaphoreMachine.dfy` | all clients of a semaphore: samples taken early, scripts executed late, messages lost |
| `SemaphoreClients.dfy` | one client's acquire loop after every other client has crashed |
| `TokenBuckets.dfy` | the token bucket script, runs of it, and the retry loop with its whole-second clock |
| `TaskQueues.dfy` | the stream of one task type, its pending list, and the batched cleanup |
| `QueueMachine.dfy` | producers, workers and cleaners interleaving on one stream |
| `ResultChannels.dfy` | SET, PUBLISH and GET of results as separate steps, and the caller's listener |
| `TaskRunStates.dfy` | rows, transitions, the log, and what a list of emitted states leaves in it |
| `Cascades.dfy` | cancelling and deleting subtrees, whole histories, and the sweep over silent runs |
| `RunWrappers.dfy` | one call: retry loop, semaphore, token bucket, timeout, cache, transitions, frame |
| `Ancestry.dfy` | the parent relation and the walk up to the root |
| `CallStacks.dfy` | context variables copied on spawn, and the parents recorded from them |
| `JoinChains.dfy` | the iterated self-join that selects runs by the types of their ancestry |
| `Paths.dfy` | printing a path in one tree of runs and following it in another |

Conventions. Time is one global clock that never runs backwards; a reading is taken at or before the step that
uses it. Every Redis command or script is one atomic step. A state machine is a type of states, a type of steps
and `IsRun`; fields called history in its comment record what happened and steer nothing. Classes hold the
state that the source updates in place, and each method is tied to a function whose properties are the lemmas.
`xtrim` is approximate by default in the client library, so a trim removes some prefix of the entries below
its bound.

What the proofs say about edges of the code:

- A lease that lapsed but was not cleaned up is live again after `extend`; the bound on live leases still holds.
- The familiar rate bound of the token bucket, capacity plus rate times the span of the clock readings, holds for
  all buckets and requests if and only if no reading falls behind the one before (or the rate is zero):
  `RateBoundIsExact`. A reading that falls behind moves the refill time back, and the way up is refilled twice;
  `OutOfOrderReadingsOvergrant` is such a run. The bound that always holds uses the positive increments.
- A caller does not always see the worker's exception: if a chunk's notification is read after the final,
  failing result was set, the caller's own assertion error replaces it. `CallerGetsFinalResult` gives the exact
  condition.
- A run configured with zero tries returns nothing and emits no transition (`NoTries`).
- SUCCESS is not final. A call emits it and goes on if and only if some attempt that it makes fails after its body
  returned: because its result cannot be stored in the cache, or its lease cannot be released
  (`SuccessIsTakenBack`). The body may then run again after SUCCESS (`RunAfterSuccess`), and the last transition is
  decided by the later attempts.
- A lease whose release fails may still be held when the next attempt starts, or at the end. The traces tell a
  failing release from one that gives the lease back, and exactly the former are left over (`RunsAndBrackets`).
- Deleting a run comes to an end if and only if the run is not its own ancestor: its calls then nest no deeper than
  there are rows, and without bound otherwise (`NestingIsBounded`).

## Model

| member | source | states |
|---|---|---|
| Clocks.NowBrackets | src/filament/logic/utils.py:23-27 | at any number of decimal places a floored reading is at most the clock and less than one unit behind it, a ceiled one at least the clock and less than one unit ahead |
| Clocks.TenthsBracket | src/filament/logic/utils.py:23-27 | the semaphore's two readings bracket the clock within a tenth of a second and are whole tenths |
| Clocks.FloorReachesGrid | src/filament/logic/utils.py:23-27 | once the clock has reached a whole tenth, the floored reading has reached it |
| Semaphores.SkipLapsed | src/filament/redis/semaphore.py:121-132 | the line loses exactly its longest prefix of clients without a heartbeat that reaches the reading |
| Semaphores.CleanupFront | src/filament/redis/semaphore.py:118-132 | after a cleanup the front waiter's heartbeat outlives the reading, and every evicted waiter had none that did |
| Semaphores.SemaphoreKeys.LuaEnsureInQueue | src/filament/redis/semaphore.py:135-147 | the scan loop appends the client exactly when it is not in line yet |
| Semaphores.SemaphoreKeys.LuaCleanupStaleClients | src/filament/redis/semaphore.py:108-133 | the popping loop computes the cleanup function on all three keys |
| Semaphores.SemaphoreKeys.LuaAcquireAndDequeue | src/filament/redis/semaphore.py:149-172 | grants if and only if the client is at the front and fewer leases are taken than the limit; then all three keys change accordingly, and otherwise nothing does |
| Semaphores.FreeLeasesAreGranted | src/filament/redis/semaphore.py:159-169 | no lease is left unused: as many clients as leases are free get one when they ask in turn |
| Semaphores.SemaphoreKeys.LuaRemoveClient | src/filament/redis/semaphore.py:227-238 | removes the holder and reports whether there was one |
| Semaphores.SemaphoreKeys.LuaExtendClient | src/filament/redis/semaphore.py:255-267 | overwrites the expiry of a present holder, lapsed or not, and reports whether there was one |
| Semaphores.BeatKeepsPlace | src/filament/redis/semaphore.py:54-62 | until its expiry a heartbeat keeps its client in line through any cleanup, and costs no other client its place or its score |
| SemaphoreMachine.DropKeepsBacked | src/filament/redis/semaphore.py:118-119 | removing scores up to a floored old reading removes no score whose promise, rounded up when made, is still live |
| SemaphoreMachine.InvExecute | src/filament/redis/semaphore.py:108-172 | every script, executed with any earlier sample, keeps the invariant of holders, waiters and heartbeats |
| SemaphoreMachine.InvHolds | src/filament/redis/semaphore.py:77-104 | the invariant holds in every state of every run, whatever is delayed or lost; in particular waiters are distinct |
| SemaphoreMachine.TakeIsGrantedWhenFree | src/filament/redis/semaphore.py:159-171 | an executed request is granted exactly for the front client while a lease is free, with the expiry rounded up from its sample; a refusal changes nothing |
| SemaphoreMachine.LeaseSafety | src/filament/redis/semaphore.py:159-171 | in every reachable state every client within its ttl of the sample of its last grant or extension is a holder, so at most the limit are live |
| SemaphoreMachine.LapsedLeasesGo | src/filament/redis/semaphore.py:118 | a cleanup removes every lease that lapsed two tenths of a second before the cleanup read the clock |
| SemaphoreMachine.EvictionIsJustified | src/filament/redis/semaphore.py:119-131 | no cleanup in any run evicts a waiter whose recorded heartbeat was sampled less than its ttl ago |
| SemaphoreMachine.AheadStep | src/filament/redis/semaphore.py:121-132 | one step keeps two waiters in order unless the first leaves by a grant or an eviction, and never grants to the second |
| SemaphoreMachine.FirstInFirstOut | src/filament/redis/semaphore.py:159-169 | if one client is ahead of another and the other is granted later, the first left in between, granted or justly evicted |
| SemaphoreMachine.GridHolds | src/filament/redis/semaphore.py:60 | when all ttls are whole tenths of a second, all scores of a reachable state are |
| SemaphoreClients.FullDelayReachesExpiry | src/filament/redis/semaphore.py:188-196 | after the full delay the next floored reading has reached the expiry waited for |
| SemaphoreClients.CleanupProgress | src/filament/redis/semaphore.py:118-132 | a cleanup by a client with a fresh heartbeat keeps it in line and removes an obstacle whenever one is due |
| SemaphoreClients.RoundProgress | src/filament/redis/semaphore.py:77-89 | the same for joining the line, heartbeat and cleanup together |
| SemaphoreClients.RedisSemaphore.WaitForReleaseOrExpiry | src/filament/redis/semaphore.py:174-204 | without a release message the wait ends with an entry due, unless nothing stands in the way, and asks for exactly the time to the awaited score or one heartbeat interval |
| SemaphoreClients.RedisSemaphore.AcquireAlone | src/filament/redis/semaphore.py:77-103 | with all other clients stopped the loop ends with the lease after at most holders plus waiters ahead plus one iterations, within the limit, and no live lease of another client is lost |
| SemaphoreClients.AnyRunMayEndInCrash | src/filament/redis/semaphore.py:77-103 | in every reachable state of all clients, with whole-tenth ttls, the store meets what the progress bound asks for, with at most the limit and the line as obstacles |
| SemaphoreClients.RedisSemaphore.Release | src/filament/redis/semaphore.py:216-225 | releases and notifies exactly when the client was a holder, and fails otherwise |
| SemaphoreClients.RedisSemaphore.Extend | src/filament/redis/semaphore.py:240-253 | sets a fresh rounded-up expiry exactly when the entry is still there, with the default ttl for none or zero |
| TokenBuckets.Conservation | src/filament/redis/token_bucket.py:51-63 | over any run, tokens granted, tokens left and overflow add up to the starting tokens plus rate times the positive clock increments |
| TokenBuckets.StaysWithinCapacity | src/filament/redis/token_bucket.py:54-60 | stored tokens stay between zero and the capacity over any run |
| TokenBuckets.WindowBound | src/filament/redis/token_bucket.py:51-63 | no window of evaluations grants more than the capacity plus rate times the positive increments inside it |
| TokenBuckets.RateBoundIsExact | src/filament/redis/token_bucket.py:51-63 | whatever bucket and requests, grants are at most the capacity plus rate times the span of the readings, if and only if no reading falls behind or the rate is zero |
| TokenBuckets.RateBound | src/filament/redis/token_bucket.py:51-63 | with readings in order, grants are at most the capacity plus rate times last minus first reading |
| TokenBuckets.OutOfOrderReadingsOvergrant | src/filament/redis/token_bucket.py:53-61 | a concrete run of equal requests with one reading out of order that exceeds that bound |
| TokenBuckets.WaitCoversDeficit | src/filament/redis/token_bucket.py:29-40 | the rational wait, seen through a clock floored before and after, refills more than the deficit less one second's rate, and all of a deficit of at most one second's rate |
| TokenBuckets.WaitIsExact | src/filament/redis/token_bucket.py:34 | the wait is at least a second, refills the deficit, and when longer than a second takes exactly that time |
| TokenBuckets.ThreeAttemptsCanBeNeeded | src/filament/redis/token_bucket.py:20-40 | a concrete schedule with minimal sleeps in which the third attempt is the first to succeed |
| TokenBuckets.RedisTokenBucket.LuaAcquire | src/filament/redis/token_bucket.py:42-64 | the script's result and both keys after it are those of the evaluation function |
| TokenBuckets.RedisTokenBucket.Acquire | src/filament/redis/token_bucket.py:20-40 | refuses requests beyond the capacity; grants any other within three attempts, of which only the last one grants, and asks to sleep exactly for the first deficit and at most one second more |
| TaskQueues.StaleUntilBreak | src/filament/queue/task_queue.py:77-85 | the loop with its break takes exactly the longest stale prefix of the batch |
| TaskQueues.BreakMissesNothing | src/filament/queue/task_queue.py:77-85 | when delivery times grow with ids the longest stale prefix is everything stale |
| TaskQueues.BatchAges | src/filament/queue/task_queue.py:75-85 | a batch deletes at most a hundred messages, all overdue, and stops short of that only at one that is not |
| TaskQueues.TaskQueue.DeleteStalePendingMessages | src/filament/queue/task_queue.py:69-88 | one batch removes its stale prefix from the pending list and the stream, counts it, and changes nothing else |
| TaskQueues.TaskQueue.DeleteAllStale | src/filament/queue/task_queue.py:54-58 | repeating the batch until it deletes nothing terminates and equals one unbatched filter at the last read |
| TaskQueues.TaskQueue.CleanupOldMessages | src/filament/queue/task_queue.py:54-66 | the same, and the trim drops only entries older than every message still pending |
| QueueMachine.InvHolds | src/filament/queue/task_queue.py:46-117 | the invariant of stream, cursor, pending list and unsent cleaner commands holds in every state of every run |
| QueueMachine.MessageConservation | src/filament/queue/task_queue.py:46-51 | in every reachable state each enqueued id is in exactly one of undelivered, pending at one worker, acked, stale-deleted |
| QueueMachine.AtMostOnceDelivery | src/filament/queue/task_queue.py:91-102 | deliveries of a run are strictly increasing in id, so no id is ever handed out twice |
| QueueMachine.DeliveryIsStamped | src/filament/queue/task_queue.py:91-102 | in every reachable state a pending message carries the worker that read it and the moment of that read |
| QueueMachine.BatchIsOverdue | src/filament/queue/task_queue.py:69-85 | a cleaner sends an ack and a delete for the oldest pending messages only, at most a hundred and up to the first that is not overdue, each of them read from the stream more than the stale age before |
| QueueMachine.RemovalIsSafe | src/filament/queue/task_queue.py:59-66 | whatever happened since a bound or batch was read, no step removes an undelivered or pending message from the stream |
| QueueMachine.CleanupMayStartAnywhere | src/filament/queue/task_queue.py:54-66 | in every reachable state the pending list is in delivery order and not ahead of the clock, as the batched cleanup asks for |
| QueueMachine.EarlyBreakIsComplete | src/filament/queue/task_queue.py:76-85 | in every reachable state the break misses no stale message, and a batch that deletes nothing means that none is stale |
| ResultChannels.InvHolds | src/filament/queue/task_queue.py:106-117 | publishes follow their sets one by one in every run, and the reads so far are in order |
| ResultChannels.ResultMonotonicity | src/filament/queue/task_queue.py:106-138 | the k-th notification reads version k or later, versions never go back, and the final notification reads the final version |
| ResultChannels.OutcomeOfStream | src/filament/queue/types/remote_task_run.py:32-53 | the listener ends with the final payload exactly when no earlier payload it read carries an exception |
| ResultChannels.CallerGetsFinalResult | src/filament/queue/types/remote_task_run.py:37-45 | the caller ends with the worker's final result if and only if that is no exception or no chunk notification was read after it was set |
| ResultChannels.LateReadHidesException | src/filament/queue/types/remote_task_run.py:41-47 | a concrete run in which the caller gets an assertion error in place of the worker's exception |
| ResultChannels.WorkerFeedsChannel | src/filament/queue/types/remote_task_type.py:68-87 | generator or coroutine, returning or raising: every chunk alone without exception, and at last the value, the exception, or the last chunk with the failure |
| ResultChannels.ChunksOfStream | src/filament/queue/types/remote_task_run.py:37-43 | the chunks streamed are the results of all notices before the final one or the first exception, in order |
| ResultChannels.PromptCallerGetsAll | src/filament/queue/types/remote_task_run.py:32-53 | end to end: a caller that reads every notification before the next set ends with the own value or exception of the body and with all its chunks |
| ResultChannels.Worker.ServiceTaskRun | src/filament/queue/types/remote_task_type.py:65-89 | a coroutine sends its value, or its exception, and the final notification; a generator each chunk with a partial notification, then its last chunk with its failure and the final one |
| ResultChannels.Caller.ListenForTaskResult | src/filament/queue/types/remote_task_run.py:32-53 | the loop's outcome and the chunks it passed on are those of the functions over the notices |
| TaskRunStates.TransitionKeepsReplay | src/filament/state/task_run_state.py:72-84 | any transition keeps every run's log a chain without self-loops from CREATED to its state, with one counted run for each entry into RUNNING |
| TaskRunStates.LogOfEmitted | src/filament/state/task_run_state.py:72-84 | emitting a list of states appends it to the log with adjacent repeats removed, and state and run count follow |
| TaskRunStates.EveryRunCounts | src/filament/state/task_run_state.py:77-78 | when no two neighbours are both RUNNING, every emitted RUNNING is counted |
| Cascades.RegionLeast | src/filament/state/task_run_state.py:24-25 | a set that holds the root and is closed under allowed children holds everything reachable |
| Cascades.CancelOneChild | src/filament/state/task_run_state.py:24-25 | cancelling one more child in a half-cancelled graph changes only runs of the original region and leaves fewer open children |
| Cascades.TaskRunStore.Transition | src/filament/state/task_run_state.py:72-84 | row and log after a transition are those of the function, and log and rows stay in step |
| Cascades.TaskRunStore.CancelTaskRun | src/filament/state/task_run_state.py:20-25 | terminates on any child relation, changes exactly the runs reachable through runs that were not terminal, and logs one transition for each |
| Cascades.CancellationKeepsReplay | src/filament/state/task_run_state.py:20-25 | a cancellation keeps the log in step with every row |
| Cascades.HistoryReplays | src/filament/state/task_run_state.py:72-84 | over any history of creations, transitions and cancellations the log replays to every row |
| Cascades.SubtreesAreDisjoint | src/filament/state/task_run_state.py:30-31 | below a run that is not its own ancestor the subtree of a child holds none of its siblings |
| Cascades.DeleteOneChild | src/filament/state/task_run_state.py:30-31 | deleting one more child's subtree leaves its parent and the other children in place and no run below a deleted one |
| Cascades.NestingIsBounded | src/filament/state/task_run_state.py:29-31 | the nested calls of a deletion are no more than there are rows if and only if the run is not its own ancestor |
| Cascades.TaskRunStore.DeleteTaskRun | src/filament/state/task_run_state.py:29-35 | for a run that is not its own ancestor removes exactly the subtree and its transitions, with no dangling reference after any single delete |
| Cascades.TaskRunStore.SelectSilent | src/filament/cli/cli_cleanup.py:40-47 | at most the limit of silent non-terminal runs, newest heartbeat first, and all of them when the batch is short |
| Cascades.TaskRunStore.CancelBatch | src/filament/cli/cli_cleanup.py:50-56 | every run of the batch is terminal afterwards, and only regions of silent runs changed |
| Cascades.TaskRunStore.Stonith | src/filament/cli/cli_cleanup.py:35-61 | the batch loop terminates with no open run silent for longer than the limit before its last look at the clock, having cancelled only runs at or below an open run that was silent for longer than the limit |
| RunWrappers.AttemptFacts | src/filament/types/task_run.py:264-295 | an attempt emits one of a few short state lists whatever fails in it, runs at most one body, and tries to give back what it took |
| RunWrappers.AttemptOutcome | src/filament/types/task_run.py:230-295 | the outcome of an attempt from what failed in it: the cached or the returned value, or the first failure, a failing release having the last word |
| RunWrappers.AttemptStates | src/filament/types/task_run.py:172-185 | exactly which states an attempt emits and when its body runs |
| RunWrappers.AttemptLease | src/filament/types/task_run.py:151-170 | with a limit an attempt that gets the lease closes it as its last event, and no other attempt touches one |
| RunWrappers.LastTransition | src/filament/types/task_run.py:172-228 | with at least one try the last transition is SUCCESS after a run or CACHED without one on a result, CANCELLED on cancellation, FAILURE on any other exception |
| RunWrappers.RetriedExactlyWhen | src/filament/types/task_run.py:209-226 | after an attempt the next one is made if and only if it raised an exception to be retried, no cancellation, with a try left, and its backoff was not cancelled |
| RunWrappers.GivesUpAtOnce | src/filament/types/task_run.py:213-217 | a cancellation, an exception not to be retried, or one that is none of those to retry ends the call with itself, without another attempt |
| RunWrappers.LastAttemptDecides | src/filament/types/task_run.py:209-226 | the outcome of a call is that of its last attempt, or a cancellation that hit the backoff after it |
| RunWrappers.OneBackoffPerRetry | src/filament/types/task_run.py:219-224 | one RETRYING between any two attempts, with one sleep each if and only if a delay is configured |
| RunWrappers.NoTries | src/filament/types/task_run.py:209 | the call does nothing and returns nothing if and only if no try is configured |
| RunWrappers.RunsAndBrackets | src/filament/types/task_run.py:130-136 | runs are separated by RETRYING, bodies equal RUNNING states and are at most the tries, bodies run in one frame and lease, and what is held during the backoff sleep or at the end are only leases whose release failed |
| RunWrappers.SuccessIsTakenBack | src/filament/types/task_run.py:151-246 | SUCCESS is emitted and not the last transition if and only if some attempt that is made fails after its body returned, in storing the result or in releasing the lease |
| RunWrappers.RunAfterSuccess | src/filament/types/task_run.py:165-170 | a concrete call whose first release fails, and whose body runs again after SUCCESS |
| RunWrappers.LogOfCall | src/filament/types/task_run.py:172-228 | fed by one call the log is the emitted list without adjacent repeats and the run count grows by the number of bodies |
| RunWrappers.FilamentTaskRun.RunAttempt | src/filament/types/task_run.py:270-295 | the nested wrappers produce the trace and outcome of the attempt function |
| RunWrappers.FilamentTaskRun.RunWithRetries | src/filament/types/task_run.py:204-226 | the retry loop produces the trace and outcome of the recursive function and leaves the try index at the last attempt made |
| RunWrappers.FilamentTaskRun.DoCall | src/filament/types/task_run.py:264-301 | the result and exception fields and the trace after a call are those of the function |
| Ancestry.StackUnique | src/filament/api/types/task.py:60-67 | a run has only one root-first list of ancestors |
| Ancestry.TaskRunsStack | src/filament/api/types/task.py:60-67 | on a forest the walk terminates and returns that list |
| CallStacks.ContextVar.PushTaskRun | src/filament/logic/call_stack.py:23-27 | a push is undone by a pop and seen by a peek |
| CallStacks.FramesNest | src/filament/logic/call_stack.py:23-43 | after any number of pushes fewer pops bring back the earlier runs in turn, and as many pops the original stack |
| CallStacks.InvRegister | src/filament/state/register.py:49-57 | recording a row with the top of a sound stack as parent keeps every stack sound and every parent older than its child |
| CallStacks.BodyStepIsLocal | src/filament/types/task_run.py:130-136 | entering or leaving a body changes no other context, no other call and no row |
| CallStacks.LeaveUndoesEnter | src/filament/types/task_run.py:130-136 | leaving a body restores what entering it changed |
| CallStacks.ParentsFormAForest | src/filament/state/register.py:51-57 | in every reachable state the recorded parents exist and form a forest |
| CallStacks.BodySeesItsAncestry | src/filament/logic/call_stack.py:23-43 | in a running body the stack is the one and only ancestry list of its run when all runs on it recorded their own rows, whatever siblings do |
| CallStacks.ParentIsTheStarter | src/filament/types/task_run.py:111-115 | in every reachable state a recorded parent is the run on top of the context in which the child was requested or started for the very first time; it had a row already and its body had been entered |
| JoinChains.FirstTable | src/filament/api/resolvers/task.py:73-76 | the first select yields one row for each run of the last type that passes the state filter |
| JoinChains.NextTable | src/filament/api/resolvers/task.py:78-82 | one more join keeps exactly the runs whose next ancestor exists and has the next type, still once each |
| JoinChains.MatchIsStack | src/filament/api/resolvers/task.py:83-84 | a chain of joins that ends at a root is an ancestry with the given types |
| JoinChains.StackIsMatch | src/filament/api/resolvers/task.py:78-84 | an ancestry with the given types passes every join and ends at a root |
| JoinChains.SelectByJoins | src/filament/api/resolvers/task.py:66-84 | the iterated self-join selects, without duplicates, exactly the runs whose whole ancestry has the given types and whose state passes |
| JoinChains.GetTaskTypeStackRuns | src/filament/api/resolvers/task.py:66-89 | an empty type list is an error; otherwise those runs newest first, and the newest hundred when there are more |
| Paths.SiblingIndexFinds | ui/src/TaskRunsComparePage.jsx:54-55 | among the children of its type a child is found again at its sibling index |
| Paths.SiblingIndexOnto | ui/src/TaskRunsComparePage.jsx:73-78 | the candidates of a type are exactly its children, each at its own sibling index |
| Paths.PathLeadsToId | ui/src/TaskRunsComparePage.jsx:47-83 | the printed path leads, by sibling indices and by child indices alike, to a node of the tree with the wanted id |
| Paths.PathLeadsToFirst | ui/src/TaskRunsComparePage.jsx:47-65 | with repeated ids the path leads to the first node with the id, parents before children and earlier siblings before later ones |
| Paths.PathExistsIff | ui/src/TaskRunsComparePage.jsx:47-66 | there is a path if and only if some node of the tree has the id |
| Paths.RoundTrip | ui/src/TaskRunsComparePage.jsx:47-83 | in a tree with unique ids following the path to a node reaches that node, and no path means that it is absent |
| Paths.LongestFollowablePrefix | ui/src/TaskRunsComparePage.jsx:68-83 | on any tree the follower stops at the node of the longest followable prefix |
| Paths.ApplyPathLoop | ui/src/TaskRunsComparePage.jsx:68-83 | the loop with its breaks computes the recursive follower, and a missing root stays missing |

## Left out

- Redis, SQLAlchemy, anyio and pydantic: each command used has a small abstract meaning (map, sequence, set of rows); keys with a time to live of days do not expire, and zset ties are not ordered.
- The consumer group is taken as created (src/filament/queue/task_queue.py:29-43); before that Redis refuses to read the pending list, so enqueuing fails.
- SemaphoreClients.RedisSemaphore.AcquireAlone: promises nothing about the client's heartbeat entry after the grant, because a heartbeat sent before the grant may land after it (src/filament/redis/semaphore.py:98-102).
- Release messages that arrive early only start another loop iteration of a waiting client; the progress bound is about the case in which none arrives.
- The acquire timeout of the semaphore (src/filament/redis/semaphore.py:48) and lost connections other than a lost command.
- Floating-point rounding of scores and of token counts; scores are reals, tokens are integers, Lua formats them exactly.
- src/filament/redis/token_bucket.py:33-34: a rate of zero divides by zero in the wait, so the retry bound asks for a rate of at least one.
- Negative token requests, which would mint tokens; the window bound is about non-negative ones.
- The unit of the stale threshold: it is compared as an opaque number with the idle time.
- A remote caller subscribes after enqueuing (src/filament/queue/types/remote_task_run.py:18-22) and can miss results; the channel is modelled with the subscription in place before the first publish.
- Where exactly a cancellation is delivered: it is one outcome of any step of an attempt, or of the backoff sleep.
- Retry and no-retry exceptions are given predicates; how the configuration builds them (src/filament/types/task_config.py:43-54) is not modelled. The random backoff and cache jitter are not either.
- The semaphores around `initialize_task_run_state` make its check and insert one step; a holder slower than their ttl of 60 seconds is not modelled.
- Two starts of one run object at once, generator streams to local callers, heartbeats, logging, result and parameter JSON, cache time to live.
- The `delete_old_task_runs` batches, in which a parent and its child can meet in one batch.
- Timestamps of transitions (`state_since`), and all resolvers other than the type-stack query.
- React rendering; the two path functions see nodes as values, and a child's identity is its position among its siblings.
