# Notification service: verified models of its state machines

Dafny models of the stateful parts of the notification service, one module per source file or
component. Every component is written twice: as pure step functions over an explicit state, and as a
class or method that changes fields step by step in the form of the original. The methods are proved
to be the step functions; the main results are lemmas about arbitrary runs of the steps.

An `await` ends an atomic step. Redis, the broker and the clock are explicit state or parameters, so
that overlapping requests, late completions and crashes are just other lists of events. `Run`, `After`
and the like apply a list of events from the left and are recursive on the prefix.

| module | what it models |
|---|---|
| `CircuitBreaker` | the named breakers around outgoing calls; an `execute` is an admission and a later completion |
| `NovuQueue`, `NovuRecovery` | the in-memory subscriber queue: batches, retry budget, own breaker, metrics; its Redis backup, crash and restart |
| `PriorityQueue` | main, retry and dead-letter queue as a ledger of message copies, with acknowledgements, redelivery and crashes |
| `FixedWindow` | the rate limiter that reads, increments and re-expires a counter per window, with overlapping checks |
| `RateLimitGuard` | the guard whose counter lives one window longer with every admission |
| `CategoryForest`, `Categories`, `CategoryTargeting` | the category hierarchy, the operations on it, and who is reached through it |
| `BatchProcessing` | deduplicate, group, chunk, publish, count |
| `Scheduling`, `WeeklySchedule` | the execution state machine with cancellation; next-occurrence arithmetic |
| `QueueMonitoring` | the second, different breaker |
| `RetryLoops` | the two backoff loops and how long they sleep |

## Results that need a condition, or show a limit of the code

- Polling a circuit breaker changes no verdict as long as nobody calls `forceHalfOpen`
  (`CircuitBreaker.PollingIsInvisible`). With such calls allowed, it changes none if and only if the
  failure threshold is at most two or the reset timeout is not positive (`CircuitBreaker.PollsShowExactly`);
  the shipped threshold is five.
- A failed Novu task that is retried stays where it is in the queue. The comment at line 451 of the
  source says that it moves to the end; the code does not move it
  (`NovuQueue.FailedTaskKeepsItsPlace`).
- The fixed window keeps its limit if and only if no two checks overlap or the limit is zero
  (`FixedWindow.LimitKeptExactly`). With k overlapping checks the bound is k - 1 above the limit, and it is
  reached for every configuration (`FixedWindow.WindowBoundIsTight`); twice that is reached in a span of one
  window length (`FixedWindow.SpanBoundIsTight`).
- The guard keeps a true sliding window, but shuts out clients that stay below the limit, unless the limit
  is zero, or one with a window of whole seconds (`RateLimitGuard.FairExactly`).
- `updateCategory` keeps the hierarchy acyclic if and only if the new parent is neither the category
  nor below it; the code rejects only the first case (`Categories.UpdateExactly`, `Categories.TwoStepCycle`).
- Category names stay unique, except the empty name, which an update can give to any number of
  categories (`Categories.NamesStayUnique`, `Categories.EmptyNamesCollide`); an update makes two names the
  same if and only if it gives the empty one while another category has it (`Categories.RenameExactly`).
- A late success clears the failure count of an open Novu breaker but does not close it; only the timer
  does (`NovuQueue.BreakerFollowsHistory`).
- A target search below a category sees every descendant if and only if neither that category nor one
  below it has more than ten matching children, because only the first page is read
  (`CategoryTargeting.PagingExactly`). The search ends if and only if it comes to no category that is
  reached from itself (`CategoryTargeting.EndsExactly`); a cycle elsewhere does no harm.
- A weekly schedule computes the earliest listed day if and only if the smallest day is listed first
  (`WeeklySchedule.EarliestExactly`).
- Batch counters add up to the batch if and only if every chunk that was sent has had its channel closed;
  a chunk whose channel does not close is counted once more as failed (`BatchProcessing.CountersExactly`,
  `BatchProcessing.BatchProcessingService.ProcessBatch`).
- The same batch again within the TTL publishes nothing if and only if none of its keys that were stored
  before the first run has expired: the first run does not renew those (`BatchProcessing.SecondRunIsEmpty`).
- A cancelled schedule never starts again unless an update activates it. Its status stays CANCELLED if and
  only if no execution of it is picked or running at the cancellation (`Scheduling.CancelledExactly`); it is
  then over for good, even when an update sets `isActive` (`Scheduling.OverForever`).
- A one-time schedule is safe from a second start if and only if no query finds it due while an earlier pick
  of it has not started (`Scheduling.OnceExactly`). Ticks that do not overlap are enough
  (`Scheduling.NonOverlappingPicksAfresh`), but a running execution does no harm.

Other readings of the code that the models follow: `getTargetUsers` of the targeting service never
skips an unknown category, since `getCategoryById` throws first; with `includeOnlyActive` false the
search for subcategories asks for inactive ones only; an update cannot clear a parent, because a falsy
`parentId` changes nothing; one unknown category empties the whole audience of a scheduled
notification, which then completes, repeating or not; the test for status 400 to 404 in the Novu retry
service is unreachable.

## Model

| member | source | states |
|---|---|---|
| CircuitBreaker.PollingIsInvisible | src/infrastructure/external/circuit-breaker/circuit-breaker.service.ts:140-176 | two runs with the same clock readings, executes, completions and resets but arbitrary polls admit and reject the same executes, if nothing forces the breaker half-open or the threshold is at most two |
| CircuitBreaker.PolledRunMimics | src/infrastructure/external/circuit-breaker/circuit-breaker.service.ts:49-154 | the simulation behind it: the polled and the bare record are equal, or only the polled one has noticed that the timer ran out |
| CircuitBreaker.TrippedAlways | src/infrastructure/external/circuit-breaker/circuit-breaker.service.ts:85-104 | in every run a breaker that is not closed has at least the threshold of failures |
| CircuitBreaker.PollsShowExactly | src/infrastructure/external/circuit-breaker/circuit-breaker.service.ts:49-207 | with `forceHalfOpen` allowed, polls change no verdict if and only if the threshold is at most two or the reset timeout is not positive |
| CircuitBreaker.ForcedBreakerShowsPolls | src/infrastructure/external/circuit-breaker/circuit-breaker.service.ts:200-207 | for every larger threshold and positive timeout, a run with `forceHalfOpen` in which one poll turns an admission into a rejection |
| CircuitBreaker.StateFollowsHistory | src/infrastructure/external/circuit-breaker/circuit-breaker.service.ts:85-128 | the failure count is the number of failures since the last success or reset, and the breaker is closed exactly while that is zero or below the threshold |
| CircuitBreaker.TimerFollowsHistory | src/infrastructure/external/circuit-breaker/circuit-breaker.service.ts:90-104 | the timer of a breaker that is not closed is the newest failure plus the reset timeout, and only elapsed time half-opens it |
| CircuitBreaker.RejectedExactly | src/infrastructure/external/circuit-breaker/circuit-breaker.service.ts:49-104 | an execute is rejected if and only if the completions since the last success or reset reach the threshold and the timeout after the newest failure is not over |
| CircuitBreaker.PollAnswersExactly | src/infrastructure/external/circuit-breaker/circuit-breaker.service.ts:140-154 | a poll answers "open" under exactly the condition on which an execute at that moment is rejected |
| CircuitBreaker.RecordFollowsHistory | src/infrastructure/external/circuit-breaker/circuit-breaker.service.ts:49-128 | all four fields of the record are what the history of completions, resets and questions says, the half-open state included |
| CircuitBreaker.StaysOpen | src/infrastructure/external/circuit-breaker/circuit-breaker.service.ts:49-104 | without a success or reset an open breaker stays open until its timer, whatever else completes or polls |
| CircuitBreaker.QuietPeriod | src/infrastructure/external/circuit-breaker/circuit-breaker.service.ts:49-104 | after a failure that opens the breaker nothing is admitted before the reset timeout, unless a success or reset intervenes; if nothing else failed either, everything after it is admitted |
| CircuitBreaker.CircuitRecord.RecordSuccess | src/infrastructure/external/circuit-breaker/circuit-breaker.service.ts:85-88 | the in-place update is the success step |
| CircuitBreaker.CircuitRecord.RecordFailure | src/infrastructure/external/circuit-breaker/circuit-breaker.service.ts:90-104 | the in-place update is the failure step, with the two clock readings kept apart |
| CircuitBreaker.CircuitBreakerService.GetOrCreateCircuit | src/infrastructure/external/circuit-breaker/circuit-breaker.service.ts:73-83 | an unknown name gets a fresh closed record, no other record changes |
| CircuitBreaker.CircuitBreakerService.BeginExecute | src/infrastructure/external/circuit-breaker/circuit-breaker.service.ts:41-57 | answers and moves exactly as the admission step, for this name only |
| CircuitBreaker.CircuitBreakerService.CompleteExecute | src/infrastructure/external/circuit-breaker/circuit-breaker.service.ts:56-71 | a completion is the success or failure step on the record as it is by then |
| CircuitBreaker.CircuitBreakerService.ResetCircuit | src/infrastructure/external/circuit-breaker/circuit-breaker.service.ts:119-128 | a known circuit becomes as new, an unknown one is not created |
| CircuitBreaker.CircuitBreakerService.IsCircuitOpen | src/infrastructure/external/circuit-breaker/circuit-breaker.service.ts:140-154 | true exactly while the record says open and its timer has not run out; otherwise an open record becomes half-open |
| CircuitBreaker.CircuitBreakerService.GetCircuitMetrics | src/infrastructure/external/circuit-breaker/circuit-breaker.service.ts:159-176 | shows the record as it was before the poll inside moves it, and the answer of that poll |
| CircuitBreaker.CircuitBreakerService.ForceHalfOpen | src/infrastructure/external/circuit-breaker/circuit-breaker.service.ts:200-207 | a known circuit becomes half-open with a timer of zero and keeps its count |
| NovuQueue.EveryInterleaving | src/infrastructure/external/novu/novu-subscriber-queue.service.ts:225-341 | in every interleaving: at most three distinct queued tasks run and only while a batch is open, attempts stay below five, the failure count plus the running tasks stay at most twelve and below ten when the breaker is closed, the queue is a subsequence of the arrivals, and everything that entered is queued, processed or failed |
| NovuQueue.StepKeepsInv | src/infrastructure/external/novu/novu-subscriber-queue.service.ts:249-294 | each atomic step keeps the invariant of the queue, the slots and the breaker |
| NovuQueue.StepKeepsOrder | src/infrastructure/external/novu/novu-subscriber-queue.service.ts:583-588 | arrivals and removals keep the order of arrival |
| NovuQueue.StepKeepsBalance | src/infrastructure/external/novu/novu-subscriber-queue.service.ts:593-617 | each step keeps the sum of queued, processed and failed tasks, and successes split by kind |
| NovuQueue.StartsNearTheFront | src/infrastructure/external/novu/novu-subscriber-queue.service.ts:264-288 | when a task starts, at most two earlier arrivals are still queued |
| NovuQueue.TickMarksTheFront | src/infrastructure/external/novu/novu-subscriber-queue.service.ts:250-284 | a tick starts nothing while the breaker is open or a batch is processed, even if a late success has cleared the count; otherwise it marks exactly the first three tasks of the queue |
| NovuQueue.FateOfTask | src/infrastructure/external/novu/novu-subscriber-queue.service.ts:323-456 | a task leaves the queue exactly when it succeeds, when it meets a breaker error, and with its fifth failure |
| NovuQueue.QueuedAsArrived | src/infrastructure/external/novu/novu-subscriber-queue.service.ts:225-234 | every queued task shows the kind and the time with which it entered |
| NovuQueue.MetricsFollowHistory | src/infrastructure/external/novu/novu-subscriber-queue.service.ts:593-617 | each counter of the metrics is the number of such results in the history |
| NovuQueue.AverageIsMean | src/infrastructure/external/novu/novu-subscriber-queue.service.ts:611-614 | after every run the running average times the count is the sum of all durations |
| NovuQueue.FailedTaskKeepsItsPlace | src/infrastructure/external/novu/novu-subscriber-queue.service.ts:450-456 | a retried task keeps its position and so does everybody else |
| NovuQueue.AttemptsCountFailures | src/infrastructure/external/novu/novu-subscriber-queue.service.ts:412-414 | in every interleaving the attempts of a queued task are those it was restored with plus its own failures since |
| NovuQueue.BreakerFollowsHistory | src/infrastructure/external/novu/novu-subscriber-queue.service.ts:328-484 | the failure count is the streak since the last success or timer, breaker errors apart, and the breaker is open exactly if the streak reached ten and the timer has not fired since; a late success does not close it |
| NovuQueue.BudgetFalls | src/infrastructure/external/novu/novu-subscriber-queue.service.ts:412-456 | every completion of a running task lowers the remaining attempts of the queue |
| NovuQueue.BudgetNeverRises | src/infrastructure/external/novu/novu-subscriber-queue.service.ts:412-484 | no step but an arrival adds remaining attempts |
| NovuQueue.Drains | src/infrastructure/external/novu/novu-subscriber-queue.service.ts:249-484 | without arrivals at most five executions per queued task happen, and that many empty the queue |
| NovuQueue.NeverStuck | src/infrastructure/external/novu/novu-subscriber-queue.service.ts:249-254 | a non-empty queue with nothing running starts a task after the batch settles, the breaker timer fires and the interval ticks |
| NovuQueue.NovuSubscriberQueueService.constructor | src/infrastructure/external/novu/novu-subscriber-queue.service.ts:107-118 | the state after a start: the restored tasks, nothing in progress |
| NovuQueue.NovuSubscriberQueueService.Enqueue | src/infrastructure/external/novu/novu-subscriber-queue.service.ts:225-244 | a new task with no attempts goes to the end |
| NovuQueue.NovuSubscriberQueueService.OnInterval | src/infrastructure/external/novu/novu-subscriber-queue.service.ts:249-287 | nothing is started while the breaker is open or a batch is processed; otherwise the first three task objects of the queue are started and exactly their ids are marked |
| NovuQueue.NovuSubscriberQueueService.ProcessBatch | src/infrastructure/external/novu/novu-subscriber-queue.service.ts:264-287 | the picked tasks are started, marked, and the batch is open exactly if there are any |
| NovuQueue.NovuSubscriberQueueService.PickTasks | src/infrastructure/external/novu/novu-subscriber-queue.service.ts:268-277 | the first waiting tasks, as many as there are free slots |
| NovuQueue.NovuSubscriberQueueService.FilterWaiting | src/infrastructure/external/novu/novu-subscriber-queue.service.ts:275-276 | the tasks that are not being processed, in order |
| NovuQueue.NovuSubscriberQueueService.MarkProcessing | src/infrastructure/external/novu/novu-subscriber-queue.service.ts:284 | exactly the ids of the started tasks are added |
| NovuQueue.NovuSubscriberQueueService.TaskSucceeded | src/infrastructure/external/novu/novu-subscriber-queue.service.ts:323-332 | the success path is the success step |
| NovuQueue.NovuSubscriberQueueService.TaskFailed | src/infrastructure/external/novu/novu-subscriber-queue.service.ts:337-340 | the failure path, with the attempt counted in place on the shared task object, is the failure step |
| NovuQueue.NovuSubscriberQueueService.HandleTaskFailure | src/infrastructure/external/novu/novu-subscriber-queue.service.ts:412-484 | a breaker error removes without counting towards the breaker, the fifth attempt removes, an earlier one retries, and the tenth failure opens the breaker |
| NovuQueue.NovuSubscriberQueueService.RemoveTaskFromQueue | src/infrastructure/external/novu/novu-subscriber-queue.service.ts:583-588 | the first task with the id leaves, an unknown id changes nothing |
| NovuQueue.NovuSubscriberQueueService.UpdateMetrics | src/infrastructure/external/novu/novu-subscriber-queue.service.ts:593-617 | counters and average after a success or a failure |
| NovuQueue.NovuSubscriberQueueService.SettleBatch | src/infrastructure/external/novu/novu-subscriber-queue.service.ts:288-293 | a settled batch only clears the processing flag |
| NovuQueue.NovuSubscriberQueueService.BreakerTimerFired | src/infrastructure/external/novu/novu-subscriber-queue.service.ts:479-483 | the reset timer closes the breaker and clears the count |
| NovuRecovery.CrashRecovery | src/infrastructure/external/novu/novu-subscriber-queue.service.ts:234-541 | a restart after any history restores a valid queue; if all sent backups have landed it has every unfinished task younger than a day, with no more attempts than before, and whatever else comes back had finished |
| NovuRecovery.TaskSurvives | src/infrastructure/external/novu/novu-subscriber-queue.service.ts:234-241 | a young unfinished task comes back, with no more attempts, once the write of its own arrival has landed, whatever other writes are lost |
| NovuRecovery.RestoredInOrder | src/infrastructure/external/novu/novu-subscriber-queue.service.ts:516-537 | a restart finds the stored tasks younger than a day, in their order; the expiry of the key takes no others |
| NovuRecovery.ShutdownIsExact | src/infrastructure/external/novu/novu-subscriber-queue.service.ts:493-541 | after a graceful shutdown whose writes have landed, a restart finds the queue as it was, but for tasks that have become too old |
| NovuRecovery.AlwaysSound | src/infrastructure/external/novu/novu-subscriber-queue.service.ts:493-511 | after every history the stored and pending backups are honest snapshots, and the newest one holds every live task |
| NovuRecovery.RestartKeeps | src/infrastructure/external/novu/novu-subscriber-queue.service.ts:516-541 | a crash at any moment, followed by a restart, keeps that invariant; the key cannot expire before its tasks are too old |
| NovuRecovery.RestoreQueueFromRedis | src/infrastructure/external/novu/novu-subscriber-queue.service.ts:516-541 | the restored queue is the backup without tasks of a day or more, or empty when the key has expired |
| PriorityQueue.NeverLost | src/modules/notification/priority-queue/priority-queue.service.ts:564-1057 | for every list of events, crashes between republish and ack included, each enqueued id keeps a copy that is waiting, in flight, acknowledged, dead-lettered or rejected; retry copies have counts up to the limit and dead-letter copies one more |
| PriorityQueue.OnTrackStep | src/modules/notification/priority-queue/priority-queue.service.ts:967-1025 | each step keeps every copy equal to its original but for a retry count that fits its place |
| PriorityQueue.ExclusiveStep | src/modules/notification/priority-queue/priority-queue.service.ts:564-606 | no consumer ever holds two unacknowledged messages |
| PriorityQueue.RepresentedStep | src/modules/notification/priority-queue/priority-queue.service.ts:985-1016 | no step takes away the last copy that stands for a message |
| PriorityQueue.CalmRun | src/modules/notification/priority-queue/priority-queue.service.ts:714-1030 | without crashes, requeues and failures after an acknowledgement, every message has exactly one copy and is delivered at most once more than its limit allows retries |
| PriorityQueue.EndsExactly | src/modules/notification/priority-queue/priority-queue.service.ts:741-1029 | in every run a copy is acknowledged exactly if its handling has succeeded, rejected exactly if it was rejected without a replacement, superseded exactly if it gave way to one, and expired exactly if it aged out |
| PriorityQueue.RepublishedExactly | src/modules/notification/priority-queue/priority-queue.service.ts:985-994 | a copy in flight counts as republished exactly if its replacement was sent since its last delivery |
| PriorityQueue.CrashReleases | src/modules/notification/priority-queue/priority-queue.service.ts:602-604 | a crash returns exactly what the worker held, unacknowledged, to the queue that it came from |
| PriorityQueue.SingleStep | src/modules/notification/priority-queue/priority-queue.service.ts:985-1016 | without crashes no step makes a second copy that counts |
| PriorityQueue.CountedStep | src/modules/notification/priority-queue/priority-queue.service.ts:975-994 | without crashes the retry count of a copy tells how often its message was delivered |
| PriorityQueue.PriorityQueueService.EnqueueNotification | src/modules/notification/priority-queue/priority-queue.service.ts:1050-1145 | one copy waits in the main queue if the send succeeds; the caller is told of success only if the channel closes too |
| PriorityQueue.PriorityQueueService.ReceiveMessage | src/modules/notification/priority-queue/priority-queue.service.ts:714-721 | the copy is in flight and the worker busy |
| PriorityQueue.PriorityQueueService.ProcessMessage | src/modules/notification/priority-queue/priority-queue.service.ts:714-779 | where the copy ends and what is sent instead, for each outcome: acknowledged when sent, rejected when unreadable or not republished, else superseded by a retry or a dead letter; a metrics call that throws after the acknowledgement sends one all the same |
| PriorityQueue.PriorityQueueService.HandleMessageFailure | src/modules/notification/priority-queue/priority-queue.service.ts:967-1030 | republish to retry or dead-letter by the count, then ack; an unreadable message or a failed republish is rejected; a message acknowledged before is republished all the same |
| FixedWindow.AdmissionsBounded | src/common/security/rate-limiting.service.ts:35-64 | with at most k overlapping checks a window admits at most maxRequests + k - 1, and any span as long as a window at most twice that |
| FixedWindow.AlwaysInv | src/common/security/rate-limiting.service.ts:43-54 | while a window lasts its admissions are the counter plus the checks that have not incremented yet |
| FixedWindow.CountersLast | src/common/security/rate-limiting.service.ts:53 | a counter never expires before its own window ends |
| FixedWindow.ExpiryExactly | src/common/security/rate-limiting.service.ts:52-53 | a counter expires a window length, rounded up to seconds, after its last expire call; one that had none since it was created stays |
| FixedWindow.CounterGone | src/common/security/rate-limiting.service.ts:53 | less than a second after that window length the counter reads as zero |
| FixedWindow.SpanMeetsTwoWindows | src/common/security/rate-limiting.service.ts:40 | a span of one window length meets at most two windows |
| FixedWindow.LimitKeptExactly | src/common/security/rate-limiting.service.ts:43-54 | every window of every run admits at most maxRequests if and only if no two checks overlap or maxRequests is zero |
| FixedWindow.WindowBoundIsTight | src/common/security/rate-limiting.service.ts:43-54 | for every configuration and every k a run with at most k overlapping checks that admits maxRequests + k - 1 in one window |
| FixedWindow.SpanBoundIsTight | src/common/security/rate-limiting.service.ts:40-54 | and one that admits twice that within one window length, across the boundary of two windows |
| FixedWindow.RateLimitingService.Get | src/common/security/rate-limiting.service.ts:44-45 | an absent or expired counter reads as zero |
| FixedWindow.RateLimitingService.Incr | src/common/security/rate-limiting.service.ts:52 | increments in place and keeps the expiry; an absent counter starts at one without expiry |
| FixedWindow.RateLimitingService.SetExpiry | src/common/security/rate-limiting.service.ts:53 | renews the expiry of a counter that exists |
| FixedWindow.RateLimitingService.CheckRateLimit | src/common/security/rate-limiting.service.ts:35-90 | a check that nothing overlaps is the three steps in order; what it reports as remaining, hits and reset time; a failing Redis call lets it pass and leaves what was written before |
| RateLimitGuard.SlidingWindow | src/common/guards/rate-limit.guard.ts:44-72 | every half-open span of windowMs holds at most `limit` admissions |
| RateLimitGuard.CounterCountsSincePause | src/common/guards/rate-limit.guard.ts:45-72 | the stored counter is the number of admissions since the last pause of at least the TTL, and expires a TTL after the newest |
| RateLimitGuard.PassesExactly | src/common/guards/rate-limit.guard.ts:46-48 | a request passes if and only if the limit is positive and there was such a pause or the burst is below the limit |
| RateLimitGuard.SpanBounded | src/common/guards/rate-limit.guard.ts:44-72 | if no burst exceeds the limit then no span up to the TTL does |
| RateLimitGuard.FairExactly | src/common/guards/rate-limit.guard.ts:44-72 | every rejected request finds its window full, in all runs, if and only if the limit is zero, or one with a window of whole seconds |
| RateLimitGuard.SteadyClientIsShutOut | src/common/guards/rate-limit.guard.ts:63-72 | for all other options, a run of admitted requests after which a request is rejected although its window holds fewer than `limit` admissions |
| RateLimitGuard.RateLimitGuard.CanActivate | src/common/guards/rate-limit.guard.ts:27-91 | verdict, stored counter and reported remainder of one request; no options or a Redis error let it pass and leave the counter |
| CategoryForest.ReparentingExactly | src/modules/notification/category/category.service.ts:156-178 | a new parent keeps a forest acyclic if and only if it is neither the category nor one of its descendants |
| CategoryForest.CycleComesFromBelow | src/modules/notification/category/category.service.ts:156-178 | every cycle after the change comes from a parent chosen below |
| CategoryForest.NewChildIsHarmless | src/modules/notification/category/category.service.ts:89-103 | a new category below an existing one closes no cycle |
| CategoryForest.FewerPointers | src/modules/notification/category/category.service.ts:196-212 | dropping pointers or adding roots closes no cycle |
| CategoryForest.ChildrenHaveFewer | src/modules/notification/category/category.service.ts:156-178 | on a forest a category has strictly more descendants than each of its children |
| Categories.EveryRun | src/modules/notification/category/category.service.ts:82-387 | every run keeps parents existing, member ids unique and memberCount exact; it keeps the forest acyclic if no update moves a category below itself |
| Categories.UpdateExactly | src/modules/notification/category/category.service.ts:141-189 | an update keeps the store well formed, and the forest acyclic if and only if the new parent is not the category or below it |
| Categories.TwoStepCycle | src/modules/notification/category/category.service.ts:168-171 | two categories can be made each other's parent |
| Categories.NamesStayUnique | src/modules/notification/category/category.service.ts:84-154 | in every run no two categories share a name other than the empty one |
| Categories.RenameExactly | src/modules/notification/category/category.service.ts:148-154 | an update keeps all names distinct if and only if it does not give the empty name while another category has it |
| Categories.EmptyNamesCollide | src/modules/notification/category/category.service.ts:149-154 | any number of categories can be renamed to the empty name, which skips the check |
| Categories.CreateKeeps | src/modules/notification/category/category.service.ts:82-118 | creation keeps the store well formed and the forest acyclic |
| Categories.CreateExactly | src/modules/notification/category/category.service.ts:82-118 | when exactly a creation is refused and with which error, and every field of the new document |
| Categories.ChangeExactly | src/modules/notification/category/category.service.ts:141-173 | when exactly an update is refused and with which error |
| Categories.ChangeStores | src/modules/notification/category/category.service.ts:175-178 | every field of the document after an accepted update |
| Categories.DeleteExactly | src/modules/notification/category/category.service.ts:196-220 | when exactly a deletion is refused, and that nothing else goes |
| Categories.AddMemberExactly | src/modules/notification/category/category.service.ts:227-252 | when exactly an addition is refused, and that the member comes last with its role |
| Categories.RemoveMemberExactly | src/modules/notification/category/category.service.ts:259-282 | when exactly a removal is refused, and that the others keep their places |
| Categories.BulkRefusals | src/modules/notification/category/category.service.ts:328-345 | an empty list, one of more than a thousand and an unknown category are refused |
| Categories.BulkAddInTurn | src/modules/notification/category/category.service.ts:346-360 | a bulk addition is one addition after the other |
| Categories.BulkAddRoles | src/modules/notification/category/category.service.ts:346-360 | the new members come after the old ones and have the given role |
| Categories.BulkRemoveInTurn | src/modules/notification/category/category.service.ts:361-375 | a bulk removal is one removal after the other |
| Categories.NewestFirst | src/modules/notification/category/category.repository.ts:53-72 | in every run the default order lists the categories from the youngest to the oldest |
| Categories.DeleteKeeps | src/modules/notification/category/category.service.ts:196-220 | deletion, refused with children, keeps both |
| Categories.MembershipKeeps | src/modules/notification/category/category.service.ts:227-387 | membership operations, bulk ones included, keep the store well formed and touch no parent |
| Categories.BulkAddExact | src/modules/notification/category/category.service.ts:346-360 | a bulk addition adds exactly the listed users, repeated ids or not, and keeps uniqueness and the count |
| Categories.BulkRemoveExact | src/modules/notification/category/category.service.ts:361-375 | a bulk removal removes exactly the listed users and keeps uniqueness and the count |
| Categories.PullFacts | src/modules/notification/category/category.repository.ts:117-129 | the pull takes out exactly the user, which is one entry if present |
| Categories.CategoryService.Create | src/modules/notification/category/category.service.ts:82-118 | conflict, missing and inactive parent in this order, else the new document |
| Categories.CategoryService.Change | src/modules/notification/category/category.service.ts:141-189 | which updates are refused and why, else the merged document |
| Categories.CategoryService.Delete | src/modules/notification/category/category.service.ts:196-220 | missing or with children is refused, else the document goes |
| Categories.CategoryService.AddMember | src/modules/notification/category/category.service.ts:227-252 | missing category or known member is refused, else member and count are written together |
| Categories.CategoryService.RemoveMember | src/modules/notification/category/category.service.ts:259-282 | an unknown member is refused, else member and count are written together |
| Categories.CategoryService.BulkAdd | src/modules/notification/category/category.service.ts:328-387 | size limits, then one addition per listed user who is not yet a member |
| Categories.CategoryService.BulkRemove | src/modules/notification/category/category.service.ts:328-387 | size limits, then one removal per listed user who is still a member |
| Categories.FindMember | src/modules/notification/category/category.repository.ts:151-166 | finds a member exactly if there is one |
| CategoryTargeting.GetSubcategoryUsers | src/modules/notification/category/category-targeting.service.ts:271-305 | where the recursion ends, it returns exactly the members below that pages reach, minus exclusions: only members of descendants reached through matching categories, and all of them if no family below exceeds a page |
| CategoryTargeting.EndsExactly | src/modules/notification/category/category-targeting.service.ts:271-305 | on any hierarchy, cyclic or not, the recursion from a category ends if and only if it comes to no category that pages reach from itself |
| CategoryTargeting.ForestEnds | src/modules/notification/category/category-targeting.service.ts:271-305 | on a forest it always ends |
| CategoryTargeting.PagingIsSound | src/modules/notification/category/category.service.ts:133-139 | paging only loses users, and none when the families of this category and below fit on a page |
| CategoryTargeting.PagingExactly | src/modules/notification/category/category.service.ts:133-139 | every descendant of a category is reached if and only if neither it nor a descendant has more than ten matching children |
| CategoryTargeting.ReachedThroughChild | src/modules/notification/category/category-targeting.service.ts:276-300 | what is reached from a category is its children and what is reached from them |
| CategoryTargeting.MembersOf | src/modules/notification/category/category-targeting.service.ts:285-287 | the members that are not excluded |
| CategoryTargeting.FindMany | src/modules/notification/category/category.repository.ts:53-80 | the first ten matching children, newest first |
| CategoryTargeting.PageExactly | src/modules/notification/category/category.repository.ts:53-72 | a page holds at most ten categories, all of them matching children, and all of those if it is not full |
| CategoryTargeting.PageIsNewest | src/modules/notification/category/category.repository.ts:53-72 | in every run no matching child off the page is younger than one on it |
| CategoryTargeting.BelowExactly | src/modules/notification/category/category-targeting.service.ts:271-305 | the users below are the members of the categories reached, but for the excluded ones |
| CategoryTargeting.GetTargetUsers | src/modules/notification/category/category-targeting.service.ts:30-104 | fails exactly if a listed category is missing, else returns the users who are not excluded and are members of a listed category, or of one reached below it if asked for; inactive listed ones are left out if asked for; asks for an end of the recursion only where it descends |
| CategoryTargeting.GetUsersByMultipleCategories | src/modules/notification/category/category-targeting.service.ts:112-140 | fails exactly if a listed category is missing, else all members of the listed ones minus exclusions |
| BatchProcessing.DroppedExactly | src/modules/notification/batch-processing/batch-processing.service.ts:138-182 | a notification is dropped only if its key is stored or used earlier in the batch, whatever Redis does, and exactly then if Redis works |
| BatchProcessing.KeysExactly | src/modules/notification/batch-processing/batch-processing.service.ts:153-182 | the live keys afterwards are those before and those of the batch |
| BatchProcessing.DroppedUnderFaults | src/modules/notification/batch-processing/batch-processing.service.ts:138-182 | with whatever Redis faults, a notification is dropped exactly if its read works and its key was stored, before or by an earlier one that met no fault |
| BatchProcessing.KeysUnderFaults | src/modules/notification/batch-processing/batch-processing.service.ts:153-182 | which keys are live then |
| BatchProcessing.StoredUntil | src/modules/notification/batch-processing/batch-processing.service.ts:163-170 | a key of the batch expires when it did before, or the TTL from now, or never without a TTL |
| BatchProcessing.SurvivorsDistinct | src/modules/notification/batch-processing/batch-processing.service.ts:64-69 | what is left has pairwise distinct keys, none of them stored before |
| BatchProcessing.SecondRunIsEmpty | src/modules/notification/batch-processing/batch-processing.service.ts:153-182 | with Redis working, the same batch again within the TTL publishes nothing if and only if none of its keys that were stored before the first run has expired |
| BatchProcessing.PublishedAgain | src/modules/notification/batch-processing/batch-processing.service.ts:153-182 | when the TTL is over, each key of the batch is published again, once |
| BatchProcessing.UnflaggedConcat | src/modules/notification/batch-processing/batch-processing.service.ts:66-69 | filtering goes element by element and keeps the order |
| BatchProcessing.GroupsPartition | src/modules/notification/batch-processing/batch-processing.service.ts:184-196 | each occurring priority has one group with its notifications in batch order, and the sizes add up |
| BatchProcessing.GroupsInOrder | src/modules/notification/batch-processing/batch-processing.service.ts:184-196 | the groups come in the order in which their priorities first occur |
| BatchProcessing.OfPriorityConcat | src/modules/notification/batch-processing/batch-processing.service.ts:184-196 | what a group holds goes element by element in batch order |
| BatchProcessing.ChunksExact | src/modules/notification/batch-processing/batch-processing.service.ts:278-284 | chunks concatenate back, none is empty, all but the last are full |
| BatchProcessing.ChunkArray | src/modules/notification/batch-processing/batch-processing.service.ts:278-284 | the slicing loop yields these chunks |
| BatchProcessing.PublishChunkToQueue | src/modules/notification/batch-processing/batch-processing.service.ts:235-276 | successes are as many as positions that the broker accepted in an open channel; the counters add up to the chunk, or twice the chunk when the channel does not close |
| BatchProcessing.ProcessPriorityGroup | src/modules/notification/batch-processing/batch-processing.service.ts:198-233 | successes are as many as accepted positions of all chunks; the counters of a group add up to its size plus its unclosed chunks |
| BatchProcessing.ProcessGroups | src/modules/notification/batch-processing/batch-processing.service.ts:78-86 | successes are as many as accepted positions of all groups; the counters add up to their sizes plus their unclosed chunks |
| BatchProcessing.CountersExactly | src/modules/notification/batch-processing/batch-processing.service.ts:235-276 | nothing is counted twice if and only if every chunk that was sent has had its channel closed |
| BatchProcessing.AllClosed | src/modules/notification/batch-processing/batch-processing.service.ts:257-276 | when every channel closes nothing is counted twice |
| BatchProcessing.FilterUnflagged | src/modules/notification/batch-processing/batch-processing.service.ts:66-69 | the notifications without a flag, in order |
| BatchProcessing.GroupByPriority | src/modules/notification/batch-processing/batch-processing.service.ts:184-196 | the reduce builds the partition |
| BatchProcessing.BatchProcessingService.ProcessDeduplication | src/modules/notification/batch-processing/batch-processing.service.ts:138-151 | flags and stored keys of the whole batch, checked one after the other |
| BatchProcessing.BatchProcessingService.CheckDeduplication | src/modules/notification/batch-processing/batch-processing.service.ts:153-182 | stored means duplicate, otherwise the key is stored with the TTL; a Redis error lets the notification through |
| BatchProcessing.BatchProcessingService.ProcessBatch | src/modules/notification/batch-processing/batch-processing.service.ts:47-122 | too large batches change nothing; else successful is the number of accepted positions, and successful + failed + duplicates is the total plus the chunks counted twice |
| Scheduling.CancellationIsFinal | src/modules/notification/scheduling/scheduling.service.ts:258-272 | after a cancel in any reachable state only what a query had already picked can still start, unless an update activates the schedule |
| Scheduling.NothingNewStarts | src/modules/notification/scheduling/scheduling.service.ts:470-499 | an inactive schedule stays inactive and is not picked by any later query, whatever the executor writes |
| Scheduling.OutstandingStep | src/modules/notification/scheduling/scheduling.service.ts:470-499 | picks come only from queries that find the schedule due, executions only from picks |
| Scheduling.PickedExactly | src/modules/notification/scheduling/scheduling.service.ts:473-478 | a query picks a schedule exactly if it exists, is active, is pending or scheduled, and its time has come |
| Scheduling.NeverTooEarly | src/modules/notification/scheduling/scheduling.service.ts:470-486 | in every run an execution begins only after a query at or after the time that was stored when the query ran |
| Scheduling.DeletionIsFinal | src/modules/notification/scheduling/scheduling.service.ts:291-300 | after a deletion only what a query had already picked can still start |
| Scheduling.CrashForgets | src/modules/notification/scheduling/scheduling.service.ts:484-486 | what was picked before a crash does not start after it |
| Scheduling.FieldsFollowHistory | src/modules/notification/scheduling/scheduling.service.ts:120-129 | status, activity, type and time of a document are what the newest writes to them say, and it exists until it is deleted |
| Scheduling.OverForever | src/modules/notification/scheduling/scheduling.service.ts:504-584 | a schedule that is neither pending nor scheduled, with nothing in progress, never starts again |
| Scheduling.CountersFollowHistory | src/modules/notification/scheduling/scheduling.service.ts:494-584 | in every run, whatever overlaps, the three counters of a schedule are its executions begun, its successes and its failures |
| Scheduling.OnceExactly | src/modules/notification/scheduling/scheduling.service.ts:470-499 | a run of a one-time schedule is safe from a second start, however it goes on without queries, if and only if no query in it finds the schedule due while an earlier pick of it has not started |
| Scheduling.OnceStartsOnce | src/modules/notification/scheduling/scheduling.service.ts:470-562 | under that condition it starts at most once |
| Scheduling.NonOverlappingPicksAfresh | src/modules/notification/scheduling/scheduling.service.ts:468-486 | ticks that do not overlap meet that condition for every schedule |
| Scheduling.OverlappingTicksStartTwice | src/modules/notification/scheduling/scheduling.service.ts:470-499 | with overlapping ticks every one-time schedule can start twice |
| Scheduling.CancelledExactly | src/modules/notification/scheduling/scheduling.service.ts:258-562 | the status stays CANCELLED in all continuations if and only if no execution of the schedule is picked or running at the cancellation |
| Scheduling.CancelledStatusIsOverwritten | src/modules/notification/scheduling/scheduling.service.ts:494-562 | otherwise one more write of that execution replaces the status, and leaves the schedule inactive |
| Scheduling.Ended | src/modules/notification/scheduling/scheduling.service.ts:504-584 | the final write never touches isActive or the type, fails exactly a broken execution, reschedules exactly a repeating one with a next time, and only then stores that time |
| Scheduling.GetTargetUsers | src/modules/notification/scheduling/scheduling.service.ts:588-619 | a missing category empties the audience; else named users and members, minus exclusions |
| Scheduling.SchedulingService.QueryDue | src/modules/notification/scheduling/scheduling.service.ts:470-478 | picks exactly the documents that are active, pending or scheduled, and whose time has come, with the type read |
| Scheduling.SchedulingService.StartExecution | src/modules/notification/scheduling/scheduling.service.ts:494-499 | a picked schedule becomes PROCESSING and counts an execution |
| Scheduling.SchedulingService.FinishExecution | src/modules/notification/scheduling/scheduling.service.ts:504-584 | the final write of each outcome, on the document as it is by then |
| Scheduling.SchedulingService.CancelScheduledNotification | src/modules/notification/scheduling/scheduling.service.ts:258-277 | status and activity of a known schedule change, an unknown one is reported |
| Scheduling.SchedulingService.UpdateScheduledNotification | src/modules/notification/scheduling/scheduling.service.ts:212-242 | an unknown schedule and an invalid pattern are refused in this order; else type and activity change as given, the status never |
| WeeklySchedule.NeverSkipsOrRepeats | src/modules/notification/scheduling/scheduling.service.ts:470-562 | under regular ticks the days executed are exactly the listed days since the creation, once each and in order |
| WeeklySchedule.OneTick | src/modules/notification/scheduling/scheduling.service.ts:470-562 | one tick keeps that |
| WeeklySchedule.NextDayIsEarliest | src/modules/notification/scheduling/scheduling.service.ts:423-447 | the computed day is the earliest listed day after today and at most a week ahead |
| WeeklySchedule.EarliestExactly | src/modules/notification/scheduling/scheduling.service.ts:439-446 | that holds on every day if and only if the smallest day is listed first |
| WeeklySchedule.NextDayExactly | src/modules/notification/scheduling/scheduling.service.ts:429-446 | in whatever order the days are listed: the least listed weekday still to come this week, else the first listed one in the next week |
| WeeklySchedule.DailyIsEveryDay | src/modules/notification/scheduling/scheduling.service.ts:416-421 | a daily schedule is the weekly one that lists every day |
| WeeklySchedule.NextIsAhead | src/modules/notification/scheduling/scheduling.service.ts:423-447 | every computed time is strictly in the future, and at most seven days ahead with the smallest day first |
| WeeklySchedule.LeastAbove | src/modules/notification/scheduling/scheduling.service.ts:429-433 | the head of the filtered and sorted list is the least listed day after the current one |
| WeeklySchedule.CalculateRecurringNextExecution | src/modules/notification/scheduling/scheduling.service.ts:411-447 | midnight of the next day, or of the next listed day; nothing for an empty list |
| QueueMonitoring.StateFollowsHistory | src/modules/notification/queue-monitoring/queue-monitoring.service.ts:394-441 | the breaker is closed exactly while fewer than five failures happened since it was last closed or reset; otherwise the current row of successes, shorter than three, tells open from half-open |
| QueueMonitoring.OpensOnFifthFailure | src/modules/notification/queue-monitoring/queue-monitoring.service.ts:413-428 | it opens with exactly the fifth failure, successes in between do not matter |
| QueueMonitoring.ClosesOnThirdSuccess | src/modules/notification/queue-monitoring/queue-monitoring.service.ts:397-412 | it closes by itself with exactly the third success in a row |
| QueueMonitoring.TimesOf | src/modules/notification/queue-monitoring/queue-monitoring.service.ts:394-441 | failures are stamped, an opening sets the next attempt a minute ahead and the success that half-opens sets it half a minute ahead, nothing else but a reset touches the times |
| QueueMonitoring.QueueMonitoringService.constructor | src/modules/notification/queue-monitoring/queue-monitoring.service.ts:57-75 | every breaker starts fresh |
| QueueMonitoring.QueueMonitoringService.UpdateCircuitBreaker | src/modules/notification/queue-monitoring/queue-monitoring.service.ts:394-429 | the success or failure step on the breaker of this queue only |
| QueueMonitoring.QueueMonitoringService.ResetCircuitBreaker | src/modules/notification/queue-monitoring/queue-monitoring.service.ts:431-441 | the breaker of this queue becomes fresh |
| RetryLoops.ExecuteNovuWithRetry | src/infrastructure/external/novu/novu-retry.service.ts:34-66 | one call per attempt up to the first success, non-retryable error or last attempt, with the delays in order between; what is returned or thrown |
| RetryLoops.NovuDelaysGrow | src/infrastructure/external/novu/novu-retry.service.ts:110-113 | delays never shrink and never exceed the cap |
| RetryLoops.NovuDelayExactly | src/infrastructure/external/novu/novu-retry.service.ts:110-113 | each delay is the base times the power of the multiplier below the cap, and the cap from there on |
| RetryLoops.NovuTotalExactly | src/infrastructure/external/novu/novu-retry.service.ts:110-113 | the exact total: the geometric sum of the sleeps below the cap plus the cap for each of the others |
| RetryLoops.StopsExactly | src/infrastructure/external/novu/novu-retry.service.ts:71-105 | which error codes, statuses and flags stop the loop |
| RetryLoops.NovuTotalDelay | src/infrastructure/external/novu/novu-retry.service.ts:110-113 | the total sleep is bounded by the capped and by the geometric sum in closed form |
| RetryLoops.NovuTotalCapped | src/infrastructure/external/novu/novu-retry.service.ts:110-113 | r sleeps take at most r times the cap |
| RetryLoops.NovuTotalGeometric | src/infrastructure/external/novu/novu-retry.service.ts:110-113 | r sleeps take at most the base delay times the geometric sum |
| RetryLoops.ExecuteRabbitWithRetry | src/infrastructure/messaging/rabbitmq-retry.service.ts:32-78 | one call per attempt up to the first success or the last attempt; the report of attempts, success and last error is true; the sleeps between are the delays in order, or no numbers at all with an empty table |
| RetryLoops.RabbitTotalDelay | src/infrastructure/messaging/rabbitmq-retry.service.ts:80-89 | the total sleep past the table is the table plus a geometric tail in closed form |
| RetryLoops.RabbitTotal | src/infrastructure/messaging/rabbitmq-retry.service.ts:80-89 | the same for every multiplier, with the sum instead of the closed form |
| RetryLoops.MultiplierExactly | src/infrastructure/messaging/rabbitmq-retry.service.ts:86-88 | the first delay past the table is its last entry times the multiplier, which is two if none is given |
| RetryLoops.TableDelays | src/infrastructure/messaging/rabbitmq-retry.service.ts:81-83 | within the table the sleeps are a prefix of it |
| RetryLoops.TableThenTail | src/infrastructure/messaging/rabbitmq-retry.service.ts:80-89 | all sleeps are the table followed by the exponential tail |

## Left out

- HTTP controllers, DTO validation, schemas, logging, metrics export, health checks: no invariant spans them.
- Calls to Novu, the auth service, the RabbitMQ management API and Mongoose: their success or failure is an event or a parameter.
- Random and time-based ids: taken to be fresh; floating point averages and delays are real numbers.
- Circuit breaker: the timeout race inside `execute` (a timeout is a failed completion), the special error text for `auth-service`, `getAllCircuitMetrics`.
- Novu queue: payload, `lastError` and `lastAttemptAt` of tasks; the backup of metrics (the metrics found at a start are a parameter); failing backups. A start with its restore is one step. The breaker timer may fire at any time instead of after 30 seconds.
- Priority queue: message content, worker pool status, consumer tags, and the choice by priority (any waiting message may be delivered next); publishing before the broker has answered (the channel is first in, first out). A second acknowledgement, which makes the broker close the channel, is a crash of that worker.
- FixedWindow.RateLimitingService.CheckRateLimit: asks for a positive window length, as all callers pass. The runs of the limiter have no Redis errors.
- RateLimitGuard.RateLimitGuard.CanActivate: one key and requests that do not overlap.
- `resetRateLimit` and `getRateLimitStatus`.
- Categories: `updateMember`, engagement score, notification count, statistics; sort orders and pages other than the default.
- CategoryTargeting.GetTargetUsers: the per-category details and counts of the result are not modelled.
- CategoryTargeting.GetSubcategoryUsers: asks that the recursion comes to no loop, which is exactly when it ends (`CategoryTargeting.EndsExactly`).
- Batch processing: one batch runs at one clock reading; message headers and statistics. A chunk size of zero, with which the original loops forever, is excluded.
- Scheduling: monthly and cron patterns, time zones and daylight saving (days are local and of equal length), the rules of pattern validation (its verdict is a parameter), listing and statistics; a failing first write of an execution. Sending is commented out in the source, so its outcome is a parameter.
- Queue monitoring: Redis counters, alerts, and the queue status it reports.
- RetryLoops.ExecuteNovuWithRetry: the error classification text and logging around the loop.
- `ConnectionPoolService`, `HorizontalScalingService`, `RedisOptimizationService`, `RetryWorkerService`, `ErrorClassifierService`, analytics, A/B statistics and URL templates: they would only add easy members.
