# A verified model of the inventory agent's stores, queue and optimizer

This Dafny 4.11 project models the parts of the inventory-expiry agent in which several steps, tables or processes
have to agree, and proves what they promise over every input, run and interleaving. One module stands for one
component; `dafny verify dfyconfig.toml` checks all of them.

## What is modelled

* **The durable task queue.** `TaskQueue` is the SQLite queue, a class over a map of rows whose methods take the same
  statements in the same order as the code and are proved against one-step functions on the table. `QueueHistory`
  reasons about every series of operations at any clock readings, `Leases` about whether a task is still running when
  its worker reports, `TaskWorker` about one worker loop among other users of the queue, `WorkerFleet` about any number
  of workers, and `PostgresQueue` about workers whose transactions interleave row by row. `QueueTexts` is the claim on
  the stored texts.
* **The cross-batch allocator.** `Optimization` holds the greedy loop, `OptimizationBounds` what it guarantees against
  every rival plan, `OptimizerGate` the quality gate.
* **Decisions, work orders and plans.** `WorkOrders` is the order model, `Tables` the schema with its UNIQUE and
  FOREIGN KEY constraints, `Stores` the transactions, `StoreRuns` the invariants of every run, `PlanExecution` the
  execution of a plan.
* **Exactly-once requests.** `Idempotency` is the claim table and one undisturbed request, `ExactlyOnce` any number of
  requests interleaving and crashing between any two of their steps.
* **Fast forms of simple specifications.** `Timestamps` and `TimedTables` (instants compared as text), `RateLimits` (a
  pruned deque, a table with only the current window), `Migrations` (resumable releases), `ScanRunner` (a semaphore
  and `gather`), `ErpPaging` (cursors and retries), `Months`, `MonthlyReports` and `ReportSource` (month windows, their
  sums, and the query they are loaded with).

`Wrappers`, `Counting`, `TextOrder` and `StableSort` are helpers: options and results, powers of two, sizes of sets and
sums over them, the byte order of strings, and a stable sort with its laws.

## How the model speaks

* Quantities and money are `real`; the rounding of floats is not modelled. Batch stocks are non-negative, as the
  schema says; capacities may have any sign, as in the request model, and the theorems say what a negative one does.
* Instants are `int` microseconds (seconds of one clock in the limiters). `Timestamps` proves that comparing the stored
  texts is comparing these numbers, so the other modules compare numbers.
* A transaction of SQLite is serial and a failure in it restores the tables. Of PostgreSQL only this is assumed: a row
  has one lock, a write needs it, `SKIP LOCKED` passes over rows locked by others, and a statement that waited checks
  its WHERE clause again. A transaction may abort at any step.
* Raised exceptions are `Err` values. Fresh UUIDs, clock readings, and what an engine, a client or a scan answers are
  parameters, so every lemma holds for all of them.
* A time zone is any strictly increasing map from month numbers to the instants at which the months start.

## Where the code does less than one might expect

* `complete` and `fail` of the queue do not look at the attempt number: a worker whose lease was lost can finish the
  task of its successor. If the task is no longer running when the worker completes it, "task is not running" is raised
  outside the handler of `run_once` and ends the worker's loop for good. `TaskWorker.ReportCanRaise` is such a run, and
  `TaskWorker.ReportRaisesIff` and `WorkerFleet.CompletionRaisesIff` say exactly when it happens. A late failure
  report hits the attempt of a successor too (`TaskWorker.FailsOwnAttemptIff`, `WorkerFleet.FailureHitsIff`).
  `TaskWorker.CompletionCanHitSuccessor` and `TaskWorker.FailureCanHitSuccessor` are runs in which that happens.
* `claim` never looks at `max_attempts`, so a task can be attempted more often (`QueueHistory.LimitCanBeExceeded`).
  How often is known exactly: `QueueHistory.AttemptsArePaidFor` and `QueueHistory.WithinLimitIff`.
* `record_approval` accepts an order in any state. The cross-table invariant survives it exactly when the order is not
  already completed (`StoreRuns.ApprovalKeepsConsistentIff`, `StoreRuns.CompletedApprovalBreaks`); the click handler
  only builds pending orders.
* With capacities below zero the allocator can fail: it does so exactly when some batch has only closed actions
  (`OptimizationBounds.FailsIffAllClosed`, `OptimizationBounds.NegativeCapacityCanFail`).
* `previous_month` does not pad the year, so its name for a month before the year 1000 is refused by the loader
  (`Months.PreviousMonthEndsWhereTodayStarts`).
* A request whose process dies after its claim leaves its key in processing for ever: retries get 409
  (`ExactlyOnce.StuckIffOwnerDead`, `ExactlyOnce.RetriesOfTheDeadAreRefused`).

## Model

| member | source | states |
|---|---|---|
| TaskQueue.NextIsUnique | src/task_queue.py:127-132 | the (created_at, task_id) order leaves no choice: at most one task is next |
| TaskQueue.NextExists | src/task_queue.py:114-141 | a claim comes back empty only if no task at all is available or has an expired lease |
| TaskQueue.SelectAfterReclaim | src/task_queue.py:116-135 | taking back expired leases and then selecting an available task finds the first claimable task of the original table, and finds none exactly when there is none, the table then being untouched |
| TaskQueue.ClaimMeans | src/task_queue.py:114-141 | column by column, what a claim returns and leaves: the open task created first, ties by id, with its own kind, customer, payload and next attempt number; every other lease that is over waits again from now on; nothing at all if no task is open |
| TaskQueue.FailureMeans | src/task_queue.py:157-179 | column by column, what a reported failure leaves: retry or final failure by the ticket number, the doubling delay capped at a minute, the first 500 characters of the error |
| TaskQueue.DurableTaskQueue.Enqueue | src/task_queue.py:69-104 | a new key adds one pending row with exactly the given columns; a known key returns the task that has it and changes nothing; a naive timestamp is refused |
| TaskQueue.DurableTaskQueue.Claim | src/task_queue.py:106-141 | the three statements amount to one atomic claim of the open task created first; the ticket carries that row's kind, customer and payload and one attempt more, None iff no task is open; errors change nothing |
| TaskQueue.DurableTaskQueue.Complete | src/task_queue.py:143-155 | only a running task becomes completed; otherwise an error and no change |
| TaskQueue.DurableTaskQueue.Fail | src/task_queue.py:157-179 | a running task goes back to pending behind its back-off, or fails for good once the ticket used up its attempts; any other task is left alone |
| QueueHistory.RunKeepsValid | src/task_queue.py:69-179 | over every run a running task has its claim time and no two tasks share a dedupe key |
| QueueHistory.TasksPersist | src/task_queue.py:69-179 | a task is never lost, its payload never changes, its attempts never shrink, and once completed or failed its row never changes again |
| QueueHistory.UnfinishedBecomesClaimable | src/task_queue.py:114-141 | in every reachable table a task is claimable exactly from a known finite instant on, unless it is finished |
| QueueHistory.LeaseExclusion | src/task_queue.py:106-141 | with one visibility timeout, or longer ones after it, nobody else gets an unreported task before its lease ends, whatever clock readings other operations use |
| QueueHistory.BackoffExclusion | src/task_queue.py:157-179 | after a failure the next claim that returns the task never comes before the back-off is over, whatever reports, timeouts and clock readings lie in between |
| QueueHistory.BackoffExclusionLater | src/task_queue.py:157-179 | nor does any later claim, as long as nobody reports on the task and leases are no shorter |
| QueueHistory.BackoffGrows | src/task_queue.py:168 | the back-off doubles from attempt to attempt up to 60 seconds and never shrinks |
| QueueHistory.RunBounded | src/task_queue.py:106-179 | at every point of a run the attempts made, and the one a pending task has ahead, are covered by the first claim, the failures reported so far whose number allowed a retry, and the expired leases |
| QueueHistory.AttemptsArePaidFor | src/task_queue.py:106-179 | in every run, whoever reports what, the attempts of a task and the one a pending task has ahead are exactly one more than its retries and its lease expiries |
| QueueHistory.WithinLimitIff | src/task_queue.py:106-179 | attempts stay within a limit exactly if the retries and expiries do, one less being left for them unless the task is pending |
| QueueHistory.RetriesAreReported | src/task_queue.py:157-179 | if workers report each ticket at most once, the retries are at most the distinct reported attempts below their limits, hence fewer than the largest limit |
| QueueHistory.LimitCanBeExceeded | src/task_queue.py:106-141 | a run with one permitted attempt in which a task is attempted twice, because its lease expired |
| QueueHistory.AttemptBound | src/task_queue.py:106-179 | if workers report each ticket at most once, attempts never exceed the largest max_attempts among them (or one, if that is less) plus the lease expiries of the task, and a task fails for good only after as many attempts as the smallest says |
| QueueHistory.HandOutsOfNewTask | src/task_queue.py:135-141 | the attempts of a task count the claims that returned it |
| QueueHistory.TicketsCarryTheTask | src/task_queue.py:127-141 | whatever happens between, a ticket for a task carries the kind, customer and payload the task was enqueued with |
| QueueTexts.StoredFormExists | src/task_queue.py:83-98 | every table whose instants datetimes denote has a stored form with texts |
| QueueTexts.TextClaimIsClaim | src/task_queue.py:114-141 | the claim that compares, orders and writes timestamp texts hands out the task that is next by instants, none exactly when there is none, and stores the table after the claim |
| Leases.OwnLeaseIff | src/task_queue.py:106-179 | after any events a claimed task is still running under the same attempt exactly if nobody reported on it and no claim came at or after the end of its lease; its row is then unchanged |
| Leases.RunningIff | src/task_queue.py:106-179 | after any events a task is running exactly if the lease it had, or that of a later hand-out, stands in this sense |
| TaskWorker.ReportRaisesIff | src/task_queue.py:143-155 | a worker whose scan succeeded raises "task is not running" exactly when neither its own lease nor that of a later hand-out stands |
| TaskWorker.CompletesOwnAttemptIff | src/task_queue.py:143-155 | the worker completes its own attempt exactly if everything during its scan kept its lease; a completion that goes through otherwise finishes the attempt of a successor |
| TaskWorker.FailsOwnAttemptIff | src/task_queue.py:157-179 | the same exact condition for a reported failure: which attempt it hits, when it hits none, and that the worker's own ticket number decides between retry and final failure even for a successor's attempt |
| TaskWorker.ReportCanRaise | src/task_queue.py:373-387 | a run in which a second worker claims and completes the task after the lease, so that the first one raises |
| TaskWorker.CompletionCanHitSuccessor | src/task_queue.py:143-155 | a run in which a worker completes the running attempt of its successor |
| TaskWorker.FailureCanHitSuccessor | src/task_queue.py:157-179 | a run in which a worker's late failure sends its successor's running attempt back to pending, or fails the task for good |
| TaskWorker.TurnMeans | src/task_queue.py:373-387 | by the outcome of the scan and the kind of the task: a scan that succeeds completes the task; one that raises, or a task of another kind, is a failure with the error stored; a lost worker, or a task no longer running, leaves the table alone |
| TaskWorker.OutcomeDecides | src/task_queue.py:373-387 | while the lease is kept, success on a scan task ends Completed, anything else ends Pending or Failed with an error and never Completed |
| TaskWorker.TaskWorker.RunOnce | src/task_queue.py:373-387 | with any events of others while the scan is awaited: true iff a task was claimed, an error iff the timeout is rejected or the task to complete is no longer running, and the table is what the outcome of the scan makes of it |
| TaskWorker.TaskWorker.Run | src/task_queue.py:389-394 | the loop takes its turns one after the other, others acting before and during each, and the first turn that raises ends it for good |
| TaskWorker.TurnReducesWork | src/task_queue.py:373-387 | a turn that claims and reports strictly reduces the reports the existing tasks still need, whatever others do meanwhile that keeps its lease; a turn that claims nothing changes nothing |
| TaskWorker.WorkLeftIsSmall | src/task_queue.py:373-387 | that measure is at most max_attempts (or one) for each unfinished task |
| TaskWorker.WorkIsBounded | src/task_queue.py:373-394 | a lone worker that always reports claims at most as often as the measure says, never raises, and so executes at most max_attempts times the unfinished tasks |
| TaskWorker.QueueDrains | src/task_queue.py:373-394 | a lone worker that polls late enough and as often as the measure says brings every task to a terminal state |
| WorkerFleet.TraceRuns | src/task_queue.py:373-394 | to the queue, any interleaving of workers is the series of their claims and reports, so the results on series of events apply |
| WorkerFleet.ReportFinds | src/task_queue.py:373-387 | any number of workers take any steps between a worker's claim and its report: the exact condition under which it still finds its own attempt running, and under which it finds the task running at all |
| WorkerFleet.CompletionRaisesIff | src/task_queue.py:373-387 | the exact condition under which the worker's completion then raises and ends its loop |
| WorkerFleet.FailureHitsIff | src/task_queue.py:373-387 | the exact condition under which its reported failure changes the task, and what it makes of it |
| WorkerFleet.OutcomeDecides | src/task_queue.py:373-387 | among any interleaved workers, while the lease is kept, success on a scan task ends Completed and anything else Pending or Failed with an error |
| WorkerFleet.FleetReportsOnce | src/task_queue.py:373-387 | however workers interleave and stop, every ticket is reported at most once and by the worker that was given it |
| WorkerFleet.ExecutionsAreBounded | src/task_queue.py:106-179 | for any number of workers, each with its own max_attempts and timeout: a task is handed out at most as often as the largest max_attempts (or once) plus the number of its lease expiries, and fails for good only after as many attempts as the smallest |
| WorkerFleet.FleetDrains | src/task_queue.py:373-394 | from every reachable state of the fleet, however workers interleave and stop and whatever is enqueued meanwhile: once the late polls since then outnumber the hand-outs still possible, one of them has found every task finished or in the hands of a live worker |
| PostgresQueue.StepsAreAtomic | src/task_queue.py:234-313 | row-by-row interleaving of claims, completes and fails looks, in the committed table, like one whole operation at each commit and nothing in between |
| PostgresQueue.StepKeepsInv | src/task_queue.py:234-313 | every statement of every transaction keeps row locks exclusive, uncommitted rows explained by the committed ones, and one ticket per attempt |
| PostgresQueue.NoDuplicateOwnership | src/task_queue.py:234-273 | in every interleaving no two transactions hold the same row and no two tickets are for the same attempt of a task; every attempt has its ticket, and a ticket carries its task's kind, customer and payload |
| PostgresQueue.ConcurrentLeaseExclusion | src/task_queue.py:234-273 | of two claims of an unreported task, even overlapping ones, the later one read a clock at or after the end of the earlier lease |
| Optimization.PlanServesByExpiry | src/optimization.py:89-100 | the assignments name the batches of the request in the order of days left, ties by id, each with an allowed action and at most its stock; the coverage is the allocated share of the stock, or 1 without stock |
| Optimization.PriorityBaseline | src/optimization.py:83-104 | the loop gives the greedy plan of the batches in the order of expiry, with its coverage, and an error exactly when a quantity would be negative |
| Optimization.GreedyPrefix | src/optimization.py:89-100 | the plan of a prefix of the queue is the prefix of the plan: later batches never change earlier assignments |
| OptimizationBounds.FailsIffAllClosed | src/optimization.py:30-35 | planning fails exactly when some batch has no allowed action with non-negative capacity |
| OptimizationBounds.NegativeCapacityCanFail | src/optimization.py:30-35 | a request with a negative capacity that cannot be planned |
| OptimizationBounds.UsePlusRemaining | src/optimization.py:86-93 | what an action was given and what it has left always add up to its capacity |
| OptimizationBounds.PlanIsFeasible | src/optimization.py:83-104 | each batch is assigned once, to an allowed action, between nothing and its stock, and no action is used beyond its capacity |
| OptimizationBounds.GreedyIsHalfOptimal | src/optimization.py:83-104 | for every feasible rival plan, and for every prefix of the urgency order, twice the greedy total is at least the rival's |
| OptimizationBounds.HalfIsReached | src/optimization.py:83-104 | the factor two cannot be improved: a request on which a rival allocates exactly twice as much |
| OptimizationBounds.InputOrderIrrelevant | src/optimization.py:89 | with distinct batch ids the plan does not depend on the order in which the batches are given |
| OptimizationBounds.SharedActionFillsInOrder | src/optimization.py:83-104 | batches that share a single action receive min(stock so far, capacity) in expiry order |
| OptimizationBounds.SharedActionUrgentFirst | src/optimization.py:89-93 | with a single shared action a batch gets less than its stock only if every batch with more days left gets nothing |
| OptimizationBounds.EachChoiceIsGreedy | src/optimization.py:90-93 | each batch gets the first of its allowed actions with the most capacity left by the assignments before it, and the lesser of that and its stock |
| OptimizerGate.SumByAction | src/optimization.py:124-126 | the tally of an action is the sum of its assignments |
| OptimizerGate.CoverageInRange | src/optimization.py:101-104 | the coverage rate lies between 0 and 1 |
| OptimizerGate.UseWithinCapacity | src/optimization.py:127-129 | the capacity test of the gate holds for every plan the allocator makes |
| OptimizerGate.PlanCoversBatches | src/optimization.py:121-123 | the completeness test holds for every plan |
| OptimizerGate.Inspect | src/optimization.py:117-129 | one evaluation case: determinism, completeness and capacity safety always hold |
| OptimizerGate.EvaluateOptimizer | src/optimization.py:107-145 | the gate passes iff the minimum coverage of the cases meets the threshold; errors exactly for no cases, an unplannable case or a threshold outside 0..1 |
| WorkOrders.ChangesProgress | src/models/work_order.py:21-113 | a status change keeps the order valid, identity and creation time fixed, follows the transition table and uses up one of at most two changes; completion succeeds iff the order is in progress and the receipt is not older than it |
| Stores.TransitionMeans | src/models/work_order.py:89-97 | an existing readable order takes exactly the requested status, Pending to InProgress or Cancelled and InProgress to Cancelled, at an instant not before its creation; only status and update time change; each other case has its error |
| Stores.CompletionMeans | src/models/work_order.py:99-113 | exactly an order in progress takes a receipt not older than itself; its decision takes the quantity and savings; each other case has its error |
| Tables.SQLiteDatabase.InsertDecision | src/persistence/migrations.py:68-73 | a decision is inserted iff its key is not taken, under the next id |
| Tables.SQLiteDatabase.InsertOrder | src/persistence/migrations.py:75-88 | an order is inserted iff its id, its decision and its (customer, batch) are free and the decision exists |
| Stores.DecisionStore.Save | src/persistence/decision_store.py:70-77 | one more decision without a key, nothing else changed |
| Stores.DecisionStore.RecordApproval | src/persistence/decision_store.py:103-179 | both rows or neither; a repeated approval of a batch returns the order it already has; an unexplained clash is raised; the three refusals |
| Stores.WorkOrderStore.Transition | src/persistence/work_order_store.py:82-110 | the row takes the requested status and time and keeps every other column, or nothing changes and the error says why |
| Stores.WorkOrderStore.Complete | src/persistence/work_order_store.py:112-155 | the order and its decision change together, or not at all |
| Stores.OptimizationPlanStore.Save | src/persistence/optimization_store.py:38-51 | a plan is stored iff its id is new |
| Stores.OptimizationPlanStore.Execute | src/persistence/optimization_store.py:62-134 | the statement loop amounts to one whole execution or, on any error, to no change |
| StoreRuns.ApprovalKeepsConsistentIff | src/persistence/decision_store.py:103-162 | recording an approval of a valid order keeps the cross-table invariant iff the order is not already completed or nothing is inserted |
| StoreRuns.CompletedApprovalBreaks | src/persistence/decision_store.py:103-162 | an accepted approval with a completed order that breaks the invariant on empty tables |
| StoreRuns.StepKeepsConsistent | src/persistence/work_order_store.py:82-155 | every operation of the three stores keeps the constraints and the cross-table invariant |
| StoreRuns.ReachableIsConsistent | src/persistence/work_order_store.py:112-155 | in every reachable state an order has its own approved decision of the same customer, batch and action, no two share a decision or a (customer, batch), receipts exist exactly for completed orders and equal the decision's actual values |
| StoreRuns.OrderStep | src/models/work_order.py:21-26 | an order row survives every operation unchanged or one legal step further, still linked to the same decision |
| StoreRuns.AtMostTwoChanges | src/models/work_order.py:21-26 | over any run an order changes status at most twice |
| StoreRuns.ExecutedOnce | src/persistence/optimization_store.py:62-79 | over any run a plan is executed at most once |
| PlanExecution.ExecutionSucceedsIff | src/persistence/optimization_store.py:62-134 | an execution succeeds iff the plan is pending, its batches are known and no key, order or batch clashes, with the tables or within the plan |
| PlanExecution.AllOrNothing | src/persistence/optimization_store.py:62-134 | on success exactly the assignments with a quantity gain one decision and one linked pending order each and the plan is executed; on any error the three tables are as before |
| PlanExecution.BaselinePlanIsEnactable | src/api/router.py:199-211 | for a plan of the allocator over distinct batches the batch lookup never fails, and only rows already in the tables can obstruct it |
| Idempotency.IdempotencyStore.Claim | src/persistence/idempotency_store.py:47-76 | the first claim of a key wins; later ones get the record and change nothing |
| Idempotency.IdempotencyStore.Complete | src/persistence/idempotency_store.py:78-88 | only a record in processing takes a response |
| Idempotency.IdempotencyStore.Release | src/persistence/idempotency_store.py:90-94 | only a record in processing is removed |
| Idempotency.Handle | src/api/router.py:247-363 | an undisturbed request runs its effect once and stores the answer, replays a stored one, refuses a busy key, and frees the key after a failure |
| ExactlyOnce.StepKeepsInv | src/webhook/router.py:115-183 | every step of every request keeps: one owner per key in processing, effects only under a claim, answers equal to the record |
| ExactlyOnce.EffectAtMostOnce | src/api/router.py:247-363 | in every interleaving with crashes anywhere, the effect of a key succeeds at most once |
| ExactlyOnce.CompletedIsForever | src/persistence/idempotency_store.py:78-94 | a completed record never changes or disappears |
| ExactlyOnce.RepliesNeverDiffer | src/api/router.py:247-260 | all answers ever given for a key are the same response |
| ExactlyOnce.LaterRequestsReplay | src/api/router.py:247-260 | after the first answer every later request replays it and runs nothing |
| ExactlyOnce.ClaimStillActive | src/persistence/idempotency_store.py:78-88 | a request that gets to complete always still has its claim |
| ExactlyOnce.RetryOnlyAfterRelease | src/webhook/router.py:166-183 | a failed and released key can be claimed again; the key of a crashed request is in processing |
| ExactlyOnce.StuckIffOwnerDead | src/api/router.py:247-260 | a key in processing stays so through every continuation exactly if the request that claimed it has crashed |
| ExactlyOnce.RetriesOfTheDeadAreRefused | src/api/router.py:247-260 | after a crash every retry of the key, however much later, gets no reply, runs nothing and changes no record |
| Timestamps.BeforeIffEarlier | src/task_queue.py:116-132 | the calendar fields order instants, and determine them |
| Timestamps.TextOrderIsTimeOrder | src/task_queue.py:116-132 | the stored texts, with and without fraction, compare as the instants do |
| Timestamps.FromIsoFormatInverse | src/persistence/decision_store.py:196-208 | reading a stored text gives back the instant that was written |
| TimedTables.ListForPeriodMeansInstants | src/persistence/decision_store.py:79-101 | the query on texts, read back, is the list of the records in the half-open window in time order |
| TimedTables.LatestMeansInstants | src/persistence/suggestion_store.py:82-111 | the row found is a latest one at or before the instant, and none is found iff there is none |
| TimedTables.SecurityAuditStore.Record | src/persistence/audit_store.py:75-91 | one more event under a new id, none under a known one |
| TimedTables.SecurityAuditStore.PurgeBefore | src/persistence/audit_store.py:120-127 | exactly the older rows go, and the result is their number |
| TimedTables.PurgeMeansInstants | src/persistence/audit_store.py:120-127 | what remains is exactly the events at or after the cutoff |
| RateLimits.WindowIsTail | src/runtime/security.py:73-76 | popping expired events from the left leaves just the events of the window |
| RateLimits.SlidingWindowRateLimiter.Allow | src/runtime/security.py:70-80 | a request is allowed exactly if fewer than limit events of its key were ever allowed or the limit-th last of them has left the window; it is then remembered, and other keys are untouched |
| RateLimits.RefusedOnlyWhenFull | src/runtime/security.py:70-80 | over a series of requests exactly those are refused at which limit allowed events lie in the window |
| RateLimits.AllowedAreSpaced | src/runtime/security.py:70-80 | any limit + 1 consecutive allowed events of a key span at least the window |
| RateLimits.PostgresRateLimiter.Allow | src/persistence/postgres.py:239-290 | for nondecreasing clocks a request is allowed exactly if fewer than limit requests of its key were allowed before in the same aligned window, and the table holds exactly these numbers, with no older window |
| RateLimits.FirstLimitAllowed | src/persistence/postgres.py:239-290 | although old windows are deleted each key gets exactly min(requests, limit) per aligned window |
| RateLimits.AtMostTwiceTheLimit | src/persistence/postgres.py:239-290 | no interval of one window length holds more than twice the limit of allowed requests |
| Migrations.BodiesAt | src/persistence/migrations.py:272-273 | the executed statements are those of each migration in its place, given by the lengths of the earlier bodies, and no others |
| Migrations.Migrate | src/persistence/migrations.py:257-280 | one migration is applied with its marker, skipped when marked, or leaves no trace |
| Migrations.RunMigrations | src/persistence/migrations.py:233-285 | from any partial state of a release, wherever it fails, a run leaves a partial state at least as far, and succeeds only with its whole list applied |
| Migrations.RunReleases | src/persistence/migrations.py:233-285 | any series of interrupted starts of prefixes, then one successful start, gives the schema and markers of one clean run, each body applied once |
| Migrations.OverlappingStartsAgree | src/persistence/migrations.py:233-285 | the same when several programs migrate one database at once |
| ScanRunner.NeverStuck | src/scheduler/runner.py:112-125 | until every job is done some job can go on |
| ScanRunner.EveryScheduleAgrees | src/scheduler/runner.py:112-127 | in every schedule at most max_concurrency calls are in flight, all end after two steps per alert, and the outcomes do not depend on the schedule |
| ScanRunner.Gather | src/scheduler/runner.py:126-127 | any schedule ends and yields the outcomes in alert order |
| ScanRunner.AlertsAt | src/scheduler/runner.py:109-114 | the alerts are those of the batches that raise one, in the order of the batches, and no others |
| ScanRunner.PartitionSizes | src/scheduler/runner.py:128-141 | every alert ends as a suggestion with its card or as an error |
| ScanRunner.PartitionAt | src/scheduler/runner.py:128-141 | suggestions, cards and errors are each in alert order, cards matching suggestions |
| ScanRunner.Merge | src/scheduler/runner.py:128-141 | the loop over the gathered outcomes: the store receives exactly the suggestions, in alert order |
| ScanRunner.RunForCustomer | src/scheduler/runner.py:78-169 | the merged result, and what the suggestion store receives, depend only on the alerts and their outcomes |
| ErpPaging.PagedErpRepository.FetchWithRetry | src/repository/erp.py:177-189 | at most max_retries + 1 calls, waiting delay * (2^k - 1) after k recoverable failures; permanent failures are not retried |
| ErpPaging.PagedErpRepository.LoadBatches | src/repository/erp.py:159-175 | with finitely many cursors the load ends within one page more than there are cursors; success is the pages in order along a chain of distinct cursors with distinct batch ids; each error has its cause in the chain, or in the client's last answers at the cursor the chain goes on with |
| ErpPaging.BatchesAt | src/repository/erp.py:165 | the loaded batches are the items of the pages in order, item by item, and no others |
| ErpPaging.BudgetInClosedForm | src/repository/erp.py:177-189 | the budget of a load is pages * (max_retries + 1) calls and pages * delay * (2^max_retries - 1) of waiting |
| Months.WindowOfMonth | src/reports/sources.py:25-63 | a month's window runs from its own start to the start of the next month, over the year's end too; year 0 and December 9999 are refused |
| Months.OnlyMonthTextsParse | src/reports/sources.py:25-32 | only the months' own names, with or without a final newline, are read as a month |
| Months.PreviousMonthEndsWhereTodayStarts | src/reports/runner.py:35-39 | the previous month's window ends where today's month starts, from the year 1000 on |
| Months.ExactlyOneMonth | src/reports/sources.py:49-63 | each instant of a span of months lies in exactly one of them |
| MonthlyReports.GroupByAction | src/reports/aggregator.py:111-114 | grouping keeps, per action, exactly its decisions in their order, keys in order of first appearance |
| MonthlyReports.MonthNames | src/reports/aggregator.py:19 | a report is made exactly for the plain name of a month |
| MonthlyReports.AggregateMonthlyReport | src/reports/aggregator.py:78-147 | the counting, summing and grouping loops produce the report whose figures the next lemmas state; a malformed month and a negative baseline are refused |
| MonthlyReports.ReportGrows | src/reports/aggregator.py:97-109 | decision by decision, what each adds to the counts, the estimates and the verified savings, according to its outcome and receipt |
| MonthlyReports.ReportRatios | src/reports/aggregator.py:26-34 | the approval rate, the monthly fee by the three tiers of the yearly loss, and the return on it |
| MonthlyReports.ReportIsWellFormed | src/reports/aggregator.py:48-69 | the report satisfies the field constraints of its model |
| MonthlyReports.TopActionsLoseNothing | src/reports/aggregator.py:111-125 | the tallies shown are those of all actions with an approved decision, best first; together they account for every approved decision and all verified savings, so the cut to five drops nothing |
| MonthlyReports.TopActionsBestFirst | src/reports/aggregator.py:125 | no action shown saved more than one shown before it |
| MonthlyReports.CaseStudiesAreTheBest | src/reports/aggregator.py:127-128 | up to three verified decisions, none left out having saved more |
| MonthlyReports.ListForPeriodIsTheWindow | src/persistence/decision_store.py:79-101 | the list holds exactly the window's decisions in time order |
| ReportSource.TextQueryFeedsReports | src/reports/sources.py:53-63 | the decisions a report is made from are exactly those the store's query on stored texts returns, read back and in the same order |
| MonthlyReports.MonthsTile | src/reports/sources.py:49-63 | the monthly lists one after the other are the list of the whole span |
| MonthlyReports.ReportsAddUp | src/reports/aggregator.py:97-109 | the verified savings of consecutive monthly reports sum to those of the whole span |

## Left out

- FromIsoFormat: reads only the layout the stores write; the other ISO 8601 forms Python accepts are not modelled, because no store writes them.
- AttemptBound: assumes that workers report only tickets they were given and each at most once, because the queue itself does not check; `WorkerFleet.FleetReportsOnce` proves it of every fleet of workers.
- LoadBatches: takes the finite set of cursors as given, because with an unbounded supply of fresh cursors the code does not end.
- AllOrNothing: the note text of a plan's decision leaves out the formatted quantity, because float formatting is not modelled.
- AllowedAreSpaced: assumes nondecreasing clock readings per limiter, as the monotonic clock gives them; so do FirstLimitAllowed and AtMostTwiceTheLimit.
- ParseMonth: reads ASCII digits only; the pattern also admits other Unicode digits.
- WindowOfMonth: the overflow of a window start near the years 1 and 9999 when it is converted to UTC is not modelled.
- The refusal of naive timestamps by `latest_for_batch_at`.
- Overflow of timestamps in the queue (the claim's cutoff included), and naive `now` values in `complete` and `fail`, which are converted as local time.
- `counts` of the queue, listing and getter queries, and the JSON form of payloads, plans and responses.
- The order in which PostgreSQL's SELECT picks a task: the model lets it pick any available one, so the exclusion results hold for every choice.
- Rounding of floating-point quantities, savings and waits.
- The PostgreSQL adapters for decisions, work orders, plans and suggestions, which repeat the SQLite ones without their locking.
- What an effect that raises has already written before it raised, and exceptions of the card renderer or of the store inside a scan.
- `run_monthly_reports` writing files, and the skipping of customers without decisions.
- Revision sessions, LLM providers, prompts, message cards, PDF rendering, HTTP wiring, authentication, settings, plugins, metrics and cron firing: input and output, text, or third-party code.
