# Verified models of five stateful engines

This project models, in Dafny, the parts of the repository whose correctness depends on more than one function, and
proves what they promise over all inputs and all runs.

* **Job queue with leases** (`Jobs`, `JobHistory`, `Backoff`, `Selection`, `JobStore`, `JobRuns`, `Recovery`,
  `Heartbeat`, `Submissions`, `JobView`, `JobQueue`, `Worker`, `JobStories`).  The `jobs` table is a state machine
  whose steps are what PostgreSQL does atomically; a claim or a recovery is a lock step and a commit step.  Every row
  carries a log of the statements that took effect on it, and each guard the queue evaluates is shown to mean something
  about that log.
  `JobQueue.JobTable` and `Worker.JobWorker` are the imperative code; their ghost `steps` is the run they perform, so
  what is proved of runs holds of every sequence of calls.
* **Inventory ledger** (`Ledger`, `LedgerRuns`, `Inventory`, `LockOrder`).  Balances, the append-only movement log,
  reservations owned by order references, and the row locks the operations take.
* **Orders over two stores** (`Sagas`, `SagaBooks`, `SagaRuns`, `SagaLines`, `SagaLeaks`, `OrderCalls`,
  `OrderService`, `OrderBuilding`).  Creation and cancellation as sagas: a remote call returns, raises without effect
  or raises after taking effect, a local commit may fail, and any number of requests interleave call by call.
  `OrderService` is the imperative code of one request; its calls are shown to be the steps of one saga.
* **Rate limiter** (`RateLimiter`).  The pruned queue is proved against the history of admissions that is never pruned.
* **Sensor server** (`Framing`, `SystemState`, `SensorMonitor`).  Newline framing over chunks, the timeout tracker of a
  connection, and the manager's cached state.
* **Nearest-rank percentile** (`Percentile`).

`Sums`, `Options` and `Faults` are shared vocabulary.  Check the project with `dafny verify dfyconfig.toml`.

Where the code and its documentation differ, the model follows the code:

* The rate limiter calls itself fixed-window; it is an exact sliding log, and that is what is proved.
* `_cancel_order` keeps the order's row lock only until its rollback, so its re-reservations run without it; a second
  cancellation may start meanwhile, and the saga model allows that.
* A worker id names a process, not a slot, so ownership is fenced per process; see
  `JobStories.SlowSlotEndsTheOthersClaim`.  A report ends the claim its slot was given exactly when the row still shows
  that claim's attempt count, which the code does not compare.
* One state transition is never logged: the change a recovery from a timeout makes, because the previous state is read
  after the fault has been cleared.

## Model

| member | source | states |
|---|---|---|
| JobRuns.ReportTakesEffectIffLeaseHeld | distributed-job-processing-system/src/job_system/queue.py:105-237 | In every reachable store a renewal, success or failure report changes something exactly when its worker id made the latest claim, only renewals followed, the report is stamped before the lease they set, and no transaction has the row locked |
| JobHistory.OwnsIffHoldsLease | distributed-job-processing-system/src/job_system/queue.py:121-137 | The WHERE clause shared by the three reports holds of a row if and only if its log says the worker holds the lease at that time |
| JobHistory.StaleIffExpired | distributed-job-processing-system/src/job_system/queue.py:256-264 | Recovery selects a row if and only if a claim is open and its last lease has run out; the null-lease branch is never taken |
| Jobs.RowStepOk | distributed-job-processing-system/src/job_system/queue.py:89-301 | Every guarded statement leaves the row an exact image of a legal log and keeps the submitted fields |
| JobHistory.OutcomeNeedsClaim | distributed-job-processing-system/src/job_system/queue.py:150-202 | Between any two outcomes of a job lies a claim, so a claim has at most one outcome |
| JobHistory.ClaimsAlternateWithOutcomes | distributed-job-processing-system/src/job_system/queue.py:89-303 | At every point of a job's log claims exceed outcomes by one exactly while the job runs, and are equal otherwise |
| JobHistory.StatusChangesBounded | distributed-job-processing-system/src/job_system/queue.py:11-19 | Claims and outcomes together are at most twice the allowed attempts |
| JobHistory.StepUsesUpWork | distributed-job-processing-system/src/job_system/queue.py:89-99 | A natural-number measure falls on every effective step but renewals, and is zero exactly for finished jobs |
| JobRuns.FinishedJobsNeverChange | distributed-job-processing-system/src/job_system/queue.py:105-303 | Succeeded and dead-lettered rows are identical after any run |
| JobRuns.RowsOnlyGrow | distributed-job-processing-system/src/job_system/queue.py:43-303 | No run shortens a job's log or alters its submitted fields |
| JobRuns.AttemptsAreBounded | distributed-job-processing-system/src/job_system/queue.py:89-99 | In every reachable store attempt_count is the number of claims, claims are outcomes plus one if RUNNING, and claimable jobs have attempts left |
| JobRuns.ChangesBounded | distributed-job-processing-system/src/job_system/queue.py:11-19 | However the steps of all workers interleave, a job changes status at most 2 * max_attempts times |
| JobHistory.NextClaimWaits | distributed-job-processing-system/src/job_system/queue.py:217-230 | With no assumption on clocks: the next claim is stamped at least the failure time plus backoff, or at least the expiry of the lease recovery took over |
| JobHistory.ClaimsWaitIffFloorsKept | distributed-job-processing-system/src/job_system/queue.py:211-230 | Exactly when the spacing of all claims is certain: every claim the queue can ever accept respects all earlier waits if and only if no report or recovery made the job available before an earlier one allowed |
| JobRuns.ClaimsWaitInEveryStore | distributed-job-processing-system/src/job_system/queue.py:211-294 | The same for every job of every reachable store |
| JobHistory.FailureKeepsFloorsIff | distributed-job-processing-system/src/job_system/queue.py:213-229 | The condition on a failure report, evaluated before it: its time plus backoff is no earlier than any earlier wait |
| JobHistory.RecoveryKeepsFloorsIff | distributed-job-processing-system/src/job_system/queue.py:285-294 | The condition on a recovery: its time is no earlier than any earlier wait |
| JobHistory.NextClaimWaitsIffAvailableLate | distributed-job-processing-system/src/job_system/queue.py:66-74 | Read off a row: whoever may claim it now has waited, if and only if available_at is late enough |
| JobHistory.ClaimsOfLogWait | distributed-job-processing-system/src/job_system/queue.py:66-74 | When that certainty holds, every claim in the log has waited for everything before it |
| JobHistory.LaterClaimsWait | distributed-job-processing-system/src/job_system/queue.py:217-230 | Corollary: reports stamped no earlier than the claims they report on suffice |
| JobStories.LaterClaimNeedNotWait | distributed-job-processing-system/src/job_system/queue.py:188-230 | Without the condition it fails: a run of the store from the empty table, for any job with three attempts, whose third claim precedes an earlier backoff |
| Backoff.DelayIsClampedDoubling | distributed-job-processing-system/src/job_system/queue.py:22-31 | The delay equals doubling clamped at the maximum at each step |
| Backoff.DelayMonotone | distributed-job-processing-system/src/job_system/queue.py:22-31 | The delay grows with the attempt and never exceeds the maximum |
| Backoff.TotalDelayBound | distributed-job-processing-system/src/job_system/queue.py:22-31 | Over m attempts the delays total at most base * (2^(m-1) - 1), with equality while the cap is not reached |
| JobStore.RunOk | distributed-job-processing-system/src/job_system/queue.py:43-303 | Every run of every number of workers keeps the store invariant: rows agree with their logs, locked rows still satisfy the WHERE clause they were selected by, no row is locked twice, keys are unique |
| Selection.TakeIsSelection | distributed-job-processing-system/src/job_system/queue.py:75-83 | The selection is sorted, has min(limit, eligible) rows, and no eligible row left behind comes before one taken |
| Selection.SelectionUnique | distributed-job-processing-system/src/job_system/queue.py:75-83 | The sort keys and the limit determine the selection |
| JobRuns.ClaimTakesTheFirst | distributed-job-processing-system/src/job_system/queue.py:63-87 | The locking SELECT takes the first unlocked eligible rows by priority down, available, created and id up, and changes no row |
| JobView.ClaimsByFields | distributed-job-processing-system/src/job_system/queue.py:63-87 | Read off the rows: the SELECT takes due, waiting, unlocked jobs of the given queues, in the order of priority, availability, creation and id, and leaves one only at the limit |
| JobRuns.LockedRowsWait | distributed-job-processing-system/src/job_system/queue.py:81-89 | Until a claim ends, no step of anybody else changes a row it locked or locks it again |
| JobRuns.ClaimCommitsWhatItLocked | distributed-job-processing-system/src/job_system/queue.py:61-103 | Whatever happens between lock and commit, exactly the selected rows are claimed, as they were when selected, and the commit touches no other row |
| Recovery.OldestFirst | distributed-job-processing-system/src/job_system/queue.py:265-271 | Whatever transactions are open, a recovery takes all that has been stale since an earlier time and that nobody has locked before it takes anything newer |
| Recovery.RoundShrinksBacklog | distributed-job-processing-system/src/job_system/queue.py:254-303 | With any steps of others before it and between its lock and its commit, a committing wake-up leaves of the backlog only what others had locked, or takes a full batch of it; no wake-up adds to it |
| Recovery.RecoveryDrains | distributed-job-processing-system/src/job_system/worker.py:87-121 | A whole loop under interference: a full batch per committing wake-up, or at one of them all that is left was locked by others |
| Recovery.LoneRecoveryDrainsAll | distributed-job-processing-system/src/job_system/worker.py:87-121 | When nothing is ever locked by others, enough committing wake-ups leave nothing that was stale |
| Recovery.LockedStaleIsBeingRecovered | distributed-job-processing-system/src/job_system/queue.py:269-270 | A stale row that somebody has locked is in the transaction of a recovery |
| Recovery.RecoveriesAreCounted | distributed-job-processing-system/src/job_system/queue.py:295-303 | Over every run, the recoveries in the logs of all jobs are exactly the rows of the committed recoveries |
| Recovery.CountsAddUp | distributed-job-processing-system/src/job_system/worker.py:94-108 | The loop totals, plus what others and raising rounds recovered, are exactly the recoveries that happened |
| Recovery.RecoveryTakesOnlyStale | distributed-job-processing-system/src/job_system/queue.py:254-301 | A recovery takes only unlocked jobs stale at its time and recovers exactly those, as they were when it locked them, whatever happens until its commit; other rows are untouched |
| JobView.RecoversByFields | distributed-job-processing-system/src/job_system/queue.py:256-272 | Read off the rows: recovery takes unlocked running jobs whose lease is over or missing, earliest lease first, and leaves one only at the limit |
| Heartbeat.HeartbeatsKeepTheJob | distributed-job-processing-system/src/job_system/config.py:70-77 | With the interval below the lease and the own beats in time, and recoveries stamped before the lease runs out, every renewal is accepted, a report before the lease would be, and no step of anybody selects the job; other clocks are free |
| Heartbeat.BeatInTime | distributed-job-processing-system/src/job_system/queue.py:105-137 | One step in time keeps the job held, and a renewal in time is accepted |
| Heartbeat.RoundKeepsTheJob | distributed-job-processing-system/src/job_system/worker.py:158-191 | One round of the heartbeat in time, with what others do before it: the renewal is not refused and the job is held as of the last renewal sent |
| Submissions.FirstSubmissionWins | distributed-job-processing-system/src/job_system/repository.py:29-71 | After any run of submissions and worker steps the answer and the returned job are those decided by the first submission with the key; anything but a creation changes nothing |
| Submissions.FirstWithKeyIsFirst | distributed-job-processing-system/src/job_system/repository.py:53-66 | What that rule calls the first submission is the earliest valid one with the key |
| Submissions.FirstWinsByWork | distributed-job-processing-system/src/job_system/services.py:27-60 | Over the submissions of a run: a replay if and only if the first with the key asked for the very same work, a conflict if and only if it asked for other work, whatever the difference |
| Submissions.JobsAreKeysPlusKeyless | distributed-job-processing-system/src/job_system/repository.py:35-63 | The table holds one job per distinct key plus one per submission without a key |
| Submissions.AnswerDecidesEffect | distributed-job-processing-system/src/job_system/services.py:51-67 | A replay, a conflict and a refusal leave the table as it is; a creation adds exactly one queued row |
| JobQueue.JobTable.CreateJob | distributed-job-processing-system/src/job_system/services.py:45-67 | In terms of the rows: the same work under the same key, compared as a whole, is answered with its job; other work under a taken key is refused; anything else within the bounds adds exactly the new queued row, and nothing but a creation changes the table. One step of the run |
| JobQueue.JobTable.FindKey | distributed-job-processing-system/src/job_system/repository.py:65-66 | The lookup loop returns a row that owns the key, or shows there is none |
| JobQueue.JobTable.LockClaim | distributed-job-processing-system/src/job_system/queue.py:53-87 | The locking SELECT opens one transaction on waiting, unlocked jobs of the given queues, first ones first, and changes no row |
| JobQueue.JobTable.CommitClaim | distributed-job-processing-system/src/job_system/queue.py:89-103 | The update loop over the locked rows is one commit step of the run and gives up the locks |
| JobQueue.JobTable.LockStale | distributed-job-processing-system/src/job_system/queue.py:247-275 | The locking SELECT of recovery opens one transaction on unlocked running jobs whose lease is over, oldest lease first, and changes no row |
| JobQueue.JobTable.CommitRecovery | distributed-job-processing-system/src/job_system/queue.py:277-303 | The update loop is one commit step, its counters count the rows it retried and dead-lettered, and the locks are given up |
| JobQueue.JobTable.ClaimJobs | distributed-job-processing-system/src/job_system/queue.py:43-103 | A whole claim, with any steps of others before its commit: it takes due, waiting, unlocked jobs of the worker's queues only, in order; it leaves such a job only when it took its limit of earlier ones; every field of each claimed row is stated |
| JobQueue.JobTable.RecoverStaleJobs | distributed-job-processing-system/src/job_system/queue.py:240-303 | A whole recovery, with any steps of others before its commit: it takes unlocked running jobs whose lease is over, oldest first, and leaves one only when it took its limit; each is counted once, by what became of it; every field of each recovered row is stated |
| JobQueue.JobTable.RenewLease | distributed-job-processing-system/src/job_system/queue.py:105-137 | Accepted if and only if the job runs under an unexpired lease of this worker; then exactly lease, heartbeat and update time change |
| JobQueue.JobTable.MarkSucceeded | distributed-job-processing-system/src/job_system/queue.py:139-174 | Accepted under the same condition; then the row is SUCCEEDED with the given result, no error and no lease, and all else is unchanged |
| JobQueue.JobTable.MarkFailed | distributed-job-processing-system/src/job_system/queue.py:176-238 | Accepted under the same condition; then the row waits for its backoff if the error is retryable and attempts are left, and is dead-lettered otherwise, with the error cut to 4000 characters; returns its status |
| Worker.JobWorker.ProcessJob | distributed-job-processing-system/src/job_system/worker.py:193-303 | The reports sent are told from what happened: a result once, a handler's error with its own word on retrying, a success report that raised followed by a retryable failure report. At most one is accepted, an accepted success stands, and the accepted report ends the claim the slot was given if and only if the row still shows the attempt count of that claim |
| JobHistory.ReportEndsClaim | distributed-job-processing-system/src/job_system/queue.py:139-237 | A report ends the claim that was the latest when the slot got the job if and only if the attempt count is unchanged, if and only if the process has not claimed the job again |
| Worker.JobWorker.RunSlotRound | distributed-job-processing-system/src/job_system/worker.py:128-147 | A slot gets the waiting job of its queues that comes before all others, if there is one, processes it and no other, and its report ends that claim exactly when the attempt count is still the claim's; a claim that raised after its commit leaves the job running and unprocessed |
| Worker.JobWorker.MaintainLease | distributed-job-processing-system/src/job_system/worker.py:151-191 | Every beat whose renewal reaches the database and finds the row unlocked renews the lease from its own time for the whole duration; the loop ends early exactly at a refused renewal; with beats at most the interval apart and recoveries in time the lease is never lost and lasts from the last beat of the script |
| Worker.JobWorker.SendBeat | distributed-job-processing-system/src/job_system/worker.py:158-191 | One beat after any steps of others: a renewal stamped with its own time for the whole lease, unless it raised before or the row was locked; refused exactly when the job is no longer held |
| Worker.ScriptReports | distributed-job-processing-system/src/job_system/worker.py:218-272 | Which reports are sent, in terms of what the handler and the two calls did |
| Worker.JobWorker.RunRecoveryLoop | distributed-job-processing-system/src/job_system/worker.py:87-121 | Between and during wake-ups anybody may do anything and recoveries may raise or roll back: each total counts its own kind of job, both and what escaped them are exactly the recoveries that happened, and the backlog drains by full batches or down to what others had locked |
| Worker.JobWorker.WakeUp | distributed-job-processing-system/src/job_system/worker.py:92-111 | One wake-up under the four ways it can end: the two totals count, each by the attempts left, the jobs of a recovery that committed, and its transaction never stays open |
| Worker.SuccessStands | distributed-job-processing-system/src/job_system/worker.py:219-303 | After a committed success no step changes the row and no report of anybody is accepted |
| JobStories.SlowSlotEndsTheOthersClaim | distributed-job-processing-system/src/job_system/worker.py:73-83 | Fencing is per worker id: in a run of the store a slot whose lease lapsed ends the claim of another slot of its process, which the attempt count shows |
| LedgerRuns.EveryReachableLedgerAgrees | production-warehouse-microservices/services/inventory-service/app/services/stock.py:252-589 | In every ledger reachable from an empty one balances are the sums of their log, after-fields its prefix sums, 0 <= reserved <= on hand, transfers are paired, and their ids tell them apart exactly when fresh ones were drawn |
| LedgerRuns.LedgerAlwaysAgrees | production-warehouse-microservices/services/inventory-service/app/services/stock.py:252-589 | The same from any agreeing ledger, and the log is only appended to |
| LedgerRuns.TransactOk | production-warehouse-microservices/services/inventory-service/app/services/stock.py:252-589 | Each operation keeps the ledger invariant |
| LedgerRuns.ReservedPartition | production-warehouse-microservices/services/inventory-service/app/services/stock.py:108-133 | Reserved stock is the sum of what each reference still holds; each share is nonnegative and at most the whole |
| LedgerRuns.ReleaseAcceptedUpToOutstanding | production-warehouse-microservices/services/inventory-service/app/services/stock.py:442-467 | A release is accepted exactly up to its reference's own amount, so the defensive minimum never cuts below it |
| LedgerRuns.ReserveAcceptedIff | production-warehouse-microservices/services/inventory-service/app/services/stock.py:369-395 | A reservation is accepted exactly when its reference holds nothing and enough is free |
| LedgerRuns.OwnerCanAlwaysRelease | production-warehouse-microservices/services/inventory-service/app/services/stock.py:427-496 | No operations on other references can make an owner's release fail |
| LedgerRuns.StockIsConserved | production-warehouse-microservices/services/inventory-service/app/services/stock.py:499-589 | A product's stock over all warehouses is receipts minus issues; transfers cancel out |
| LedgerRuns.RunsConserveStock | production-warehouse-microservices/services/inventory-service/app/services/stock.py:252-352 | In terms of the requests alone: after any run from an empty ledger a product has, over all warehouses, the quantities of its accepted receipts minus those of its accepted issues |
| LedgerRuns.FreshDrawsKeepIdsApart | production-warehouse-microservices/services/inventory-service/app/services/stock.py:534 | No two transfers share an id if and only if every transfer that took effect drew an id no movement had |
| LedgerRuns.TransferIdsLabelPairs | production-warehouse-microservices/services/inventory-service/app/services/stock.py:534-571 | Then each transfer id labels exactly one outbound and one inbound movement of one product with opposite deltas |
| Inventory.StockTable.ReceiveStock | production-warehouse-microservices/services/inventory-service/app/services/stock.py:252-294 | Succeeds exactly for a known product whose commit works; then its balance rises by the quantity, every other balance and every outstanding amount stays, and one RECEIPT of that quantity is appended; otherwise nothing changes |
| Inventory.StockTable.IssueStock | production-warehouse-microservices/services/inventory-service/app/services/stock.py:297-352 | Succeeds exactly when enough is free and the commit works; then that balance falls by the quantity, all others and every outstanding amount stay, and one ISSUE is appended; otherwise nothing changes and the error shows what is free |
| Inventory.StockTable.ReserveStock | production-warehouse-microservices/services/inventory-service/app/services/stock.py:354-424 | Succeeds exactly when the reference holds nothing, enough is free and the commit works; then exactly its outstanding amount and the reserved stock rise by the quantity; otherwise nothing changes, with both errors |
| Inventory.StockTable.ReleaseStock | production-warehouse-microservices/services/inventory-service/app/services/stock.py:427-496 | Succeeds exactly up to what the reference holds and the balance has reserved; then exactly these fall by the quantity; otherwise nothing changes, with the releasable amount |
| Inventory.StockTable.TransferStock | production-warehouse-microservices/services/inventory-service/app/services/stock.py:499-589 | Succeeds exactly between two warehouses with enough free at the source; then both balances move by the quantity, nothing else does, and the two movements carry the drawn id; a refused transfer leaves no empty target row behind |
| LockOrder.OperationsLockInOrder | production-warehouse-microservices/services/inventory-service/app/services/stock.py:204-249 | Every operation locks exactly the rows of its product and warehouses, in warehouse order |
| LockOrder.RunsKeepLocks | production-warehouse-microservices/services/inventory-service/app/services/stock.py:160-176 | In every reachable lock state no row has two holders |
| LockOrder.SomeTransactionProceeds | production-warehouse-microservices/services/inventory-service/app/services/stock.py:219-233 | In every such state with an unfinished transaction some transaction can lock its next row or commit |
| LockOrder.AllTransactionsFinish | production-warehouse-microservices/services/inventory-service/app/services/stock.py:219-233 | Every schedule ends within a bound on its steps, and can stop only when all transactions have finished |
| LockOrder.SourceFirstDeadlocks | production-warehouse-microservices/services/inventory-service/app/services/stock.py:219-221 | Without the order it fails: two opposite transfers that lock their source first block each other |
| SagaRuns.OrdersMatchTheLedger | production-warehouse-microservices/services/order-service/app/services/order.py:210-423 | After any interleaved run in which the raising calls of this order had no effect and its compensations worked, whatever the calls of other orders did, an order without a saga in flight has exactly its quantities reserved, none once cancelled, none if never stored |
| SagaRuns.ReservedIsWhatOrdersNeed | production-warehouse-microservices/services/order-service/app/services/order.py:210-423 | With no saga in flight the reserved quantity of a balance is the sum over that warehouse's RESERVED and CONFIRMED orders |
| SagaBooks.BooksAlwaysBalance | production-warehouse-microservices/services/order-service/app/services/order.py:210-423 | Under every fault and interleaving, what the ledger shows for an order is the order's quantity, plus what its sagas in flight did, plus the recorded drift |
| SagaRuns.RequestsRunTheLedger | production-warehouse-microservices/services/inventory-service/app/services/stock.py:252-589 | The receipts, issues and transfers others send while orders are in flight act on the ledger as a run of the ledger alone, and on nothing else |
| SagaRuns.CleanRunsDoNotDrift | production-warehouse-microservices/services/order-service/app/services/order.py:240-259 | Drift of an order appears only through its own calls that raise after taking effect or compensations that fail |
| SagaLeaks.UndoIsNeverRefused | production-warehouse-microservices/services/order-service/app/services/order.py:153-179 | After any run under any faults of any orders, the ledger accepts every release of a creation's compensation |
| SagaLeaks.FailedCreationLeavesItsLeaks | production-warehouse-microservices/services/order-service/app/services/order.py:210-261 | In any interleaved run under any faults, a creation that ended without storing its order leaves exactly the line whose accepted reservation raised and the lines whose release raised before reaching the ledger, each whole, and nothing else |
| SagaRuns.FailedCreationLeavesItsDrift | production-warehouse-microservices/services/order-service/app/services/order.py:240-261 | What the ledger holds for an order that was never stored is exactly the drift booked for it |
| SagaLines.LinesAreAllOrNothing | production-warehouse-microservices/services/order-service/app/services/order.py:153-207 | Under every fault the ledger holds each line of an order completely or not at all |
| SagaLines.CancellationCanStart | production-warehouse-microservices/services/order-service/app/services/order.py:362-387 | In every reachable world any stored order meets what CancelOrder asks of the ledger |
| OrderService.OrderTable.CreateOrder | production-warehouse-microservices/services/order-service/app/services/order.py:210-261 | For every pattern of faults: success exactly when nothing raises and every line fits; otherwise no order is stored and exactly the leaked lines are left, named one by one; its calls are the steps of one saga, from its start to its end |
| OrderService.OrderTable.CancelOrder | production-warehouse-microservices/services/order-service/app/services/order.py:355-423 | For every pattern of faults: idempotent on cancelled orders, conflict on others; success exactly when nothing raises and every line was held; otherwise the order stays RESERVED and every line held before is held again except the named ones |
| OrderService.OrderTable.ConfirmOrder | production-warehouse-microservices/services/order-service/app/services/order.py:323-352 | Confirms RESERVED orders when the commit succeeds, is idempotent on CONFIRMED ones, and changes nothing otherwise; it is one step of the saga model |
| OrderService.OrderTable.ReleaseLines | production-warehouse-microservices/services/order-service/app/services/order.py:153-179 | Every line gets its release attempt; the failures are exactly the raising calls, the lines left exactly those that raised without effect |
| OrderService.OrderTable.ReserveLines | production-warehouse-microservices/services/order-service/app/services/order.py:182-207 | The same for re-reservation; without interference none is refused |
| OrderService.FailedCreationIsUndone | production-warehouse-microservices/services/order-service/app/services/order.py:240-259 | When raising calls had no effect and no compensation failed, every balance and every reference is as before |
| OrderService.FailedCancellationRestores | production-warehouse-microservices/services/order-service/app/services/order.py:402-421 | When the raising call had no effect and no compensation failed, the order and each line's reservation are as before |
| OrderCalls.ReserveLine | production-warehouse-microservices/services/order-service/app/services/order.py:228-235 | A line nothing is held for can be reserved exactly when it fits what was free before the request |
| OrderCalls.ReleaseLine | production-warehouse-microservices/services/order-service/app/services/order.py:390-397 | A held line can always be released, and only that line's reservation moves |
| OrderCalls.RestoreLine | production-warehouse-microservices/services/order-service/app/services/order.py:193-205 | Without interference a released line can always be reserved again |
| OrderBuilding.BuildOrder | production-warehouse-microservices/services/order-service/app/services/order.py:97-150 | Succeeds exactly when every answer is a nonnegative price; then each item has its price within half a cent, ties upwards, and the total is the sum of rounded price times quantity; otherwise the first unusable answer is the one reported |
| OrderBuilding.HalfUp | production-warehouse-microservices/services/order-service/app/services/order.py:112-121 | Half-up rounding is within half a cent, ties upwards |
| OrderBuilding.WholeCentsStay | production-warehouse-microservices/services/order-service/app/services/order.py:116-121 | Rounding a line total of rounded cents again does not change it |
| RateLimiter.RateLimitMiddleware.Dispatch | observability-incident-detection-platform/src/observability_platform/rate_limit.py:62-116 | Exempt exactly when disabled, below /health or one of the three documentation paths, read off the path; otherwise admitted exactly when fewer than the limit of the client's admissions lie in (now - window, now]; other clients unaffected; Retry-After and Reset are the least whole seconds after which room is made |
| RateLimiter.RateLimitMiddleware.Build | observability-incident-detection-platform/src/observability_platform/rate_limit.py:31-60 | Refused unless limit and window are positive; otherwise a limiter with no history |
| RateLimiter.NoWindowExceedsTheLimit | observability-incident-detection-platform/src/observability_platform/rate_limit.py:83-111 | Whatever requests a client sends, no window of time, wherever it starts, holds more admissions than the limit |
| RateLimiter.AdmissionsStaySpaced | observability-incident-detection-platform/src/observability_platform/rate_limit.py:83-111 | Any limit + 1 consecutive admissions span at least the window |
| RateLimiter.RateLimitMiddleware.AdmissionsFitEveryWindow | observability-incident-detection-platform/src/observability_platform/rate_limit.py:83-111 | Over any sequence of dispatched requests, no window holds more admitted requests of a client than the limit |
| RateLimiter.RateLimitMiddleware.AdmissionsFollowTheRule | observability-incident-detection-platform/src/observability_platform/rate_limit.py:83-111 | The pruned queues refine the simple rule: the admitted requests are those the rule on the unpruned history admits |
| RateLimiter.RateLimitMiddleware.Limit | observability-incident-detection-platform/src/observability_platform/rate_limit.py:83-116 | The critical section answers as the full history asks and keeps the queues pruned |
| RateLimiter.QueueIsWindow | observability-incident-detection-platform/src/observability_platform/rate_limit.py:87-89 | Once its old entries are dropped, the length of the queue is the number of admissions in the window |
| RateLimiter.RetryAfterIsExact | observability-incident-detection-platform/src/observability_platform/rate_limit.py:93-97 | The ceiling is the least whole number of seconds after which a quiet client is admitted |
| SensorMonitor.Connection.ReceiveSensorMessages | real-time-sensor-monitoring-system/src/main.cpp:549-691 | However the bytes are cut into chunks, the messages handled are the nonempty lines of the stream and the pending bytes its rest; after every pass the reported sensors are exactly the silent ones |
| SensorMonitor.Connection.CheckSensorTimeouts | real-time-sensor-monitoring-system/src/main.cpp:330-400 | Afterwards the timed-out set is exactly the four named sensors silent for more than 2 * 10^9 ns, each reported once since it was last heard and holding a critical fault; a nonempty set means SAFE_MODE |
| SensorMonitor.Connection.ProcessSensorMessage | real-time-sensor-monitoring-system/src/main.cpp:406-543 | A reading sets the sensor's time and clears its report, and the updates are first a no-fault update if it was reported, then the analysed fault; the logged transition compares with the state after the clearing |
| SensorMonitor.Connection.HandleChunk | real-time-sensor-monitoring-system/src/main.cpp:639-680 | The inner loop handles the complete messages of the stream in order |
| SensorMonitor.Connection.ReportsForceSafeMode | real-time-sensor-monitoring-system/src/main.cpp:366-381 | At every moment of a connection a reported sensor holds a critical fault, so the state is SAFE_MODE |
| SensorMonitor.ReportedMeansCritical | real-time-sensor-monitoring-system/src/main.cpp:366-381 | The same from the log alone, whatever happened before the connection |
| SensorMonitor.LastHeardIsLatest | real-time-sensor-monitoring-system/src/main.cpp:426-428 | The time a silence is measured from is that of the latest valid message of the sensor, or the start of the connection |
| SensorMonitor.OutagesStayApart | real-time-sensor-monitoring-system/src/main.cpp:366-367 | Between two reports of one sensor it was heard, so each outage is reported once |
| SensorMonitor.TimeoutAndSensors | real-time-sensor-monitoring-system/src/main.cpp:76-89 | Two seconds in nanoseconds, and the four expected sensors |
| SensorMonitor.ReconnectReportsAgain | real-time-sensor-monitoring-system/src/main.cpp:563-579 | One report per outage is a promise per connection: a sensor silent through two connections is reported in both |
| SystemState.SystemStateManager.UpdateSensor | real-time-sensor-monitoring-system/src/SystemStateManager.cpp:17-30 | The health map and the cached state agree with the whole history of updates |
| SystemState.SystemStateManager.RecalculateState | real-time-sensor-monitoring-system/src/SystemStateManager.cpp:72-112 | The counting loop yields the rule: one critical or two faults SAFE_MODE, one DEGRADED, none NORMAL |
| SystemState.SystemStateManager.GetActiveFaultCount | real-time-sensor-monitoring-system/src/SystemStateManager.cpp:39-52 | The loop counts the sensors whose latest update is a fault |
| SystemState.CriticalMeansSafeMode | real-time-sensor-monitoring-system/src/SystemStateManager.cpp:96-101 | A critical latest fault of any sensor forces SAFE_MODE |
| Framing.Resume | real-time-sensor-monitoring-system/src/main.cpp:638-642 | Bytes read later continue the unfinished piece and touch nothing before it |
| Framing.FirstLine | real-time-sensor-monitoring-system/src/main.cpp:651-663 | Cutting at the first newline takes exactly the first line off |
| Framing.LinesRebuildTheStream | real-time-sensor-monitoring-system/src/main.cpp:644-680 | Lines and rest put together again are the stream |
| Framing.LinesAreUnique | real-time-sensor-monitoring-system/src/main.cpp:644-680 | Nothing else is: newline-free pieces that make up a stream are its lines |
| Framing.SentMessagesArrive | real-time-sensor-monitoring-system/simulator/sensor_simulator.py:298-307 | Newline-free nonempty messages, each sent with a newline, come out exactly as sent |
| Framing.EncodedMessage | real-time-sensor-monitoring-system/simulator/sensor_simulator.py:298-307 | A message on the wire is its bytes followed by byte 10 |
| Framing.NonEmptyDropsOnlyEmpty | real-time-sensor-monitoring-system/src/main.cpp:665-675 | Exactly the empty lines are skipped, and no other line is lost, added or repeated |
| Percentile.IndexIsTheLeastRank | observability-incident-detection-platform/src/observability_platform/services/metric_dashboard_service.py:116-118 | The index is valid and is the least with 95% of the samples at or before it |
| Percentile.P95IsNearestRank | observability-incident-detection-platform/src/observability_platform/services/metric_dashboard_service.py:112-119 | The value is a sample that at least 95% do not exceed while fewer than 95% are less |
| Percentile.NearestRankIsUnique | observability-incident-detection-platform/src/observability_platform/services/metric_dashboard_service.py:112-119 | Only one value has that property |
| Percentile.OrderDoesNotMatter | observability-incident-detection-platform/src/observability_platform/services/metric_dashboard_service.py:112-119 | The percentile does not depend on the order of the samples |

## Left out

- LaterClaimsWait: a sufficient condition only; the exact one is in `ClaimsWaitIffFloorsKept`.
- RecoveryDrains: a reference time in the past is meant, so the loop's clock and the leases granted meanwhile lie after it; a row locked by another recovery that is then rolled back waits for a later wake-up.
- ProcessJob: its reports find the row unlocked, since a statement that has to wait for a row lock takes its step when the lock is gone; the heartbeat beside it is among the steps in between.
- RunSlotRound: one round of the slot; the polling loop around it only repeats the round.
- MaintainLease: a renewal that would wait for a locked row is taken to come at the next beat; beats in time mean those whose renewal reaches the database, so a beat that raises first must be followed by one still within the interval.
- CreateOrder: the contract is for one request undisturbed between its calls; interleavings with other requests are in `SagaBooks`, `SagaRuns`, `SagaLines` and `SagaLeaks`. That a fresh order number has no reservations is assumed, as uuid4 gives it.
- CancelOrder: likewise undisturbed between its calls.
- CheckSensorTimeouts: exactness and one report per outage hold within a connection, because the timed-out set starts empty in each; `ReconnectReportsAgain` shows the difference.
- Dispatch: the clock does not go back between requests; nothing awaits inside the lock, so it is never contended.
- AllTransactionsFinish: balance rows exist already; the lock that inserting a missing row takes is not modelled.
- BuildOrder: prices are reals, and the answers to the product lookups are inputs; `verify_warehouse` and the order number are left out.
- P95IsNearestRank: the rank is the integer ceiling of 19n/20, as 0.95 * n means it; binary rounding of 0.95 is not modelled.
- PostgreSQL itself: transactions are atomic, row locks, SKIP LOCKED and unique constraints are as documented, and a guarded update that waited re-evaluates its condition; the message text of errors and reasons is left out except `last_error`.
- Floating point and wall clocks: times, delays and money are integers or reals; timestamps of different workers are unrelated unless a lemma says so.
- UUIDs and reference strings are naturals compared for equality; drawing one is an input.
- Status CANCELLED of jobs: no code path of the queue sets it.
- Deletion and deactivation of products during stock operations.
- JSON parsing and fault analysis of sensor messages: one function parameter gives the result; fault types and texts, console output and the event log file are left out.
- Headers set on the response after the route returns, and the derivation of the client key.
- Minimum, maximum, average, units, windows and points of the metric summary.
- Reading jobs, orders, balances and movements; HTTP routes, authentication, metrics, migrations and the front end; incidents, traces, root-cause analysis and the command simulator.
