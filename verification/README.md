# Task-list Scavenger

A model of the task-list Scavenger of the Cadence worker service: the background reaper that deletes expired task rows, idle task lists and orphaned task rows. It covers the two handlers the scanner's executor runs, and the guarded list deletion the expired-task handler calls:

- **Expired-task handler** (`deleteHandler`). It works through one task list in batches, ordered by task ID:
  - it stops at the first unexpired row;
  - it deletes each fully expired batch with one range-complete call;
  - it tries to delete the list's metadata once the list is drained;
  - it returns `Defer` once the per-job budget of examined rows is spent.
- **Guarded list deletion** (`tryDeleteTaskList`), a helper of the expired-task handler rather than a handler of its own. It never deletes the scanner's own lists, whose names start with `cadence-sys-tl-scanner`, nor a list updated within the grace period. Otherwise it makes a delete that is conditional on the rangeID the handler saw.
- **Orphan-task handler** (`completeOrphanTasksHandler`). It completes one page of orphaned task rows, one call per row. A rate-limit error maps to `Defer` and any other error to `Err`. It returns `Done` after a short page and `Defer` after a full one.

The project has four files:

- `persistence.dfy` (module `Persistence`). The persistence calls the Scavenger makes, modelled as a class `Store`. The store holds:
  - the task rows of the list, kept in strictly ascending task-ID order;
  - the list's metadata row;
  - the orphan rows;
  - a fault script: call i reports `faults[i]`, and every call past the end succeeds;
  - a journal of the calls made.

  Each call is a method proved equal to a step function on the `World` value. Faults can therefore be scripted, and statements about which calls were made can be proved.
- `handler.dfy` (module `TaskListScavenger`):
  - the handler statuses `Done`, `Err` and `Defer` (`HandlerStatus`, service/worker/scanner/tasklist/handler.go:34-40), the scanner prefix `ScannerTaskListPrefix` (handler.go:42) and the expiry predicate `IsTaskExpired` (handler.go:140-142);
  - the specification functions `TryDeleteStep`, `DeletePass`, `DeleteLoop`, `DeleteRun`, `CompleteEach` and `OrphanRun`;
  - the class `Scavenger`. Its methods run the source's loops against the `Store` and are proved to agree with those functions, and to update the counters as the source does.
- `delete_properties.dfy` (module `DeleteHandlerProperties`). What the expired-task handler and the guarded list deletion promise.
- `orphan_properties.dfy` (module `OrphanHandlerProperties`). What the orphan-task handler promises.

Three inputs are made explicit:

- The clock is the parameter `now`, in nanoseconds since the Unix epoch.
- The configuration is a `Config` value. Batch size, tasks per job and orphan page size are the dynamic configuration values the source reads through functions (handler.go:64-65 and 146). The grace period is the fixed `taskListGracePeriod` (handler.go:107). It is carried in `Config` only because its value is defined outside the file modelled.
- The persistence layer is the `Store`.

## Model

| member | source | states |
|---|---|---|
| TaskListScavenger.Scavenger.DeleteHandler | service/worker/scanner/tasklist/handler.go:59-100 | The status, the store afterwards and the counters are those of `DeleteRun`. Examined and deleted rows are added to the task counters, and a list deletion to the list counter. |
| TaskListScavenger.Scavenger.DeleteBatches | service/worker/scanner/tasklist/handler.go:67-99 | The `while nProcessed < maxTasksPerJob` loop. Its invariant is that the loop from the current store and counters gives the same run as the whole handler. Falling out of the loop gives `Defer`. |
| TaskListScavenger.Scavenger.DeleteBatch | service/worker/scanner/tasklist/handler.go:68-96 | One iteration. It either returns with exactly the run `DeletePass` finishes with, or it goes round with exactly the store and counters `DeletePass` continues with. |
| TaskListScavenger.DeletePass | service/worker/scanner/tasklist/handler.go:67-96 | A pass that does not return strictly increases `nProcessed`, and increases `nDeleted` by the same amount. |
| TaskListScavenger.ReapBatch | service/worker/scanner/tasklist/handler.go:74-96 | After the fetch, a pass that goes round has examined more rows, and deleted as many as it examined. |
| TaskListScavenger.AfterComplete | service/worker/scanner/tasklist/handler.go:88-96 | After a successful complete-tasks call on a full batch, `nDeleted` grows by exactly the batch length. |
| TaskListScavenger.FirstUnexpired | service/worker/scanner/tasklist/handler.go:80-85 | The scan over a batch: every row before the returned index is expired, and the row at the index, if any, is not. |
| TaskListScavenger.TryDeleteStep | service/worker/scanner/tasklist/handler.go:102-124 | The list is deleted only when its name lacks the scanner prefix and the grace period has passed, and then its metadata is gone. Otherwise the metadata is unchanged. Task rows, orphans and the fault script are never touched. |
| TaskListScavenger.DeleteLoop | service/worker/scanner/tasklist/handler.go:67-99 | The loop ends in `Defer` only once `nProcessed` has reached `maxTasksPerJob`. |
| TaskListScavenger.DeleteRun | service/worker/scanner/tasklist/handler.go:59-100 | A run defers only with the budget spent. With `maxTasksPerJob <= 0` it defers at once, with the store untouched and both counters zero. |
| TaskListScavenger.ErrorStatus | service/worker/scanner/tasklist/handler.go:148-155 | A failed persistence call never gives `Done`. It gives `Defer` exactly for the rate-limit error, and `Err` for every other error. |
| TaskListScavenger.CompleteEach | service/worker/scanner/tasklist/handler.go:156-173 | Completing the page's keys in order completes at most all of them, and all of them when no call fails. Task rows, metadata and the fault script are untouched. |
| TaskListScavenger.OrphanRun | service/worker/scanner/tasklist/handler.go:144-179 | `Done` only after a page shorter than the batch size. Processed and deleted counts are equal and at most the page length. No list is deleted, and task rows and metadata are untouched. |
| TaskListScavenger.Scavenger.TryDeleteTaskList | service/worker/scanner/tasklist/handler.go:102-124 | The store ends as `TryDeleteStep` says. The deleted-lists counter grows by one exactly when the conditional delete succeeded. |
| TaskListScavenger.Scavenger.CompleteOrphanTasksHandler | service/worker/scanner/tasklist/handler.go:144-179 | The status and the store are those of `OrphanRun`. Each completed row is added to the processed and deleted counters. |
| Persistence.Store.GetTasks | service/worker/scanner/tasklist/handler.go:68 | Journals one get-tasks call. It fails as scripted, or returns the first `min(batchSize, rows)` rows in task-ID order. |
| Persistence.Store.CompleteTasks | service/worker/scanner/tasklist/handler.go:88 | Journals one complete-tasks call. It fails as scripted, or removes the leading rows whose ID is at most the given ID, at most `limit` of them. |
| Persistence.Store.DeleteTaskList | service/worker/scanner/tasklist/handler.go:118 | Journals one delete call. It removes the metadata row only if it still carries the caller's rangeID. Otherwise it reports a failed condition. |
| Persistence.Store.GetOrphanTasks | service/worker/scanner/tasklist/handler.go:147 | Journals one orphan query. It fails as scripted, or returns the first page of orphan rows. |
| Persistence.Store.CompleteTask | service/worker/scanner/tasklist/handler.go:157-161 | Journals one complete-task call. It fails as scripted, or removes that orphan row. |
| Persistence.PageLen | service/worker/scanner/tasklist/handler.go:57 | A page never holds more rows than exist or than the page size, and none for a page size of zero or less. A page shorter than a positive page size comes back only when the rows ran out, which is why a short batch means the list holds no more tasks. |
| Persistence.DeletablePrefix | service/worker/scanner/tasklist/handler.go:87-88 | The rows a range complete removes. Each has an ID at most the bound, there are no more than the limit, and the run stops only at the limit, the end, or a larger ID. |
| Persistence.CompleteUpToLastRemovesPage | service/worker/scanner/tasklist/handler.go:87-88 | On ascending rows, completing up to the ID of the n-th row, limited to n, removes exactly the first n rows. |
| Persistence.Without | service/worker/scanner/tasklist/handler.go:157-161 | After a completed orphan row, exactly the other rows remain. |
| DeleteHandlerProperties.EpochExpiryNeverExpires | service/worker/scanner/tasklist/handler.go:140-142 | A task whose expiry is not after the Unix epoch is never expired. |
| DeleteHandlerProperties.ExpiredStaysExpired | service/worker/scanner/tasklist/handler.go:140-142 | An expired task stays expired at every later time. A row judged expired at one clock reading is therefore expired at every later reading. |
| DeleteHandlerProperties.TryDeleteGuards | service/worker/scanner/tasklist/handler.go:102-124 | Lists with the scanner prefix, and lists updated within the grace period, are left alone with no persistence call. Otherwise exactly one delete call is made. The list counts as deleted iff it is deletable and that call succeeds, and only then is the metadata gone. |
| DeleteHandlerProperties.SpentBudgetDefersWithoutCalls | service/worker/scanner/tasklist/handler.go:67-99 | With the budget spent on entry, which covers `maxTasksPerJob <= 0`, the run is `Defer` with the store untouched and no call journalled. |
| DeleteHandlerProperties.FetchFailureIsErr | service/worker/scanner/tasklist/handler.go:68-72 | A failed fetch gives `Err`. Nothing is deleted and only the fetch is journalled. |
| DeleteHandlerProperties.EmptyBatchTriesListDeletion | service/worker/scanner/tasklist/handler.go:74-78 | An empty batch gives `Done`, after the guarded list deletion and nothing else. |
| DeleteHandlerProperties.UnexpiredBatchIsKept | service/worker/scanner/tasklist/handler.go:80-85 | A batch holding an unexpired row gives `Done`. Only the fetch is journalled, so no row of the batch is deleted. The rows examined are exactly those up to and including the first unexpired one. |
| DeleteHandlerProperties.ExpiredBatchReachesComplete | service/worker/scanner/tasklist/handler.go:80-92 | A fully expired batch of n rows comes down to one complete-tasks call up to the batch's last ID, limited to n. On success that call removes exactly the batch. |
| DeleteHandlerProperties.ExpiredBatchPass | service/worker/scanner/tasklist/handler.go:87-96 | For a fully expired batch, the journal holds the fetch and then exactly one complete-tasks call with the last ID and the count. A failed call gives `Err` with `nDeleted` unchanged. A success removes the batch and adds its length to `nDeleted`. A short batch then tries the list deletion and gives `Done`, and a full one goes round. |
| DeleteHandlerProperties.PassDeletesExpiredPrefix | service/worker/scanner/tasklist/handler.go:67-96 | One pass deletes a prefix of the rows, all of them expired, and counts each deleted row as examined. It leaves the orphan rows and the fault script alone, only appends to the journal, and changes the metadata only by deleting the list. |
| DeleteHandlerProperties.PassDeletesListOnlyWhenDrained | service/worker/scanner/tasklist/handler.go:74-96 | A pass deletes the list only once no rows remain and the list was deletable. |
| DeleteHandlerProperties.CountersAndDefer | service/worker/scanner/tasklist/handler.go:59-100 | The counters never decrease, and `nDeleted <= nProcessed` is preserved. `Defer` comes only once `nProcessed` reached `maxTasksPerJob`, and never with a deleted list. |
| DeleteHandlerProperties.PassIsCapped | service/worker/scanner/tasklist/handler.go:68-96 | One pass examines no more rows than the page it fetched holds: at most `taskBatchSize`, and none for a batch size of zero or less. |
| DeleteHandlerProperties.LoopIsCapped | service/worker/scanner/tasklist/handler.go:67-99 | Entered under the budget, the loop examines fewer than `maxTasksPerJob + taskBatchSize` rows in total, and none for a batch size of zero or less. |
| DeleteHandlerProperties.RunIsCapped | service/worker/scanner/tasklist/handler.go:44-100 | The cap on one invocation. No more rows are deleted than examined, and fewer than `maxTasksPerJob + taskBatchSize` are examined. None are examined with no budget or a batch size of zero or less. The budget is checked only at the top of the loop (handler.go:67), so a run can exceed `maxTasksPerJob` by up to `taskBatchSize - 1` rows. The doc comment's "limits the amount of tasks deleted to maxTasksPerJob" holds only to within one batch. |
| DeleteHandlerProperties.RunDeletesExpiredPrefix | service/worker/scanner/tasklist/handler.go:59-100 | A whole run deletes exactly a prefix of the rows, as many as it counts, every one expired. Orphans and the fault script are untouched, and the metadata changes only by the list deletion. |
| DeleteHandlerProperties.UnexpiredRowsSurvive | service/worker/scanner/tasklist/handler.go:80-85 | No unexpired row is ever deleted by a run. |
| DeleteHandlerProperties.ListDeletedOnlyWhenDrainedAndIdle | service/worker/scanner/tasklist/handler.go:93-122 | A run deletes the list's metadata only after draining every row, and only for a list that is not the scanner's own, is idle past the grace period and still has the observed rangeID. |
| DeleteHandlerProperties.ReliablePassOverExpiredBatch | service/worker/scanner/tasklist/handler.go:87-96 | With no failing call, a short expired batch drains the list and ends `Done`, deleting the list iff it is deletable. A full one is deleted and the loop goes round. |
| DeleteHandlerProperties.FullPassContinues | service/worker/scanner/tasklist/handler.go:87-97 | With no failing call, a full batch of expired rows is deleted. Both counters grow by the batch size and the loop goes round. |
| DeleteHandlerProperties.ReliableShortPass | service/worker/scanner/tasklist/handler.go:93-96 | With no failing call, a short list of expired rows is emptied, the run is `Done`, and the list is deleted iff it is deletable. |
| DeleteHandlerProperties.DrainsExpiredList | service/worker/scanner/tasklist/handler.go:59-100 | With every row expired, no failing call and a budget above the row count, the run deletes every row, deletes the list iff it is deletable, and is `Done`. |
| DeleteHandlerProperties.BudgetSpentByPass | service/worker/scanner/tasklist/handler.go:67-99 | With no failing call, a full expired batch that spends the budget is deleted. The run then defers with the remaining rows and the metadata untouched. |
| DeleteHandlerProperties.ScenarioOneHundredFifty | service/worker/scanner/tasklist/handler.go:59-100 | 150 expired rows, a batch size of 100 and a budget of 100: the first run deletes 100 rows and defers. The second deletes the other 50, is `Done`, and deletes the list iff it is deletable. |
| OrphanHandlerProperties.FirstFailure | service/worker/scanner/tasklist/handler.go:156-169 | The number of calls that succeed before the first failing one: all earlier calls succeed, and the one at that index, if any, fails. |
| OrphanHandlerProperties.CompleteCalls | service/worker/scanner/tasklist/handler.go:156-161 | The journal of completing keys one by one: one complete-task call per key, in order. |
| OrphanHandlerProperties.CompleteEachStopsAtFirstFailure | service/worker/scanner/tasklist/handler.go:156-173 | Completion stops at the first failing call. The keys before it are completed, the outcome is that call's failure, and the task rows, metadata and fault script are untouched. |
| OrphanHandlerProperties.CompleteEachJournal | service/worker/scanner/tasklist/handler.go:156-169 | One call is made per key attempted, in order: the completed keys, then the failing one. No call is made after a failure. |
| OrphanHandlerProperties.CompleteEachDeletesCompletedKeys | service/worker/scanner/tasklist/handler.go:156-173 | Exactly the rows of the completed keys are deleted. |
| OrphanHandlerProperties.RateLimitedQueryDefers | service/worker/scanner/tasklist/handler.go:147-151 | A rate-limited orphan query gives `Defer`, with nothing deleted and no further call. |
| OrphanHandlerProperties.FailedQueryIsErr | service/worker/scanner/tasklist/handler.go:152-155 | Any other failed orphan query gives `Err`, with nothing deleted and no further call. |
| OrphanHandlerProperties.OrphanHandlerOutcome | service/worker/scanner/tasklist/handler.go:144-179 | After a successful query: a rate-limited completion gives `Defer` and any other failed completion `Err`. If every completion succeeds, the result is `Done` iff the page was short and `Defer` iff it was full. The counters equal the completed keys, the journal is one call per attempted key, and exactly the completed rows are gone. |
| OrphanHandlerProperties.ReliableOrphanRun | service/worker/scanner/tasklist/handler.go:156-178 | With no failing call, every row of the page is deleted and counted. The result is `Done` iff the page was short. |
| OrphanHandlerProperties.ScenarioSecondCompletionRateLimited | service/worker/scanner/tasklist/handler.go:156-170 | A page of three rows whose second completion is rate limited: the first row is deleted, the other two remain, the handler defers, and exactly two completions are journalled. |

## Left out

- Logging (`deleteHandlerLog` and the logger calls) is left out. It has no effect on the outcome.
- The counters are plain integers in the `Scavenger` class. They are not updated with atomic 64-bit adds, and the model does not wrap around at 64 bits. Concurrent handlers sharing the counters are not modelled.
- The expired-task handler's counters are added once, at the end of the invocation, as the deferred log function does. Reads of the counters from other goroutines in the middle of a run are not modelled.
- The clock is a single `now` per invocation. The source reads the wall clock for each task and in the grace-period check, so a run that spans a change of time is not modelled. Under a clock that only moves forward, a row found expired at the single `now` would also be expired at every later per-task reading (`DeleteHandlerProperties.ExpiredStaysExpired`). `time.Since` saturating at the extremes of `time.Duration` is not modelled either: the elapsed time is the unbounded difference `now - lastUpdated`.
- A zero `time.Time` expiry lies before the Unix epoch, so it is modelled as an expiry of 0 or less.
- The grace period is a parameter standing for the fixed `taskListGracePeriod`. That constant is defined outside the file modelled, so its value is not fixed here.
- The persistence layer is modelled by its contract as the handler uses it: get-tasks returns the first rows in task-ID order, complete-tasks removes a leading range, delete is conditional on the rangeID, the orphan query returns the first page, and complete-task removes one row. The persistence implementations, the rate-limited wrapper and its error value are not part of this model. A rate-limit error is the `LimitExceeded` value of `PersistenceError`.
- A batch size of zero or less makes the modelled get-tasks return no rows. Likewise, an orphan page size of zero or less makes the orphan query return no rows, and the orphan handler then returns `Defer`. The real stores' behaviour for such a limit is not part of this model.
- DeleteHandlerProperties.PassDeletesListOnlyWhenDrained: proved only for a positive batch size. With a batch size of zero or less the modelled fetch returns no rows, so the handler tries to delete the metadata of a list that may still hold rows.
- DeleteHandlerProperties.ListDeletedOnlyWhenDrainedAndIdle: proved only for a positive batch size, for the same reason. With a batch size of zero or less, the model deletes the metadata of a deletable list that still holds rows.
- Nothing but the handler's own calls changes the store during a run. The source argues that the deletion is safe because no matching host appends tasks to an idle list or takes its lease without changing the rangeID (handler.go:110-117). The model does not let another writer act between calls. `DeleteHandlerProperties.ListDeletedOnlyWhenDrainedAndIdle`'s `rows == []` rests partly on that.
- The executor that schedules the handlers and acts on `Defer` is not part of this model. Nor are its retries or the task list enumeration that feeds `deleteHandler`.
- The model does not prove that, with every row expired and no failing call, a run of several full batches reaps exactly `maxTasksPerJob` rounded up to whole batches. What is proved is the pass that spends the budget (`DeleteHandlerProperties.BudgetSpentByPass`), the lower bound "defers only when the budget is spent" (`DeleteHandlerProperties.CountersAndDefer`), and the upper bound of fewer than `maxTasksPerJob + taskBatchSize` rows (`DeleteHandlerProperties.RunIsCapped`).
