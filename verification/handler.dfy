/**
 * The task-list Scavenger: the background reaper that deletes expired task
 * rows, idle task lists and orphaned task rows.
 *
 * Each handler is specified by a function over the store's state
 * (DeleteRun, OrphanRun) and implemented by a method of `Scavenger` that
 * performs the same persistence calls one at a time; the methods' ensures
 * clauses say that the two agree. What the handlers promise is proved about
 * the functions in the property modules.
 */
module TaskListScavenger {
  import opened Persistence

  /** What a handler tells the executor: finished, failed, or "come back to
      this later". */
  datatype HandlerStatus = Done | Err | Defer

  /** Task lists whose names start with this are the scanner's own. */
  const ScannerTaskListPrefix: string := "cadence-sys-tl-scanner"

  /** The Unix epoch, in nanoseconds since the Unix epoch. */
  const UnixEpoch: int := 0

  /** The dynamic configuration the handlers read once per invocation. */
  datatype Config = Config(
    taskBatchSize: int,
    maxTasksPerJob: int,
    orphanPageSize: int,
    gracePeriod: int)

  /** The Scavenger's counters. */
  datatype Stats = Stats(tasksProcessed: int, tasksDeleted: int, taskListsDeleted: int)

  /** The outcome of one handler invocation: its status, the store after
      it, how many task rows it examined and deleted, and whether it deleted
      the task list's metadata. */
  datatype Run = Run(status: HandlerStatus, world: World, processed: int, deleted: int, listDeleted: bool)

  /** The outcome of a guarded task-list deletion. */
  datatype ListDeletion = ListDeletion(world: World, deleted: bool)

  /** The outcome of completing a list of orphan rows one at a time. */
  datatype Completion = Completion(outcome: Outcome, world: World, completed: nat)

  /** A task expires only if it has an expiry after the Unix epoch and that
      expiry has passed. */
  predicate IsTaskExpired(t: Task, now: int) {
    t.expiry > UnixEpoch && now > t.expiry
  }

  /** The index of the first unexpired task of the batch, or |batch| when
      every task is expired. */
  function FirstUnexpired(batch: seq<Task>, now: int): (k: nat)
    ensures k <= |batch|
    ensures forall i :: 0 <= i < k ==> IsTaskExpired(batch[i], now)
    ensures k < |batch| ==> !IsTaskExpired(batch[k], now)
    decreases |batch|
  {
    if batch == [] || !IsTaskExpired(batch[0], now) then 0
    else 1 + FirstUnexpired(batch[1..], now)
  }

  /** Never delete the scanner's own task lists, nor a list updated within
      the grace period; otherwise attempt the conditional delete. */
  function TryDeleteStep(w: World, info: TaskListInfo, gracePeriod: int, now: int): (del: ListDeletion)
    ensures del.deleted ==> !(ScannerTaskListPrefix <= info.name) && gracePeriod <= now - info.lastUpdated
    ensures del.deleted ==> del.world.meta == None
    ensures !del.deleted ==> del.world.meta == w.meta
    ensures del.world.rows == w.rows && del.world.orphans == w.orphans && del.world.faults == w.faults
  {
    if ScannerTaskListPrefix <= info.name then ListDeletion(w, false)
    else if now - info.lastUpdated < gracePeriod then ListDeletion(w, false)
    else
      var del := DeleteTaskListStep(w, info);
      ListDeletion(del.world, del.result.Ok?)
  }

  /** Where one pass of the expired-task loop leaves the handler: either it
      goes round again with new counters, or it finishes with a run. */
  datatype Pass = Continue(world: World, processed: int, deleted: int) | Finish(run: Run)

  /** One pass of the expired-task loop: fetch a batch, stop at the first
      unexpired row, otherwise delete the whole batch with one call. */
  function DeletePass(w: World, info: TaskListInfo, cfg: Config, now: int, processed: int, deleted: int): (pass: Pass)
    ensures pass.Continue? ==> processed < pass.processed && pass.deleted - deleted == pass.processed - processed
  {
    var fetch := GetTasksStep(w, cfg.taskBatchSize);
    if fetch.result.Failure? then Finish(Run(Err, fetch.world, processed, deleted, false))
    else ReapBatch(fetch.world, fetch.result.value, info, cfg, now, processed, deleted)
  }

  /** The rest of a pass once `batch` has been fetched and the store is `w`:
      an empty batch means the list is drained; a batch with an unexpired
      row ends the run; a fully expired batch is deleted. */
  function ReapBatch(w: World, batch: seq<Task>, info: TaskListInfo, cfg: Config, now: int, processed: int, deleted: int): (pass: Pass)
    ensures pass.Continue? ==> processed < pass.processed && pass.deleted - deleted == pass.processed - processed
  {
    if |batch| == 0 then
      var del := TryDeleteStep(w, info, cfg.gracePeriod, now);
      Finish(Run(Done, del.world, processed, deleted, del.deleted))
    else
      var k := FirstUnexpired(batch, now);
      if k < |batch| then Finish(Run(Done, w, processed + k + 1, deleted, false))
      else
        var complete := CompleteTasksStep(w, batch[|batch| - 1].taskID, |batch|);
        AfterComplete(complete, |batch|, info, cfg, now, processed + |batch|, deleted)
  }

  /** The end of a pass once the `n` rows of a fully expired batch have been
      examined and the complete-tasks call has answered `complete`. */
  function AfterComplete(complete: Step<nat>, n: nat, info: TaskListInfo, cfg: Config, now: int, processed: int, deleted: int): (pass: Pass)
    ensures pass.Continue? ==> pass.processed == processed && pass.deleted == deleted + n
  {
    if complete.result.Failure? then Finish(Run(Err, complete.world, processed, deleted, false))
    else if n < cfg.taskBatchSize then
      var del := TryDeleteStep(complete.world, info, cfg.gracePeriod, now);
      Finish(Run(Done, del.world, processed, deleted + n, del.deleted))
    else Continue(complete.world, processed, deleted + n)
  }

  /** The expired-task loop, entered with `processed` rows examined and
      `deleted` rows deleted so far: it runs passes while fewer than
      `maxTasksPerJob` rows have been examined, and defers once that budget
      is spent. */
  function DeleteLoop(w: World, info: TaskListInfo, cfg: Config, now: int, processed: int, deleted: int): (run: Run)
    ensures run.status == Defer ==> cfg.maxTasksPerJob <= run.processed
    decreases if processed < cfg.maxTasksPerJob then cfg.maxTasksPerJob - processed else 0
  {
    if cfg.maxTasksPerJob <= processed then Run(Defer, w, processed, deleted, false)
    else
      match DeletePass(w, info, cfg, now, processed, deleted)
      case Finish(run) => run
      case Continue(w1, processed1, deleted1) => DeleteLoop(w1, info, cfg, now, processed1, deleted1)
  }

  /** One invocation of the expired-task handler on one task list. */
  function DeleteRun(w: World, info: TaskListInfo, cfg: Config, now: int): (run: Run)
    ensures run.status == Defer ==> cfg.maxTasksPerJob <= run.processed
    ensures cfg.maxTasksPerJob <= 0 ==> run == Run(Defer, w, 0, 0, false)
  {
    DeleteLoop(w, info, cfg, now, 0, 0)
  }

  /** The handler status a persistence error maps to. */
  function ErrorStatus(e: PersistenceError): (status: HandlerStatus)
    ensures status != Done
    ensures status == Defer <==> e == LimitExceeded
  {
    if e == LimitExceeded then Defer else Err
  }

  /** Complete the given orphan rows in order, stopping at the first failed
      call. */
  function CompleteEach(w: World, keys: seq<TaskKey>): (c: Completion)
    ensures c.completed <= |keys|
    ensures c.outcome == Succeed ==> c.completed == |keys|
    ensures c.world.rows == w.rows && c.world.meta == w.meta && c.world.faults == w.faults
    decreases |keys|
  {
    if keys == [] then Completion(Succeed, w, 0)
    else
      var step := CompleteTaskStep(w, keys[0]);
      if step.result.Failure? then Completion(Fail(step.result.error), step.world, 0)
      else
        var rest := CompleteEach(step.world, keys[1..]);
        rest.(completed := rest.completed + 1)
  }

  /** One invocation of the orphan-task handler. */
  function OrphanRun(w: World, batchSize: int): (run: Run)
    ensures run.status == Done ==> PageLen(batchSize, |w.orphans|) < batchSize
    ensures run.processed == run.deleted <= PageLen(batchSize, |w.orphans|) && !run.listDeleted
    ensures run.world.rows == w.rows && run.world.meta == w.meta
  {
    var fetch := GetOrphanTasksStep(w, batchSize);
    if fetch.result.Failure? then Run(ErrorStatus(fetch.result.error), fetch.world, 0, 0, false)
    else
      var keys := fetch.result.value;
      var done := CompleteEach(fetch.world, keys);
      var status :=
        if done.outcome.Fail? then ErrorStatus(done.outcome.error)
        else if |keys| < batchSize then Done
        else Defer;
      Run(status, done.world, done.completed, done.completed, false)
  }

  class Scavenger {
    const store: Store
    var cfg: Config
    var stats: Stats

    constructor (store: Store, cfg: Config)
      ensures this.store == store && this.cfg == cfg && stats == Stats(0, 0, 0)
    {
      this.store := store;
      this.cfg := cfg;
      stats := Stats(0, 0, 0);
    }

    /** Deletes the task list's metadata when that is safe; counts a
        successful deletion. */
    method TryDeleteTaskList(info: TaskListInfo, now: int)
      requires store.Valid()
      modifies store, this`stats
      ensures store.Valid()
      ensures var del := TryDeleteStep(old(store.State()), info, cfg.gracePeriod, now);
        store.State() == del.world &&
        stats == old(stats).(taskListsDeleted := old(stats).taskListsDeleted + if del.deleted then 1 else 0)
    {
      if ScannerTaskListPrefix <= info.name {
        return;
      }
      var delta := now - info.lastUpdated;
      if delta < cfg.gracePeriod {
        return;
      }
      var r := store.DeleteTaskList(info);
      if r.Failure? {
        return;
      }
      stats := stats.(taskListsDeleted := stats.taskListsDeleted + 1);
    }

    /** The expired-task handler: examines at most about `maxTasksPerJob`
        rows, then adds what it examined and deleted to the counters. */
    method DeleteHandler(info: TaskListInfo, now: int) returns (status: HandlerStatus)
      requires store.Valid()
      modifies store, this`stats
      ensures store.Valid()
      ensures var run := DeleteRun(old(store.State()), info, cfg, now);
        status == run.status && store.State() == run.world &&
        stats == Stats(old(stats).tasksProcessed + run.processed,
                       old(stats).tasksDeleted + run.deleted,
                       old(stats).taskListsDeleted + if run.listDeleted then 1 else 0)
    {
      var nProcessed, nDeleted;
      status, nProcessed, nDeleted := DeleteBatches(info, now);
      stats := stats.(tasksProcessed := stats.tasksProcessed + nProcessed,
                      tasksDeleted := stats.tasksDeleted + nDeleted);
    }

    /** The loop of the expired-task handler. */
    method DeleteBatches(info: TaskListInfo, now: int) returns (status: HandlerStatus, nProcessed: int, nDeleted: int)
      requires store.Valid()
      modifies store, this`stats
      ensures store.Valid()
      ensures var run := DeleteRun(old(store.State()), info, cfg, now);
        status == run.status && nProcessed == run.processed && nDeleted == run.deleted &&
        store.State() == run.world &&
        stats == old(stats).(taskListsDeleted := old(stats).taskListsDeleted + if run.listDeleted then 1 else 0)
    {
      nProcessed, nDeleted := 0, 0;
      var maxTasksPerJob := cfg.maxTasksPerJob;
      while nProcessed < maxTasksPerJob
        invariant store.Valid() && stats == old(stats)
        invariant DeleteLoop(store.State(), info, cfg, now, nProcessed, nDeleted) == DeleteRun(old(store.State()), info, cfg, now)
        decreases maxTasksPerJob - nProcessed
      {
        var finished;
        finished, status, nProcessed, nDeleted := DeleteBatch(info, now, nProcessed, nDeleted);
        if finished {
          return;
        }
      }
      status := Defer;
    }

    /** One pass of the expired-task loop; `finished` tells whether the
        handler returns after it. */
    method DeleteBatch(info: TaskListInfo, now: int, processed: int, deleted: int)
      returns (finished: bool, status: HandlerStatus, nProcessed: int, nDeleted: int)
      requires store.Valid()
      modifies store, this`stats
      ensures store.Valid()
      ensures var pass := DeletePass(old(store.State()), info, cfg, now, processed, deleted);
        if finished then
          pass.Finish? && status == pass.run.status && nProcessed == pass.run.processed &&
          nDeleted == pass.run.deleted && store.State() == pass.run.world &&
          stats == old(stats).(taskListsDeleted := old(stats).taskListsDeleted + if pass.run.listDeleted then 1 else 0)
        else
          pass.Continue? && nProcessed == pass.processed && nDeleted == pass.deleted &&
          store.State() == pass.world && stats == old(stats)
    {
      nProcessed, nDeleted := processed, deleted;
      var taskBatchSize := cfg.taskBatchSize;
      var resp := store.GetTasks(taskBatchSize);
      if resp.Failure? {
        return true, Err, nProcessed, nDeleted;
      }
      var batch := resp.value;
      var nTasks := |batch|;
      ghost var fetched := store.State();
      assert DeletePass(old(store.State()), info, cfg, now, processed, deleted) ==
        ReapBatch(fetched, batch, info, cfg, now, processed, deleted);
      if nTasks == 0 {
        TryDeleteTaskList(info, now);
        return true, Done, nProcessed, nDeleted;
      }
      for i := 0 to nTasks
        invariant nProcessed == processed + i
        invariant forall j :: 0 <= j < i ==> IsTaskExpired(batch[j], now)
      {
        nProcessed := nProcessed + 1;
        if !IsTaskExpired(batch[i], now) {
          assert FirstUnexpired(batch, now) == i;
          return true, Done, nProcessed, nDeleted;
        }
      }
      assert FirstUnexpired(batch, now) == nTasks;
      var taskID := batch[nTasks - 1].taskID;
      var completed := store.CompleteTasks(taskID, nTasks);
      if completed.Failure? {
        return true, Err, nProcessed, nDeleted;
      }
      nDeleted := nDeleted + nTasks;
      if nTasks < taskBatchSize {
        TryDeleteTaskList(info, now);
        return true, Done, nProcessed, nDeleted;
      }
      finished, status := false, Defer;
    }

    /** The orphan-task handler: completes one page of orphan rows one at a
        time, counting each deleted row. */
    method CompleteOrphanTasksHandler() returns (status: HandlerStatus)
      requires store.Valid()
      modifies store, this`stats
      ensures store.Valid()
      ensures var run := OrphanRun(old(store.State()), cfg.orphanPageSize);
        status == run.status && store.State() == run.world &&
        stats == old(stats).(tasksProcessed := old(stats).tasksProcessed + run.processed,
                             tasksDeleted := old(stats).tasksDeleted + run.deleted)
    {
      var batchSize := cfg.orphanPageSize;
      var resp := store.GetOrphanTasks(batchSize);
      if resp.Failure? {
        return ErrorStatus(resp.error);
      }
      var keys := resp.value;
      ghost var all := CompleteEach(store.State(), keys);
      for i := 0 to |keys|
        invariant store.Valid()
        invariant CompleteEach(store.State(), keys[i..]).outcome == all.outcome
        invariant CompleteEach(store.State(), keys[i..]).world == all.world
        invariant CompleteEach(store.State(), keys[i..]).completed + i == all.completed
        invariant stats == old(stats).(tasksProcessed := old(stats).tasksProcessed + i,
                                       tasksDeleted := old(stats).tasksDeleted + i)
      {
        assert keys[i..][1..] == keys[i + 1..];
        var r := store.CompleteTask(keys[i]);
        if r.Failure? {
          return ErrorStatus(r.error);
        }
        stats := stats.(tasksProcessed := stats.tasksProcessed + 1,
                        tasksDeleted := stats.tasksDeleted + 1);
      }
      status := if |keys| < batchSize then Done else Defer;
    }
  }
}
