/**
 * What the expired-task handler promises, proved about DeleteRun.
 */
module DeleteHandlerProperties {
  import opened Persistence
  import opened TaskListScavenger

  /** Every call from now on succeeds. */
  predicate Reliable(w: World) {
    forall j :: |w.calls| <= j < |w.faults| ==> w.faults[j] == Succeed
  }

  /** The first n rows exist and are all expired. */
  predicate ExpiredBefore(rows: seq<Task>, n: int, now: int) {
    0 <= n <= |rows| && forall i {:trigger IsTaskExpired(rows[i], now)} :: 0 <= i < n ==> IsTaskExpired(rows[i], now)
  }

  /** The conditions under which a task list's metadata may be deleted: not
      the scanner's own list, idle for the grace period, and the metadata row
      still carries the rangeID the handler observed. */
  predicate Deletable(w: World, info: TaskListInfo, gracePeriod: int, now: int) {
    !(ScannerTaskListPrefix <= info.name) && gracePeriod <= now - info.lastUpdated &&
    w.meta.Some? && w.meta.value.rangeID == info.rangeID
  }

  function WorldAfter(pass: Pass): World {
    if pass.Continue? then pass.world else pass.run.world
  }

  function DeletedAfter(pass: Pass): int {
    if pass.Continue? then pass.deleted else pass.run.deleted
  }

  function ProcessedAfter(pass: Pass): int {
    if pass.Continue? then pass.processed else pass.run.processed
  }

  function ListDeletedBy(pass: Pass): bool {
    pass.Finish? && pass.run.listDeleted
  }

  // ---------------------------------------------------------------------
  // Expiry

  /** A task without an expiry after the Unix epoch never expires. */
  lemma EpochExpiryNeverExpires(t: Task, now: int)
    requires t.expiry <= UnixEpoch
    ensures !IsTaskExpired(t, now)
  {
  }

  /** Once expired, a task stays expired as time goes on. */
  lemma ExpiredStaysExpired(t: Task, now: int, later: int)
    requires IsTaskExpired(t, now) && now <= later
    ensures IsTaskExpired(t, later)
  {
  }

  // ---------------------------------------------------------------------
  // The guarded task-list deletion

  /** The scanner's own lists and lists updated within the grace period are
      left alone without any persistence call; otherwise exactly one delete
      call is made, and the list counts as deleted iff the conditional delete
      succeeded, in which case the metadata row is gone. */
  lemma TryDeleteGuards(w: World, info: TaskListInfo, gracePeriod: int, now: int)
    ensures var del := TryDeleteStep(w, info, gracePeriod, now);
      (ScannerTaskListPrefix <= info.name || now - info.lastUpdated < gracePeriod ==> del == ListDeletion(w, false)) &&
      (!(ScannerTaskListPrefix <= info.name) && gracePeriod <= now - info.lastUpdated ==>
        del.world.calls == w.calls + [DeleteTaskListCall(info)]) &&
      (del.deleted <==> Deletable(w, info, gracePeriod, now) && NextOutcome(w) == Succeed) &&
      (del.deleted ==> del.world.meta == None) &&
      (!del.deleted ==> del.world.meta == w.meta) &&
      del.world.rows == w.rows && del.world.orphans == w.orphans && del.world.faults == w.faults
  {
  }

  // ---------------------------------------------------------------------
  // One pass of the loop

  /** With the budget spent on entry, the handler defers without calling
      persistence at all. */
  lemma SpentBudgetDefersWithoutCalls(w: World, info: TaskListInfo, cfg: Config, now: int, processed: int, deleted: int)
    requires cfg.maxTasksPerJob <= processed
    ensures DeleteLoop(w, info, cfg, now, processed, deleted) == Run(Defer, w, processed, deleted, false)
  {
  }

  /** If fetching the batch fails, the handler fails and deletes nothing. */
  lemma FetchFailureIsErr(w: World, info: TaskListInfo, cfg: Config, now: int, processed: int, deleted: int)
    requires processed < cfg.maxTasksPerJob && NextOutcome(w).Fail?
    ensures DeleteLoop(w, info, cfg, now, processed, deleted) ==
      Run(Err, Record(w, GetTasksCall(cfg.taskBatchSize)), processed, deleted, false)
  {
  }

  /** An empty batch leads to the guarded list deletion and Done. */
  lemma EmptyBatchTriesListDeletion(w: World, info: TaskListInfo, cfg: Config, now: int, processed: int, deleted: int)
    requires processed < cfg.maxTasksPerJob && NextOutcome(w) == Succeed
    requires PageLen(cfg.taskBatchSize, |w.rows|) == 0
    ensures var del := TryDeleteStep(Record(w, GetTasksCall(cfg.taskBatchSize)), info, cfg.gracePeriod, now);
      DeleteLoop(w, info, cfg, now, processed, deleted) == Run(Done, del.world, processed, deleted, del.deleted)
  {
  }

  /** A batch holding an unexpired row ends the run with Done, and nothing of
      that batch is deleted: the only call made is the fetch, and the rows
      examined are those up to the first unexpired one. */
  lemma UnexpiredBatchIsKept(w: World, info: TaskListInfo, cfg: Config, now: int, processed: int, deleted: int, i: nat)
    requires processed < cfg.maxTasksPerJob && NextOutcome(w) == Succeed
    requires i < PageLen(cfg.taskBatchSize, |w.rows|) && !IsTaskExpired(w.rows[i], now)
    ensures var run := DeleteLoop(w, info, cfg, now, processed, deleted);
      run.status == Done && run.world == Record(w, GetTasksCall(cfg.taskBatchSize)) &&
      run.deleted == deleted && !run.listDeleted &&
      run.processed == processed + FirstUnexpired(w.rows[..PageLen(cfg.taskBatchSize, |w.rows|)], now) + 1 &&
      run.processed <= processed + i + 1
  {
    var batch := w.rows[..PageLen(cfg.taskBatchSize, |w.rows|)];
    assert batch[i] == w.rows[i];
  }

  /** Scanning the first n rows, all expired, runs to the end of them. */
  lemma ExpiredPrefixIsScanned(rows: seq<Task>, n: nat, now: int)
    requires ExpiredBefore(rows, n, now)
    ensures FirstUnexpired(rows[..n], now) == n
  {
    forall i | 0 <= i < n
      ensures IsTaskExpired(rows[..n][i], now)
    {
      assert rows[..n][i] == rows[i];
    }
  }

  /** A pass whose fetch succeeds goes on with the fetched batch. */
  lemma FetchedBatchIsReaped(w: World, info: TaskListInfo, cfg: Config, now: int, processed: int, deleted: int)
    requires NextOutcome(w) == Succeed
    ensures var fetched := Record(w, GetTasksCall(cfg.taskBatchSize));
      DeletePass(w, info, cfg, now, processed, deleted) ==
        ReapBatch(fetched, fetched.rows[..PageLen(cfg.taskBatchSize, |fetched.rows|)], info, cfg, now, processed, deleted)
  {
  }

  /** A pass over a fully expired batch of n rows comes down to one
      complete-tasks call up to the batch's last task ID, limited to n,
      which removes exactly that batch when it succeeds. */
  lemma ExpiredBatchReachesComplete(w: World, info: TaskListInfo, cfg: Config, now: int, processed: int, deleted: int)
    requires Ascending(w.rows) && NextOutcome(w) == Succeed
    requires 0 < PageLen(cfg.taskBatchSize, |w.rows|)
    requires ExpiredBefore(w.rows, PageLen(cfg.taskBatchSize, |w.rows|), now)
    ensures var n := PageLen(cfg.taskBatchSize, |w.rows|);
      var complete := CompleteTasksStep(Record(w, GetTasksCall(cfg.taskBatchSize)), w.rows[n - 1].taskID, n);
      DeletePass(w, info, cfg, now, processed, deleted) == AfterComplete(complete, n, info, cfg, now, processed + n, deleted) &&
      (complete.result.Ok? ==> complete.world.rows == w.rows[n..])
  {
    var n := PageLen(cfg.taskBatchSize, |w.rows|);
    var fetched := Record(w, GetTasksCall(cfg.taskBatchSize));
    var batch := fetched.rows[..PageLen(cfg.taskBatchSize, |fetched.rows|)];
    FetchedBatchIsReaped(w, info, cfg, now, processed, deleted);
    assert batch == w.rows[..n];
    ExpiredPrefixIsScanned(w.rows, n, now);
    ExpiredBatchIsCompleted(fetched, batch, info, cfg, now, processed, deleted);
    CompleteUpToLastRemovesPage(w.rows, n);
  }

  /** One pass over a fully expired batch of n rows: the fetch, then one
      complete-tasks call up to the batch's last task ID, limited to n. */
  lemma ExpiredBatchPass(w: World, info: TaskListInfo, cfg: Config, now: int, processed: int, deleted: int)
    requires Ascending(w.rows) && NextOutcome(w) == Succeed
    requires 0 < PageLen(cfg.taskBatchSize, |w.rows|)
    requires ExpiredBefore(w.rows, PageLen(cfg.taskBatchSize, |w.rows|), now)
    ensures var n := PageLen(cfg.taskBatchSize, |w.rows|);
      var fetched := Record(w, GetTasksCall(cfg.taskBatchSize));
      var complete := CompleteTasksStep(fetched, w.rows[n - 1].taskID, n);
      var pass := DeletePass(w, info, cfg, now, processed, deleted);
      complete.world.calls == w.calls + [GetTasksCall(cfg.taskBatchSize), CompleteTasksCall(w.rows[n - 1].taskID, n)] &&
      (NextOutcome(fetched).Fail? ==> pass == Finish(Run(Err, complete.world, processed + n, deleted, false))) &&
      (NextOutcome(fetched) == Succeed ==>
        complete.world.rows == w.rows[n..] &&
        (n < cfg.taskBatchSize ==>
          var del := TryDeleteStep(complete.world, info, cfg.gracePeriod, now);
          pass == Finish(Run(Done, del.world, processed + n, deleted + n, del.deleted))) &&
        (cfg.taskBatchSize <= n ==> pass == Continue(complete.world, processed + n, deleted + n)))
  {
    ExpiredBatchReachesComplete(w, info, cfg, now, processed, deleted);
  }

  /** The frame of a pass: what a pass leaves alone, and that it deletes a
      prefix of the rows, every row of which was expired, counting each
      deleted row as examined. */
  predicate PassKeepsFrame(w: World, pass: Pass, now: int, processed: int, deleted: int) {
    var n := DeletedAfter(pass) - deleted;
    0 <= n <= |w.rows| && WorldAfter(pass).rows == w.rows[n..] && ExpiredBefore(w.rows, n, now) &&
    processed + n <= ProcessedAfter(pass) &&
    WorldAfter(pass).faults == w.faults && WorldAfter(pass).orphans == w.orphans &&
    w.calls <= WorldAfter(pass).calls &&
    (!ListDeletedBy(pass) ==> WorldAfter(pass).meta == w.meta)
  }

  /** The end of a pass over a fully expired batch keeps the frame. */
  lemma AfterCompleteKeepsFrame(w: World, complete: Step<nat>, n: nat, info: TaskListInfo, cfg: Config, now: int, processed: int, deleted: int)
    requires n <= |w.rows| && ExpiredBefore(w.rows, n, now)
    requires complete.world.faults == w.faults && complete.world.orphans == w.orphans
    requires w.calls <= complete.world.calls && complete.world.meta == w.meta
    requires complete.result.Failure? ==> complete.world.rows == w.rows
    requires complete.result.Ok? ==> complete.world.rows == w.rows[n..]
    ensures PassKeepsFrame(w, AfterComplete(complete, n, info, cfg, now, processed + n, deleted), now, processed, deleted)
  {
    if complete.result.Failure? {
      assert w.rows[0..] == w.rows;
    }
  }

  /** A pass whose batch ends the run without deleting anything keeps the
      frame. */
  lemma ReapNothingKeepsFrame(w: World, batch: seq<Task>, info: TaskListInfo, cfg: Config, now: int, processed: int, deleted: int)
    requires |batch| == 0 || FirstUnexpired(batch, now) < |batch|
    ensures PassKeepsFrame(w, ReapBatch(w, batch, info, cfg, now, processed, deleted), now, processed, deleted)
  {
    if |batch| == 0 {
      TryDeleteGuards(w, info, cfg.gracePeriod, now);
    }
    assert w.rows[0..] == w.rows;
  }

  /** A fully expired batch is handed to one complete-tasks call up to its
      last task ID, limited to its length. */
  lemma ExpiredBatchIsCompleted(w: World, batch: seq<Task>, info: TaskListInfo, cfg: Config, now: int, processed: int, deleted: int)
    requires 0 < |batch| <= |w.rows| && batch == w.rows[..|batch|]
    requires FirstUnexpired(batch, now) == |batch|
    ensures var n := |batch|;
      ReapBatch(w, batch, info, cfg, now, processed, deleted) ==
        AfterComplete(CompleteTasksStep(w, w.rows[n - 1].taskID, n), n, info, cfg, now, processed + n, deleted)
  {
    assert batch[|batch| - 1] == w.rows[|batch| - 1];
  }

  /** Completing a fully expired batch removes exactly that batch, every
      row of which is expired, and touches nothing else but the journal. */
  lemma CompletingExpiredBatch(w: World, batch: seq<Task>, now: int)
    requires Ascending(w.rows) && 0 < |batch| <= |w.rows| && batch == w.rows[..|batch|]
    requires FirstUnexpired(batch, now) == |batch|
    ensures var n := |batch|;
      var complete := CompleteTasksStep(w, w.rows[n - 1].taskID, n);
      ExpiredBefore(w.rows, n, now) &&
      complete.world.faults == w.faults && complete.world.orphans == w.orphans &&
      w.calls <= complete.world.calls && complete.world.meta == w.meta &&
      (complete.result.Failure? ==> complete.world.rows == w.rows) &&
      (complete.result.Ok? ==> complete.world.rows == w.rows[n..])
  {
    var n := |batch|;
    forall i | 0 <= i < n
      ensures IsTaskExpired(w.rows[i], now)
    {
      assert batch[i] == w.rows[i];
    }
    CompleteUpToLastRemovesPage(w.rows, n);
  }

  /** The end of a pass whose batch is fully expired keeps the frame. */
  lemma ReapExpiredKeepsFrame(w: World, batch: seq<Task>, info: TaskListInfo, cfg: Config, now: int, processed: int, deleted: int)
    requires Ascending(w.rows) && 0 < |batch| <= |w.rows| && batch == w.rows[..|batch|]
    requires FirstUnexpired(batch, now) == |batch|
    ensures var n := |batch|;
      var complete := CompleteTasksStep(w, w.rows[n - 1].taskID, n);
      PassKeepsFrame(w, AfterComplete(complete, n, info, cfg, now, processed + n, deleted), now, processed, deleted)
  {
    var n := |batch|;
    CompletingExpiredBatch(w, batch, now);
    AfterCompleteKeepsFrame(w, CompleteTasksStep(w, w.rows[n - 1].taskID, n), n, info, cfg, now, processed, deleted);
  }

  lemma ReapBatchKeepsFrame(w: World, batch: seq<Task>, info: TaskListInfo, cfg: Config, now: int, processed: int, deleted: int)
    requires Ascending(w.rows) && |batch| <= |w.rows| && batch == w.rows[..|batch|]
    ensures PassKeepsFrame(w, ReapBatch(w, batch, info, cfg, now, processed, deleted), now, processed, deleted)
  {
    var n := |batch|;
    if n == 0 || FirstUnexpired(batch, now) < n {
      ReapNothingKeepsFrame(w, batch, info, cfg, now, processed, deleted);
    } else {
      ExpiredBatchIsCompleted(w, batch, info, cfg, now, processed, deleted);
      ReapExpiredKeepsFrame(w, batch, info, cfg, now, processed, deleted);
    }
  }

  /** One pass deletes a prefix of the rows, every row of which was expired,
      and counts each deleted row as examined; it leaves the fault script and
      the orphan rows alone, only appends to the journal, and changes the
      metadata only when it deletes the list. */
  lemma PassDeletesExpiredPrefix(w: World, info: TaskListInfo, cfg: Config, now: int, processed: int, deleted: int)
    requires Ascending(w.rows)
    ensures PassKeepsFrame(w, DeletePass(w, info, cfg, now, processed, deleted), now, processed, deleted)
  {
    var fetch := GetTasksStep(w, cfg.taskBatchSize);
    if fetch.result.Failure? {
      assert w.rows[0..] == w.rows;
    } else {
      ReapBatchKeepsFrame(fetch.world, fetch.result.value, info, cfg, now, processed, deleted);
    }
  }

  /** With a positive batch size, a pass deletes the list only after it has
      seen the list drained, and only when deletion was allowed. */
  lemma PassDeletesListOnlyWhenDrained(w: World, info: TaskListInfo, cfg: Config, now: int, processed: int, deleted: int)
    requires Ascending(w.rows) && 0 < cfg.taskBatchSize
    ensures var pass := DeletePass(w, info, cfg, now, processed, deleted);
      ListDeletedBy(pass) ==>
        WorldAfter(pass).rows == [] && WorldAfter(pass).meta == None && Deletable(w, info, cfg.gracePeriod, now)
  {
    var fetch := GetTasksStep(w, cfg.taskBatchSize);
    if fetch.result.Ok? {
      var batch := fetch.result.value;
      var n := |batch|;
      if n == 0 {
        TryDeleteGuards(fetch.world, info, cfg.gracePeriod, now);
      } else if FirstUnexpired(batch, now) == n {
        CompleteUpToLastRemovesPage(w.rows, n);
        var complete := CompleteTasksStep(fetch.world, batch[n - 1].taskID, n);
        TryDeleteGuards(complete.world, info, cfg.gracePeriod, now);
      }
    }
  }

  // ---------------------------------------------------------------------
  // The whole run

  /** The loop runs one pass, and either finishes with it or goes round
      again from where the pass left it. */
  lemma LoopUnfolds(w: World, info: TaskListInfo, cfg: Config, now: int, processed: int, deleted: int)
    requires processed < cfg.maxTasksPerJob
    ensures var pass := DeletePass(w, info, cfg, now, processed, deleted);
      DeleteLoop(w, info, cfg, now, processed, deleted) ==
        if pass.Finish? then pass.run else DeleteLoop(pass.world, info, cfg, now, pass.processed, pass.deleted)
  {
  }

  /** The counters only grow, no more rows are counted as deleted than as
      examined, and the handler defers only when the examined rows reached
      the budget, never after deleting the list. */
  lemma {:induction false} CountersAndDefer(w: World, info: TaskListInfo, cfg: Config, now: int, processed: int, deleted: int)
    requires deleted <= processed
    ensures var run := DeleteLoop(w, info, cfg, now, processed, deleted);
      processed <= run.processed && deleted <= run.deleted <= run.processed &&
      run.deleted - deleted <= run.processed - processed &&
      (run.status == Defer ==> cfg.maxTasksPerJob <= run.processed && !run.listDeleted)
    decreases if processed < cfg.maxTasksPerJob then cfg.maxTasksPerJob - processed else 0
  {
    if processed < cfg.maxTasksPerJob {
      var pass := DeletePass(w, info, cfg, now, processed, deleted);
      if pass.Continue? {
        CountersAndDefer(pass.world, info, cfg, now, pass.processed, pass.deleted);
      }
    }
  }

  /** One pass examines no more rows than the page it fetched holds, so at
      most `taskBatchSize` of them, and none when the batch size is not
      positive. */
  lemma PassIsCapped(w: World, info: TaskListInfo, cfg: Config, now: int, processed: int, deleted: int)
    ensures var pass := DeletePass(w, info, cfg, now, processed, deleted);
      processed <= ProcessedAfter(pass) <= processed + PageLen(cfg.taskBatchSize, |w.rows|)
  {
    if NextOutcome(w) == Succeed {
      var fetched := Record(w, GetTasksCall(cfg.taskBatchSize));
      var batch := fetched.rows[..PageLen(cfg.taskBatchSize, |fetched.rows|)];
      FetchedBatchIsReaped(w, info, cfg, now, processed, deleted);
      assert |batch| == PageLen(cfg.taskBatchSize, |w.rows|);
    }
  }

  /** The budget is checked only at the top of the loop, so a run examines
      fewer than `maxTasksPerJob + taskBatchSize` rows: it can overshoot the
      budget by at most one batch less one row. With a batch size that is
      not positive no row is examined at all. */
  lemma {:induction false} LoopIsCapped(w: World, info: TaskListInfo, cfg: Config, now: int, processed: int, deleted: int)
    requires processed < cfg.maxTasksPerJob
    ensures var run := DeleteLoop(w, info, cfg, now, processed, deleted);
      (0 < cfg.taskBatchSize ==> run.processed < cfg.maxTasksPerJob + cfg.taskBatchSize) &&
      (cfg.taskBatchSize <= 0 ==> run.processed == processed)
    decreases cfg.maxTasksPerJob - processed
  {
    var pass := DeletePass(w, info, cfg, now, processed, deleted);
    LoopUnfolds(w, info, cfg, now, processed, deleted);
    PassIsCapped(w, info, cfg, now, processed, deleted);
    if pass.Continue? {
      if pass.processed < cfg.maxTasksPerJob {
        LoopIsCapped(pass.world, info, cfg, now, pass.processed, pass.deleted);
      } else {
        SpentBudgetDefersWithoutCalls(pass.world, info, cfg, now, pass.processed, pass.deleted);
      }
    }
  }

  /** One invocation of the handler examines, and so deletes, fewer than
      `maxTasksPerJob + taskBatchSize` rows; with no budget, or a batch size
      that is not positive, it examines none. */
  lemma RunIsCapped(w: World, info: TaskListInfo, cfg: Config, now: int)
    ensures var run := DeleteRun(w, info, cfg, now);
      run.deleted <= run.processed &&
      (0 < cfg.taskBatchSize ==> run.processed < (if 0 < cfg.maxTasksPerJob then cfg.maxTasksPerJob else 0) + cfg.taskBatchSize) &&
      (cfg.taskBatchSize <= 0 || cfg.maxTasksPerJob <= 0 ==> run.processed == 0)
  {
    CountersAndDefer(w, info, cfg, now, 0, 0);
    if 0 < cfg.maxTasksPerJob {
      LoopIsCapped(w, info, cfg, now, 0, 0);
    }
  }

  /** What a run leaves alone, and that it deletes a prefix of the rows,
      every row of which was expired. */
  predicate RunKeepsFrame(w: World, run: Run, now: int, deleted: int) {
    var n := run.deleted - deleted;
    0 <= n <= |w.rows| && run.world.rows == w.rows[n..] && ExpiredBefore(w.rows, n, now) &&
    run.world.faults == w.faults && run.world.orphans == w.orphans && w.calls <= run.world.calls &&
    (!run.listDeleted ==> run.world.meta == w.meta)
  }

  lemma AscendingSuffix(rows: seq<Task>, m: nat)
    requires Ascending(rows) && m <= |rows|
    ensures Ascending(rows[m..])
  {
  }

  /** A pass that goes round again followed by the rest of the run keeps
      the frame of the whole run. */
  lemma FramesCompose(w: World, pass: Pass, run: Run, now: int, processed: int, deleted: int)
    requires pass.Continue? && PassKeepsFrame(w, pass, now, processed, deleted)
    requires RunKeepsFrame(pass.world, run, now, pass.deleted)
    ensures RunKeepsFrame(w, run, now, deleted)
  {
    var m := pass.deleted - deleted;
    var k := run.deleted - pass.deleted;
    assert pass.world.rows == w.rows[m..];
    assert run.world.rows == w.rows[m + k..];
    forall i | 0 <= i < m + k
      ensures IsTaskExpired(w.rows[i], now)
    {
      if m <= i {
        assert pass.world.rows[i - m] == w.rows[i];
      }
    }
  }

  /** The run deletes exactly a prefix of the rows, as many as it counts as
      deleted, and every deleted row was expired; it never touches the fault
      script or the orphan rows, only appends to the journal, and changes the
      metadata only by deleting the list. */
  lemma {:induction false} RunDeletesExpiredPrefix(w: World, info: TaskListInfo, cfg: Config, now: int, processed: int, deleted: int)
    requires Ascending(w.rows)
    ensures RunKeepsFrame(w, DeleteLoop(w, info, cfg, now, processed, deleted), now, deleted)
    decreases if processed < cfg.maxTasksPerJob then cfg.maxTasksPerJob - processed else 0
  {
    if cfg.maxTasksPerJob <= processed {
      assert w.rows[0..] == w.rows;
    } else {
      var pass := DeletePass(w, info, cfg, now, processed, deleted);
      PassDeletesExpiredPrefix(w, info, cfg, now, processed, deleted);
      if pass.Continue? {
        var m := pass.deleted - deleted;
        var w1 := pass.world;
        AscendingSuffix(w.rows, m);
        RunDeletesExpiredPrefix(w1, info, cfg, now, pass.processed, pass.deleted);
        var run := DeleteLoop(w1, info, cfg, now, pass.processed, pass.deleted);
        FramesCompose(w, pass, run, now, processed, deleted);
      }
    }
  }

  /** No unexpired row is ever deleted. */
  lemma UnexpiredRowsSurvive(w: World, info: TaskListInfo, cfg: Config, now: int, t: Task)
    requires Ascending(w.rows) && t in w.rows && !IsTaskExpired(t, now)
    ensures t in DeleteRun(w, info, cfg, now).world.rows
  {
    RunDeletesExpiredPrefix(w, info, cfg, now, 0, 0);
    var run := DeleteRun(w, info, cfg, now);
    var i :| 0 <= i < |w.rows| && w.rows[i] == t;
    if run.deleted <= i {
      assert run.world.rows[i - run.deleted] == t;
    }
  }

  /** With a positive batch size, the task list's metadata is deleted only
      when the run has drained every row and deletion was allowed. */
  lemma {:induction false} ListDeletedOnlyWhenDrainedAndIdle(w: World, info: TaskListInfo, cfg: Config, now: int, processed: int, deleted: int)
    requires Ascending(w.rows) && 0 < cfg.taskBatchSize
    ensures var run := DeleteLoop(w, info, cfg, now, processed, deleted);
      run.listDeleted ==> run.world.rows == [] && run.world.meta == None && Deletable(w, info, cfg.gracePeriod, now)
    decreases if processed < cfg.maxTasksPerJob then cfg.maxTasksPerJob - processed else 0
  {
    if processed < cfg.maxTasksPerJob {
      var pass := DeletePass(w, info, cfg, now, processed, deleted);
      PassDeletesListOnlyWhenDrained(w, info, cfg, now, processed, deleted);
      if pass.Continue? {
        PassDeletesExpiredPrefix(w, info, cfg, now, processed, deleted);
        ListDeletedOnlyWhenDrainedAndIdle(pass.world, info, cfg, now, pass.processed, pass.deleted);
      }
    }
  }

  // ---------------------------------------------------------------------
  // Runs over fully expired lists, with no failures

  lemma ReliableAfterRecord(w: World, c: Call)
    requires Reliable(w)
    ensures NextOutcome(w) == Succeed && Reliable(Record(w, c))
  {
  }

  lemma ExpiredSuffix(rows: seq<Task>, n: nat, now: int)
    requires ExpiredBefore(rows, |rows|, now) && Ascending(rows) && n <= |rows|
    ensures ExpiredBefore(rows[n..], |rows[n..]|, now) && Ascending(rows[n..])
  {
    forall i | 0 <= i < |rows| - n
      ensures IsTaskExpired(rows[n..][i], now)
    {
      assert rows[n..][i] == rows[n + i];
    }
  }

  /** One pass over a batch of expired rows with no failing call: a short
      batch drains the list and ends the run, deleting the list iff that is
      allowed; a full batch is deleted and the loop goes round again. */
  lemma ReliablePassOverExpiredBatch(w: World, info: TaskListInfo, cfg: Config, now: int, processed: int, deleted: int)
    requires Ascending(w.rows) && Reliable(w) && 0 < cfg.taskBatchSize
    requires ExpiredBefore(w.rows, PageLen(cfg.taskBatchSize, |w.rows|), now)
    ensures var n := PageLen(cfg.taskBatchSize, |w.rows|);
      var pass := DeletePass(w, info, cfg, now, processed, deleted);
      if n < cfg.taskBatchSize then
        pass.Finish? && pass.run.status == Done && pass.run.world.rows == [] &&
        pass.run.processed == processed + n && pass.run.deleted == deleted + n &&
        (pass.run.listDeleted <==> Deletable(w, info, cfg.gracePeriod, now)) &&
        pass.run.world.meta == (if pass.run.listDeleted then None else w.meta)
      else
        pass.Continue? && pass.processed == processed + n && pass.deleted == deleted + n &&
        pass.world.rows == w.rows[n..] && pass.world.meta == w.meta && Reliable(pass.world)
  {
    var b := cfg.taskBatchSize;
    ReliableAfterRecord(w, GetTasksCall(b));
    var fetched := Record(w, GetTasksCall(b));
    var n := PageLen(b, |w.rows|);
    if n == 0 {
      ReliableAfterRecord(fetched, DeleteTaskListCall(info));
      TryDeleteGuards(fetched, info, cfg.gracePeriod, now);
    } else {
      var batch := w.rows[..n];
      assert FirstUnexpired(batch, now) == n;
      ReliableAfterRecord(fetched, CompleteTasksCall(w.rows[n - 1].taskID, n));
      CompleteUpToLastRemovesPage(w.rows, n);
      var complete := CompleteTasksStep(fetched, w.rows[n - 1].taskID, n);
      assert complete.world.rows == w.rows[n..];
      if n < b {
        ReliableAfterRecord(complete.world, DeleteTaskListCall(info));
        TryDeleteGuards(complete.world, info, cfg.gracePeriod, now);
      }
    }
  }

  /** A full batch of expired rows, with no failing call: the batch is
      deleted and the loop goes round again. */
  lemma FullPassContinues(w: World, info: TaskListInfo, cfg: Config, now: int, processed: int, deleted: int)
    requires Ascending(w.rows) && ExpiredBefore(w.rows, |w.rows|, now) && Reliable(w)
    requires 0 < cfg.taskBatchSize <= |w.rows|
    ensures var pass := DeletePass(w, info, cfg, now, processed, deleted);
      pass.Continue? && pass.processed == processed + cfg.taskBatchSize &&
      pass.deleted == deleted + cfg.taskBatchSize && pass.world.rows == w.rows[cfg.taskBatchSize..] &&
      pass.world.meta == w.meta && Reliable(pass.world)
  {
    assert PageLen(cfg.taskBatchSize, |w.rows|) == cfg.taskBatchSize;
    ReliablePassOverExpiredBatch(w, info, cfg, now, processed, deleted);
  }

  /** A short batch of expired rows, with no failing call: the run drains
      the list, deletes it iff that is allowed, and is done. */
  lemma ReliableShortPass(w: World, info: TaskListInfo, cfg: Config, now: int, processed: int, deleted: int)
    requires Ascending(w.rows) && ExpiredBefore(w.rows, |w.rows|, now) && Reliable(w)
    requires |w.rows| < cfg.taskBatchSize && processed < cfg.maxTasksPerJob
    ensures var run := DeleteLoop(w, info, cfg, now, processed, deleted);
      run.status == Done && run.world.rows == [] &&
      run.processed == processed + |w.rows| && run.deleted == deleted + |w.rows| &&
      (run.listDeleted <==> Deletable(w, info, cfg.gracePeriod, now)) &&
      run.world.meta == (if run.listDeleted then None else w.meta)
  {
    ReliablePassOverExpiredBatch(w, info, cfg, now, processed, deleted);
  }

  /** When every row is expired, no call fails and the budget exceeds the
      number of rows, the run deletes every row, then deletes the list iff
      that is allowed, and returns Done. */
  lemma {:induction false} DrainsExpiredList(w: World, info: TaskListInfo, cfg: Config, now: int, processed: int, deleted: int)
    requires Ascending(w.rows) && ExpiredBefore(w.rows, |w.rows|, now) && Reliable(w)
    requires 0 < cfg.taskBatchSize && processed + |w.rows| < cfg.maxTasksPerJob
    ensures var run := DeleteLoop(w, info, cfg, now, processed, deleted);
      run.status == Done && run.world.rows == [] &&
      run.processed == processed + |w.rows| && run.deleted == deleted + |w.rows| &&
      (run.listDeleted <==> Deletable(w, info, cfg.gracePeriod, now)) &&
      run.world.meta == (if run.listDeleted then None else w.meta)
    decreases |w.rows|
  {
    if |w.rows| < cfg.taskBatchSize {
      ReliableShortPass(w, info, cfg, now, processed, deleted);
    } else {
      FullPassContinues(w, info, cfg, now, processed, deleted);
      var pass := DeletePass(w, info, cfg, now, processed, deleted);
      LoopUnfolds(w, info, cfg, now, processed, deleted);
      ExpiredSuffix(w.rows, cfg.taskBatchSize, now);
      DrainsExpiredList(pass.world, info, cfg, now, pass.processed, pass.deleted);
    }
  }

  /** A run that reaped exactly the first q rows and stopped on its budget,
      with the metadata untouched and every later call still succeeding. */
  predicate DefersAfterQuota(w: World, run: Run, q: int, processed: int, deleted: int) {
    0 <= q <= |w.rows| &&
    run.status == Defer && run.world.rows == w.rows[q..] && run.world.meta == w.meta &&
    run.processed == processed + q && run.deleted == deleted + q && !run.listDeleted &&
    Reliable(run.world)
  }

  /** The last pass of a run over expired rows, whose batch spends the
      budget: the batch is deleted and the run defers. */
  lemma BudgetSpentByPass(w: World, info: TaskListInfo, cfg: Config, now: int, processed: int, deleted: int)
    requires Ascending(w.rows) && ExpiredBefore(w.rows, |w.rows|, now) && Reliable(w)
    requires 0 < cfg.taskBatchSize <= |w.rows|
    requires processed < cfg.maxTasksPerJob <= processed + cfg.taskBatchSize
    ensures DefersAfterQuota(w, DeleteLoop(w, info, cfg, now, processed, deleted), cfg.taskBatchSize, processed, deleted)
  {
    FullPassContinues(w, info, cfg, now, processed, deleted);
    var pass := DeletePass(w, info, cfg, now, processed, deleted);
    LoopUnfolds(w, info, cfg, now, processed, deleted);
    SpentBudgetDefersWithoutCalls(pass.world, info, cfg, now, pass.processed, pass.deleted);
  }

  /** A list of 150 expired rows, reaped with batches of 100 and a budget of
      100 rows per run, with no failing call: the first run deletes 100 rows
      and defers; the second deletes the remaining 50, then deletes the list
      iff that is allowed, and is done. */
  lemma ScenarioOneHundredFifty(w: World, info: TaskListInfo, cfg: Config, now: int)
    requires Ascending(w.rows) && |w.rows| == 150 && ExpiredBefore(w.rows, |w.rows|, now) && Reliable(w)
    requires cfg.taskBatchSize == 100 && cfg.maxTasksPerJob == 100
    ensures var first := DeleteRun(w, info, cfg, now);
      var second := DeleteRun(first.world, info, cfg, now);
      first.status == Defer && first.deleted == 100 && first.world.rows == w.rows[100..] &&
      second.status == Done && second.deleted == 50 && second.world.rows == [] &&
      (second.listDeleted <==> Deletable(w, info, cfg.gracePeriod, now))
  {
    BudgetSpentByPass(w, info, cfg, now, 0, 0);
    ExpiredSuffix(w.rows, 100, now);
    var first := DeleteRun(w, info, cfg, now);
    DrainsExpiredList(first.world, info, cfg, now, 0, 0);
  }
}
