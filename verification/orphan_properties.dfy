/**
 * What the orphan-task handler promises, proved about OrphanRun.
 */
module OrphanHandlerProperties {
  import opened Persistence
  import opened TaskListScavenger
  import opened DeleteHandlerProperties

  /** Among the n calls whose journal indices start at `start`, the number
      that succeed before the first failing one (n when none fails). */
  function FirstFailure(faults: seq<Outcome>, start: nat, n: nat): (k: nat)
    ensures k <= n
    ensures forall j :: start <= j < start + k ==> OutcomeAt(faults, j) == Succeed
    ensures k < n ==> OutcomeAt(faults, start + k).Fail?
    decreases n
  {
    if n == 0 || OutcomeAt(faults, start).Fail? then 0
    else 1 + FirstFailure(faults, start + 1, n - 1)
  }

  /** The number of complete-task calls a completion of `count` keys makes
      when the first `k` of them succeed. */
  function CallsMade(k: nat, count: nat): (m: nat)
    ensures m <= count || k > count
    ensures k <= m <= k + 1
  {
    if k < count then k + 1 else k
  }

  /** The journal entries of completing `keys` one after the other. */
  function CompleteCalls(keys: seq<TaskKey>): (calls: seq<Call>)
    ensures |calls| == |keys|
    ensures forall i :: 0 <= i < |keys| ==> calls[i] == CompleteTaskCall(keys[i])
  {
    if keys == [] then [] else [CompleteTaskCall(keys[0])] + CompleteCalls(keys[1..])
  }

  // ---------------------------------------------------------------------
  // Completing a page of orphan rows one at a time

  /** Completing keys one at a time stops at the first failing call: the
      keys before it are completed, the outcome is that call's failure (or
      success when none fails), and the task rows, the metadata and the
      fault script are left alone. */
  lemma {:induction false} CompleteEachStopsAtFirstFailure(w: World, keys: seq<TaskKey>)
    ensures var c := CompleteEach(w, keys);
      var k := FirstFailure(w.faults, |w.calls|, |keys|);
      c.completed == k &&
      c.outcome == (if k < |keys| then OutcomeAt(w.faults, |w.calls| + k) else Succeed) &&
      c.world.rows == w.rows && c.world.meta == w.meta && c.world.faults == w.faults
    decreases |keys|
  {
    if keys != [] {
      var step := CompleteTaskStep(w, keys[0]);
      if step.result.Ok? {
        CompleteEachStopsAtFirstFailure(step.world, keys[1..]);
        assert FirstFailure(w.faults, |w.calls|, |keys|) == 1 + FirstFailure(w.faults, |w.calls| + 1, |keys| - 1);
      }
    }
  }

  /** Putting one key's call in front of the journal of the keys after it
      gives the journal of a longer prefix of the keys. */
  lemma CompleteCallsCons(before: seq<Call>, keys: seq<TaskKey>, m: nat)
    requires m < |keys|
    ensures (before + [CompleteTaskCall(keys[0])]) + CompleteCalls(keys[1..][..m]) ==
      before + CompleteCalls(keys[..m + 1])
  {
    assert keys[..m + 1][1..] == keys[1..][..m];
    assert CompleteCalls(keys[..m + 1]) == [CompleteTaskCall(keys[0])] + CompleteCalls(keys[1..][..m]);
  }

  /** After a completed first key, the completion goes on with the rest. */
  lemma CompleteEachAfterFirst(w: World, keys: seq<TaskKey>)
    requires keys != [] && CompleteTaskStep(w, keys[0]).result.Ok?
    ensures var c1 := CompleteEach(CompleteTaskStep(w, keys[0]).world, keys[1..]);
      CompleteEach(w, keys) == c1.(completed := c1.completed + 1)
  {
  }

  /** The journal a completion of `keys` starting from `w` leaves: one call
      per key attempted, in order, namely the completed keys and then the
      key whose call failed, if any. */
  predicate JournalsAttempts(w: World, keys: seq<TaskKey>) {
    var c := CompleteEach(w, keys);
    var attempted := if c.outcome.Fail? then c.completed + 1 else c.completed;
    attempted <= |keys| && c.world.calls == w.calls + CompleteCalls(keys[..attempted])
  }

  /** A completed first key puts its call in front of the rest's journal. */
  lemma JournalAfterFirstCompleted(w: World, keys: seq<TaskKey>)
    requires keys != [] && CompleteTaskStep(w, keys[0]).result.Ok?
    requires JournalsAttempts(CompleteTaskStep(w, keys[0]).world, keys[1..])
    ensures JournalsAttempts(w, keys)
  {
    var step := CompleteTaskStep(w, keys[0]);
    var c1 := CompleteEach(step.world, keys[1..]);
    CompleteEachAfterFirst(w, keys);
    assert step.world.calls == w.calls + [CompleteTaskCall(keys[0])];
    CompleteCallsCons(w.calls, keys, if c1.outcome.Fail? then c1.completed + 1 else c1.completed);
  }

  /** Completing keys one at a time makes one call per key attempted, in
      order: the completed keys, then the key whose call failed, if any. */
  lemma {:induction false} CompleteEachJournal(w: World, keys: seq<TaskKey>)
    ensures JournalsAttempts(w, keys)
    decreases |keys|
  {
    if keys == [] {
      assert keys[..0] == [];
    } else if CompleteTaskStep(w, keys[0]).result.Failure? {
      assert keys[..1] == [keys[0]];
    } else {
      CompleteEachJournal(CompleteTaskStep(w, keys[0]).world, keys[1..]);
      JournalAfterFirstCompleted(w, keys);
    }
  }

  /** Completing keys one at a time deletes exactly the rows of the keys
      completed before the first failing call. */
  lemma {:induction false} CompleteEachDeletesCompletedKeys(w: World, keys: seq<TaskKey>)
    ensures var c := CompleteEach(w, keys);
      c.completed <= |keys| &&
      forall x :: x in c.world.orphans <==> x in w.orphans && x !in keys[..c.completed]
    decreases |keys|
  {
    if keys != [] {
      var step := CompleteTaskStep(w, keys[0]);
      if step.result.Ok? {
        var rest := CompleteEach(step.world, keys[1..]);
        CompleteEachDeletesCompletedKeys(step.world, keys[1..]);
        assert keys[..rest.completed + 1] == [keys[0]] + keys[1..][..rest.completed];
      }
    }
  }

  // ---------------------------------------------------------------------
  // One invocation of the handler

  /** A rate-limited orphan query defers the handler; it deletes nothing
      and makes no further call. */
  lemma RateLimitedQueryDefers(w: World, batchSize: int)
    requires NextOutcome(w) == Fail(LimitExceeded)
    ensures var run := OrphanRun(w, batchSize);
      run.status == Defer && run.processed == 0 && run.deleted == 0 &&
      run.world == Record(w, GetOrphanTasksCall(batchSize))
  {
  }

  /** Any other failure of the orphan query is an error; the handler
      deletes nothing and makes no further call. */
  lemma FailedQueryIsErr(w: World, batchSize: int, e: PersistenceError)
    requires NextOutcome(w) == Fail(e) && e != LimitExceeded
    ensures var run := OrphanRun(w, batchSize);
      run.status == Err && run.processed == 0 && run.deleted == 0 &&
      run.world == Record(w, GetOrphanTasksCall(batchSize))
  {
  }

  /** After a successful query, the handler's run is the completion of the
      page it fetched. */
  lemma OrphanRunAfterFetch(w: World, batchSize: int)
    requires NextOutcome(w) == Succeed
    ensures var fetched := Record(w, GetOrphanTasksCall(batchSize));
      var page := w.orphans[..PageLen(batchSize, |w.orphans|)];
      var done := CompleteEach(fetched, page);
      var run := OrphanRun(w, batchSize);
      run.world == done.world && run.processed == done.completed && run.deleted == done.completed &&
      !run.listDeleted &&
      (done.outcome.Fail? ==> run.status == ErrorStatus(done.outcome.error)) &&
      (done.outcome == Succeed ==> run.status == if |page| < batchSize then Done else Defer)
  {
  }

  /** After a successful query, the handler's status is decided by the
      first failing completion: rate limited gives Defer, anything else Err;
      when every completion succeeds, Done iff the page was short. */
  lemma OrphanStatusAfterFetch(w: World, batchSize: int)
    requires NextOutcome(w) == Succeed
    ensures var fetched := Record(w, GetOrphanTasksCall(batchSize));
      var page := w.orphans[..PageLen(batchSize, |w.orphans|)];
      var k := FirstFailure(fetched.faults, |fetched.calls|, |page|);
      var run := OrphanRun(w, batchSize);
      (k < |page| ==> run.status == ErrorStatus(OutcomeAt(fetched.faults, |fetched.calls| + k).error)) &&
      (k == |page| ==> run.status == if |page| < batchSize then Done else Defer)
  {
    var fetched := Record(w, GetOrphanTasksCall(batchSize));
    var page := w.orphans[..PageLen(batchSize, |w.orphans|)];
    OrphanRunAfterFetch(w, batchSize);
    CompleteEachStopsAtFirstFailure(fetched, page);
  }

  /** After a successful query, the handler's counters and store are those
      of completing the page's keys up to the first failing call. */
  lemma OrphanEffectsAfterFetch(w: World, batchSize: int)
    requires NextOutcome(w) == Succeed
    ensures var fetched := Record(w, GetOrphanTasksCall(batchSize));
      var page := w.orphans[..PageLen(batchSize, |w.orphans|)];
      var k := FirstFailure(fetched.faults, |fetched.calls|, |page|);
      var run := OrphanRun(w, batchSize);
      run.processed == k && run.deleted == k && !run.listDeleted &&
      run.world.calls == fetched.calls + CompleteCalls(page[..CallsMade(k, |page|)]) &&
      run.world.rows == w.rows && run.world.meta == w.meta &&
      (forall x :: x in run.world.orphans <==> x in w.orphans && x !in page[..k])
  {
    var fetched := Record(w, GetOrphanTasksCall(batchSize));
    var page := w.orphans[..PageLen(batchSize, |w.orphans|)];
    OrphanRunAfterFetch(w, batchSize);
    CompleteEachStopsAtFirstFailure(fetched, page);
    CompleteEachJournal(fetched, page);
    CompleteEachDeletesCompletedKeys(fetched, page);
  }

  /** After a successful query, the handler completes the page's keys in
      order up to the first failing call, journalling one call per key
      attempted. A rate-limited completion defers, any other failed
      completion is an error, and when every completion succeeds the
      handler is done iff the page was short, otherwise it defers. Every
      completed key is counted as examined and as deleted, and its row, and
      only its row, is gone. */
  lemma OrphanHandlerOutcome(w: World, batchSize: int)
    requires NextOutcome(w) == Succeed
    ensures var fetched := Record(w, GetOrphanTasksCall(batchSize));
      var page := w.orphans[..PageLen(batchSize, |w.orphans|)];
      var k := FirstFailure(fetched.faults, |fetched.calls|, |page|);
      var run := OrphanRun(w, batchSize);
      run.processed == k && run.deleted == k && !run.listDeleted &&
      run.world.calls == fetched.calls + CompleteCalls(page[..CallsMade(k, |page|)]) &&
      (k < |page| && OutcomeAt(fetched.faults, |fetched.calls| + k) == Fail(LimitExceeded) ==> run.status == Defer) &&
      (k < |page| && OutcomeAt(fetched.faults, |fetched.calls| + k) != Fail(LimitExceeded) ==> run.status == Err) &&
      (k == |page| ==> (run.status == Done <==> |page| < batchSize)) &&
      (k == |page| ==> (run.status == Defer <==> batchSize <= |page|)) &&
      run.world.rows == w.rows && run.world.meta == w.meta &&
      (forall x :: x in run.world.orphans <==> x in w.orphans && x !in page[..k])
  {
    OrphanStatusAfterFetch(w, batchSize);
    OrphanEffectsAfterFetch(w, batchSize);
  }

  /** When no call fails, the handler deletes every row of the page it
      fetched and is done iff that page was short, deferring otherwise. */
  lemma ReliableOrphanRun(w: World, batchSize: int)
    requires Reliable(w)
    ensures var page := w.orphans[..PageLen(batchSize, |w.orphans|)];
      var run := OrphanRun(w, batchSize);
      run.processed == |page| && run.deleted == |page| &&
      (run.status == Done <==> |page| < batchSize) &&
      (run.status == Defer <==> batchSize <= |page|) &&
      forall x :: x in run.world.orphans <==> x in w.orphans && x !in page
  {
    var page := w.orphans[..PageLen(batchSize, |w.orphans|)];
    OrphanHandlerOutcome(w, batchSize);
    var fetched := Record(w, GetOrphanTasksCall(batchSize));
    var k := FirstFailure(fetched.faults, |fetched.calls|, |page|);
    assert page[..k] == page;
  }

  /** A page of 3 orphan rows fetched with a page size of 100, whose second
      completion is rate limited: the first row is deleted and the handler
      defers. */
  lemma ScenarioSecondCompletionRateLimited(a: TaskKey, b: TaskKey, c: TaskKey)
    requires a != b && a != c
    ensures var w := World([], None, [a, b, c], [Succeed, Succeed, Fail(LimitExceeded)], []);
      var run := OrphanRun(w, 100);
      run.status == Defer && run.processed == 1 && run.deleted == 1 &&
      run.world.orphans == [b, c] &&
      run.world.calls == [GetOrphanTasksCall(100), CompleteTaskCall(a), CompleteTaskCall(b)]
  {
    var w := World([], None, [a, b, c], [Succeed, Succeed, Fail(LimitExceeded)], []);
    var fetch := GetOrphanTasksStep(w, 100);
    assert PageLen(100, 3) == 3 && [a, b, c][..3] == [a, b, c];
    assert fetch.result == Ok([a, b, c]);
    var first := CompleteTaskStep(fetch.world, a);
    assert [c][1..] == [] && [b, c][1..] == [c];
    assert Without([c], a) == [c];
    assert Without([b, c], a) == [b, c];
    assert first.world.orphans == [b, c];
    var second := CompleteTaskStep(first.world, b);
    assert second.result == Failure(LimitExceeded);
    assert [a, b, c][1..] == [b, c];
    assert CompleteEach(first.world, [b, c]) == Completion(Fail(LimitExceeded), second.world, 0);
  }
}
