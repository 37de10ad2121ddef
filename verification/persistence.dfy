/**
 * The persistence contract the task-list Scavenger relies on, as a small
 * in-memory store.
 *
 * The store holds the task rows of the one task list being scavenged (kept
 * in ascending task-ID order), that list's metadata row, and the task rows
 * whose owning task list no longer exists ("orphans"). Real persistence can
 * fail at any call: the store is given a fault script, and the i-th call it
 * receives reports faults[i] (every call past the end of the script
 * succeeds). Every call is appended to a journal, so properties such as
 * "no persistence call was made" or "complete-tasks was called with these
 * arguments" can be stated.
 */
module Persistence {

  datatype Option<T> = None | Some(value: T)

  /** A task row: its ID within the task list and its expiry time in
      nanoseconds since the Unix epoch (0 or less: the task never expires). */
  datatype Task = Task(taskID: int, expiry: int)

  /** A task list's metadata row. `rangeID` is the ownership fencing token,
      `lastUpdated` is in nanoseconds since the Unix epoch. */
  datatype TaskListInfo = TaskListInfo(
    domainID: string,
    name: string,
    taskType: int,
    rangeID: int,
    lastUpdated: int)

  /** The key of one task row, as returned by the orphan-task query. */
  datatype TaskKey = TaskKey(domainID: string, taskListName: string, taskType: int, taskID: int)

  /** The failures a persistence call may report: the rate limiter's
      "limit exceeded" signal, a failed conditional write, anything else. */
  datatype PersistenceError = LimitExceeded | ConditionFailed | OtherError

  datatype Outcome = Succeed | Fail(error: PersistenceError)

  datatype Result<T> = Ok(value: T) | Failure(error: PersistenceError)

  /** One call made to the store, as recorded in the journal. */
  datatype Call =
    | GetTasksCall(batchSize: int)
    | CompleteTasksCall(upToTaskID: int, limit: int)
    | DeleteTaskListCall(info: TaskListInfo)
    | GetOrphanTasksCall(batchSize: int)
    | CompleteTaskCall(key: TaskKey)

  /** The whole observable state of the store. */
  datatype World = World(
    rows: seq<Task>,
    meta: Option<TaskListInfo>,
    orphans: seq<TaskKey>,
    faults: seq<Outcome>,
    calls: seq<Call>)

  /** What one call reports, and the store afterwards. */
  datatype Step<T> = Step(result: Result<T>, world: World)

  /** Task rows are kept in strictly ascending task-ID order. */
  predicate Ascending(rows: seq<Task>) {
    forall i, j :: 0 <= i < j < |rows| ==> rows[i].taskID < rows[j].taskID
  }

  /** The outcome the fault script assigns to the call with index i. */
  function OutcomeAt(faults: seq<Outcome>, i: nat): Outcome {
    if i < |faults| then faults[i] else Succeed
  }

  /** The outcome of the next call made to the store. */
  function NextOutcome(w: World): Outcome {
    OutcomeAt(w.faults, |w.calls|)
  }

  function Record(w: World, c: Call): World {
    w.(calls := w.calls + [c])
  }

  /** The number of rows a page of `pageSize` holds when `available` exist. */
  function PageLen(pageSize: int, available: nat): (n: nat)
    ensures n <= available
    ensures pageSize <= 0 ==> n == 0
    ensures 0 < pageSize ==> n <= pageSize && (n < pageSize ==> n == available)
  {
    if pageSize <= 0 then 0 else if pageSize < available then pageSize else available
  }

  /** How many leading rows a "complete tasks up to `upTo`, at most `limit`"
      call removes: the longest run of leading rows whose ID is at most
      `upTo`, cut at `limit`. */
  function DeletablePrefix(rows: seq<Task>, upTo: int, limit: int): (k: nat)
    ensures k <= |rows| && (k == 0 || k <= limit)
    ensures forall i :: 0 <= i < k ==> rows[i].taskID <= upTo
    ensures k < |rows| && k < limit ==> upTo < rows[k].taskID
    decreases |rows|
  {
    if limit <= 0 || |rows| == 0 || upTo < rows[0].taskID then 0
    else 1 + DeletablePrefix(rows[1..], upTo, limit - 1)
  }

  /** On rows in ascending order, completing up to the ID of the n-th row,
      at most n rows, removes exactly the first n rows. */
  lemma {:induction false} CompleteUpToLastRemovesPage(rows: seq<Task>, n: nat)
    requires Ascending(rows) && 0 < n <= |rows|
    ensures DeletablePrefix(rows, rows[n - 1].taskID, n) == n
  {
  }

  /** `s` with every occurrence of `key` removed. */
  function Without(s: seq<TaskKey>, key: TaskKey): (r: seq<TaskKey>)
    ensures forall x :: x in r <==> x in s && x != key
    ensures |r| <= |s|
  {
    if s == [] then []
    else if s[0] == key then Without(s[1..], key)
    else [s[0]] + Without(s[1..], key)
  }

  /** Fetch the first page of task rows, in task-ID order. */
  function GetTasksStep(w: World, batchSize: int): Step<seq<Task>> {
    var o := NextOutcome(w);
    var w1 := Record(w, GetTasksCall(batchSize));
    if o.Fail? then Step(Failure(o.error), w1)
    else Step(Ok(w1.rows[..PageLen(batchSize, |w1.rows|)]), w1)
  }

  /** Delete the leading rows whose ID is at most `upTo`, at most `limit` of
      them; reports how many were deleted. */
  function CompleteTasksStep(w: World, upTo: int, limit: int): Step<nat> {
    var o := NextOutcome(w);
    var w1 := Record(w, CompleteTasksCall(upTo, limit));
    if o.Fail? then Step(Failure(o.error), w1)
    else
      var k := DeletablePrefix(w1.rows, upTo, limit);
      Step(Ok(k), w1.(rows := w1.rows[k..]))
  }

  /** Delete the metadata row, on condition that it still carries the
      rangeID the caller observed. */
  function DeleteTaskListStep(w: World, info: TaskListInfo): Step<()> {
    var o := NextOutcome(w);
    var w1 := Record(w, DeleteTaskListCall(info));
    if o.Fail? then Step(Failure(o.error), w1)
    else if w1.meta.Some? && w1.meta.value.rangeID == info.rangeID then Step(Ok(()), w1.(meta := None))
    else Step(Failure(ConditionFailed), w1)
  }

  /** Fetch the first page of orphan task rows. */
  function GetOrphanTasksStep(w: World, batchSize: int): Step<seq<TaskKey>> {
    var o := NextOutcome(w);
    var w1 := Record(w, GetOrphanTasksCall(batchSize));
    if o.Fail? then Step(Failure(o.error), w1)
    else Step(Ok(w1.orphans[..PageLen(batchSize, |w1.orphans|)]), w1)
  }

  /** Delete one orphan task row; deleting a row that is already gone
      succeeds. */
  function CompleteTaskStep(w: World, key: TaskKey): Step<()> {
    var o := NextOutcome(w);
    var w1 := Record(w, CompleteTaskCall(key));
    if o.Fail? then Step(Failure(o.error), w1)
    else Step(Ok(()), w1.(orphans := Without(w1.orphans, key)))
  }

  /** The store itself. Each method performs one call and leaves the store
      in the state the matching step function gives. */
  class Store {
    var rows: seq<Task>
    var meta: Option<TaskListInfo>
    var orphans: seq<TaskKey>
    var faults: seq<Outcome>
    var calls: seq<Call>

    function State(): World
      reads this
    {
      World(rows, meta, orphans, faults, calls)
    }

    predicate Valid()
      reads this
    {
      Ascending(rows)
    }

    constructor (w: World)
      requires Ascending(w.rows)
      ensures Valid() && State() == w
    {
      rows, meta, orphans, faults, calls := w.rows, w.meta, w.orphans, w.faults, w.calls;
    }

    method Next(c: Call) returns (o: Outcome)
      modifies this
      ensures o == NextOutcome(old(State())) && State() == Record(old(State()), c)
    {
      o := OutcomeAt(faults, |calls|);
      calls := calls + [c];
    }

    method GetTasks(batchSize: int) returns (r: Result<seq<Task>>)
      requires Valid()
      modifies this
      ensures Valid() && Step(r, State()) == GetTasksStep(old(State()), batchSize)
    {
      var o := Next(GetTasksCall(batchSize));
      if o.Fail? {
        r := Failure(o.error);
      } else {
        r := Ok(rows[..PageLen(batchSize, |rows|)]);
      }
    }

    method CompleteTasks(upTo: int, limit: int) returns (r: Result<nat>)
      requires Valid()
      modifies this
      ensures Valid() && Step(r, State()) == CompleteTasksStep(old(State()), upTo, limit)
    {
      var o := Next(CompleteTasksCall(upTo, limit));
      if o.Fail? {
        r := Failure(o.error);
      } else {
        var k := DeletablePrefix(rows, upTo, limit);
        rows := rows[k..];
        r := Ok(k);
      }
    }

    method DeleteTaskList(info: TaskListInfo) returns (r: Result<()>)
      requires Valid()
      modifies this
      ensures Valid() && Step(r, State()) == DeleteTaskListStep(old(State()), info)
    {
      var o := Next(DeleteTaskListCall(info));
      if o.Fail? {
        r := Failure(o.error);
      } else if meta.Some? && meta.value.rangeID == info.rangeID {
        meta := None;
        r := Ok(());
      } else {
        r := Failure(ConditionFailed);
      }
    }

    method GetOrphanTasks(batchSize: int) returns (r: Result<seq<TaskKey>>)
      requires Valid()
      modifies this
      ensures Valid() && Step(r, State()) == GetOrphanTasksStep(old(State()), batchSize)
    {
      var o := Next(GetOrphanTasksCall(batchSize));
      if o.Fail? {
        r := Failure(o.error);
      } else {
        r := Ok(orphans[..PageLen(batchSize, |orphans|)]);
      }
    }

    method CompleteTask(key: TaskKey) returns (r: Result<()>)
      requires Valid()
      modifies this
      ensures Valid() && Step(r, State()) == CompleteTaskStep(old(State()), key)
    {
      var o := Next(CompleteTaskCall(key));
      if o.Fail? {
        r := Failure(o.error);
      } else {
        orphans := Without(orphans, key);
        r := Ok(());
      }
    }
  }
}
