/** Startup recovery of leases, runs, worker runs and tasks left behind by a crash. */
module StaleStateRecovery {
  import opened Prelude

  datatype RunStatus = Planning | Working | Validating | Analyzing | Deciding | Completed | Failed | Blocked | Disposed

  datatype TaskStatus = Pending | Active | TaskCompleted | TaskFailed

  datatype RunRow = RunRow(taskId: string, status: RunStatus, summary: string, updatedAt: int)

  datatype TaskRow = TaskRow(status: TaskStatus, updatedAt: int)

  datatype WorkerRunRow = WorkerRunRow(status: string, classification: Option<string>, endedAt: Option<int>)

  /** Rows by primary key; a lease is keyed by its task. */
  datatype Tables = Tables(
    leases: map<string, int>,
    runs: map<string, RunRow>,
    workerRuns: map<string, WorkerRunRow>,
    tasks: map<string, TaskRow>)

  datatype Recovered = Recovered(runs: nat, tasks: nat, leases: nat)

  const CRASH_SUMMARY := "Recovered: process crash detected"

  predicate InProgress(status: RunStatus) {
    status in {Planning, Working, Validating, Analyzing, Deciding}
  }

  predicate LiveLease(t: Tables, taskId: string, now: int) {
    taskId in t.leases && t.leases[taskId] > now
  }

  /** Work nobody holds any more. */
  predicate StaleRun(t: Tables, id: string, now: int)
    requires id in t.runs
  {
    InProgress(t.runs[id].status) && !LiveLease(t, t.runs[id].taskId, now)
  }

  predicate StaleTask(t: Tables, id: string, now: int)
    requires id in t.tasks
  {
    t.tasks[id].status == Active && !LiveLease(t, id, now)
  }

  function StaleRuns(t: Tables, now: int): set<string> {
    set id | id in t.runs && StaleRun(t, id, now)
  }

  function StaleTasks(t: Tables, now: int): set<string> {
    set id | id in t.tasks && StaleTask(t, id, now)
  }

  function ExpiredLeases(t: Tables, now: int): set<string> {
    set id | id in t.leases && t.leases[id] <= now
  }

  // Which task status changes the domain allows.
  predicate LegalTransition(before: TaskStatus, after: TaskStatus) {
    before == after || match before
      case Pending => after in {Active, TaskCompleted, TaskFailed}
      case Active => after in {TaskCompleted, TaskFailed, Pending}
      case TaskCompleted => false
      case TaskFailed => after == Pending
  }

  function FailedRun(row: RunRow, now: int): RunRow {
    row.(status := Failed, summary := CRASH_SUMMARY, updatedAt := now)
  }

  /** An existing classification and end time are kept. */
  function FailedWorkerRun(row: WorkerRunRow, now: int): WorkerRunRow {
    WorkerRunRow("failed",
                 if row.classification.Some? then row.classification else Some("system_failure"),
                 if row.endedAt.Some? then row.endedAt else Some(now))
  }

  /** What recovery owes its callers, table by table. */
  ghost predicate Recovers(before: Tables, after: Tables, now: int, counts: Recovered) {
    && LeasesRecovered(before, after, now)
    && RunsRecovered(before, after, now)
    && TasksRecovered(before, after, now)
    && counts == Recovered(|StaleRuns(before, now)|, |StaleTasks(before, now)|, |ExpiredLeases(before, now)|)
  }

  ghost predicate LeasesRecovered(before: Tables, after: Tables, now: int) {
    && (forall id :: id in after.leases <==> id in before.leases && before.leases[id] > now)
    && (forall id :: id in after.leases ==> after.leases[id] == before.leases[id])
  }

  ghost predicate RunsRecovered(before: Tables, after: Tables, now: int) {
    && after.runs.Keys == before.runs.Keys
    && (forall id :: id in before.runs ==>
          after.runs[id] == if StaleRun(before, id, now) then FailedRun(before.runs[id], now) else before.runs[id])
    && after.workerRuns.Keys == before.workerRuns.Keys
    && (forall id :: id in before.workerRuns ==>
          after.workerRuns[id] == if id in StaleRuns(before, now) then FailedWorkerRun(before.workerRuns[id], now)
                                  else before.workerRuns[id])
  }

  ghost predicate TasksRecovered(before: Tables, after: Tables, now: int) {
    && after.tasks.Keys == before.tasks.Keys
    && (forall id :: id in before.tasks ==>
          after.tasks[id] == if StaleTask(before, id, now) then TaskRow(Pending, now) else before.tasks[id])
  }

  class SQLiteHarnessStore {
    var leases: map<string, int>
    var runs: map<string, RunRow>
    var workerRuns: map<string, WorkerRunRow>
    var tasks: map<string, TaskRow>

    ghost function Rows(): Tables
      reads this
    {
      Tables(leases, runs, workerRuns, tasks)
    }

    /** Deletes the leases that have run out. */
    method ExpireLeases(now: int) returns (expired: nat)
      modifies this`leases
      ensures LeasesRecovered(old(Rows()), Rows(), now)
      ensures expired == |ExpiredLeases(old(Rows()), now)|
    {
      var gone := set id | id in leases && leases[id] <= now;
      leases := map id | id in leases && id !in gone :: leases[id];
      assert gone == ExpiredLeases(old(Rows()), now);
      expired := |gone|;
    }

    /** Fails the in-progress runs whose task holds no live lease, and their worker runs. */
    method FailStaleRuns(now: int) returns (failed: nat)
      modifies this`runs, this`workerRuns
      ensures RunsRecovered(old(Rows()), Rows(), now)
      ensures failed == |StaleRuns(old(Rows()), now)|
    {
      var stale := set id | id in runs && InProgress(runs[id].status) &&
                            !(runs[id].taskId in leases && leases[runs[id].taskId] > now);
      assert stale == StaleRuns(Rows(), now);
      runs := map id | id in runs :: if id in stale then FailedRun(runs[id], now) else runs[id];
      if stale != {} {
        workerRuns := map id | id in workerRuns ::
          if id in stale then FailedWorkerRun(workerRuns[id], now) else workerRuns[id];
      }
      failed := |stale|;
    }

    /** Puts active tasks without any lease back to pending. */
    method ResetUnleasedTasks(now: int) returns (reset: nat)
      modifies this`tasks
      ensures tasks == map id | id in old(tasks) ::
                if old(tasks)[id].status == Active && id !in leases then TaskRow(Pending, now) else old(tasks)[id]
      ensures reset == |set id | id in old(tasks) && old(tasks)[id].status == Active && id !in leases|
    {
      var stale := set id | id in tasks && tasks[id].status == Active && id !in leases;
      tasks := map id | id in tasks :: if id in stale then TaskRow(Pending, now) else tasks[id];
      reset := |stale|;
    }

    /** One transaction: every statement works on the tables the earlier ones left. */
    method RecoverStaleState(now: int) returns (counts: Recovered)
      modifies this
      ensures Recovers(old(Rows()), Rows(), now, counts)
    {
      ghost var before := Rows();
      var expired := ExpireLeases(now);
      ghost var unleased := Rows();
      var failed := FailStaleRuns(now);
      ExpiredAreNotLive(before, unleased, now);
      assert RunsRecovered(before, Rows(), now);
      var reset := ResetUnleasedTasks(now);
      assert StaleTasks(before, now) == set id | id in before.tasks && before.tasks[id].status == Active && id !in leases;
      counts := Recovered(failed, reset, expired);
    }
  }

  /** Deleting expired leases changes neither which leases are live nor what is stale. */
  lemma ExpiredAreNotLive(before: Tables, after: Tables, now: int)
    requires LeasesRecovered(before, after, now) && after.runs == before.runs && after.tasks == before.tasks
    ensures forall id :: LiveLease(after, id, now) <==> LiveLease(before, id, now)
    ensures forall id :: LiveLease(before, id, now) <==> id in after.leases
    ensures StaleRuns(after, now) == StaleRuns(before, now)
    ensures forall id :: id in before.runs ==> (StaleRun(after, id, now) <==> StaleRun(before, id, now))
  {
    assert forall id :: LiveLease(after, id, now) <==> LiveLease(before, id, now);
  }

  /** Afterwards all active tasks and all in-progress runs are held by a live lease. */
  lemma EverythingActiveIsLeased(before: Tables, after: Tables, now: int, counts: Recovered)
    requires Recovers(before, after, now, counts)
    ensures forall id :: id in after.tasks && after.tasks[id].status == Active ==> LiveLease(after, id, now)
    ensures forall id :: id in after.runs && InProgress(after.runs[id].status) ==> LiveLease(after, after.runs[id].taskId, now)
  {
  }

  /** The same in the tables' own terms: every run afterwards has ended, or its task has a lease that
      runs beyond now; and no lease left has run out. */
  lemma EveryRunEndedOrLeased(before: Tables, after: Tables, now: int, counts: Recovered, id: string)
    requires Recovers(before, after, now, counts)
    ensures id in after.leases ==> after.leases[id] > now
    ensures id in after.runs ==> after.runs[id].status in {Completed, Failed, Blocked, Disposed} || after.runs[id].taskId in after.leases
    ensures id in after.tasks ==> after.tasks[id].status in {Pending, TaskCompleted, TaskFailed} || id in after.leases
  {
    EverythingActiveIsLeased(before, after, now, counts);
    if id in after.runs {
      var status := after.runs[id].status;
      assert InProgress(status) || status.Completed? || status.Failed? || status.Blocked? || status.Disposed?;
    }
  }

  /** What recovery writes: a run found in progress without a live lease fails with the crash summary
      at this time, and its worker run, if any, ends "failed" with a classification and an end time,
      its own where it had them and otherwise a system failure, now. An active task without a live
      lease waits again. */
  lemma StaleRowsEnd(before: Tables, after: Tables, now: int, counts: Recovered, id: string)
    requires Recovers(before, after, now, counts)
    ensures id in before.runs && before.runs[id].status in {Planning, Working, Validating, Analyzing, Deciding} &&
            (before.runs[id].taskId in before.leases ==> before.leases[before.runs[id].taskId] <= now) ==>
              && after.runs[id] == RunRow(before.runs[id].taskId, Failed, "Recovered: process crash detected", now)
              && (id in before.workerRuns ==>
                    var (was, ended) := (before.workerRuns[id], after.workerRuns[id]);
                    && ended.status == "failed"
                    && ended.classification == (if was.classification == None then Some("system_failure") else was.classification)
                    && ended.endedAt == (if was.endedAt == None then Some(now) else was.endedAt))
    ensures id in before.tasks && before.tasks[id].status == Active && (id in before.leases ==> before.leases[id] <= now) ==>
              after.tasks[id] == TaskRow(Pending, now)
    ensures id in before.workerRuns && id !in StaleRuns(before, now) ==> after.workerRuns[id] == before.workerRuns[id]
  {
    if id in before.runs { assert StaleRun(before, id, now) <==> id in StaleRuns(before, now); }
  }

  /** Work under a live lease and finished runs are untouched; the only changes are
      active to pending, a legal transition, and in-progress to failed. */
  lemma OnlyStaleWorkChanges(before: Tables, after: Tables, now: int, counts: Recovered)
    requires Recovers(before, after, now, counts)
    ensures forall id :: id in before.runs && (LiveLease(before, before.runs[id].taskId, now) || !InProgress(before.runs[id].status)) ==>
              after.runs[id] == before.runs[id]
    ensures forall id :: id in before.tasks && (LiveLease(before, id, now) || before.tasks[id].status != Active) ==>
              after.tasks[id] == before.tasks[id]
    ensures forall id :: id in before.tasks ==> LegalTransition(before.tasks[id].status, after.tasks[id].status)
    ensures forall id :: id in before.runs && after.runs[id].status != before.runs[id].status ==>
              InProgress(before.runs[id].status) && after.runs[id].status == Failed && after.runs[id].taskId == before.runs[id].taskId
    ensures forall id :: id in before.workerRuns ==>
              (before.workerRuns[id].classification.Some? ==> after.workerRuns[id].classification == before.workerRuns[id].classification) &&
              (before.workerRuns[id].endedAt.Some? ==> after.workerRuns[id].endedAt == before.workerRuns[id].endedAt)
  {
  }

  /** The counts are the numbers of rows whose status changed, and of leases deleted. */
  lemma CountsAreChanges(before: Tables, after: Tables, now: int, counts: Recovered)
    requires Recovers(before, after, now, counts)
    ensures counts.runs == |set id | id in before.runs && after.runs[id].status != before.runs[id].status|
    ensures counts.tasks == |set id | id in before.tasks && after.tasks[id].status != before.tasks[id].status|
    ensures counts.leases == |before.leases.Keys - after.leases.Keys|
  {
    assert StaleRuns(before, now) == set id | id in before.runs && after.runs[id].status != before.runs[id].status;
    assert StaleTasks(before, now) == set id | id in before.tasks && after.tasks[id].status != before.tasks[id].status;
    assert ExpiredLeases(before, now) == before.leases.Keys - after.leases.Keys;
  }

  /** A second recovery at the same time finds nothing to do. */
  lemma SecondRecoveryIsIdle(a: Tables, b: Tables, c: Tables, now: int, first: Recovered, second: Recovered)
    requires Recovers(a, b, now, first) && Recovers(b, c, now, second)
    ensures c == b && second == Recovered(0, 0, 0)
  {
    EverythingActiveIsLeased(a, b, now, first);
    assert StaleRuns(b, now) == {} && StaleTasks(b, now) == {} && ExpiredLeases(b, now) == {};
    assert c.runs == b.runs && c.tasks == b.tasks && c.workerRuns == b.workerRuns && c.leases == b.leases;
  }

  ghost predicate SameRuns(a: Tables, b: Tables) {
    && a.runs.Keys == b.runs.Keys && a.workerRuns.Keys == b.workerRuns.Keys
    && (forall id :: id in a.runs ==>
          a.runs[id].status == b.runs[id].status && a.runs[id].taskId == b.runs[id].taskId && a.runs[id].summary == b.runs[id].summary)
    && (forall id :: id in a.workerRuns ==>
          a.workerRuns[id].status == b.workerRuns[id].status && a.workerRuns[id].classification == b.workerRuns[id].classification)
  }

  ghost predicate SameTasks(a: Tables, b: Tables) {
    a.tasks.Keys == b.tasks.Keys && forall id :: id in a.tasks ==> a.tasks[id].status == b.tasks[id].status
  }

  /** Recovering early does no harm: a recovery at any earlier time is absorbed by a later
      one; only time stamps remember it. */
  lemma LaterRecoveryAbsorbsEarlier(a: Tables, early: Tables, both: Tables, late: Tables, t0: int, t1: int,
                                    n0: Recovered, n1: Recovered, n: Recovered)
    requires t0 <= t1
    requires Recovers(a, early, t0, n0) && Recovers(early, both, t1, n1) && Recovers(a, late, t1, n)
    ensures both.leases == late.leases && SameRuns(both, late) && SameTasks(both, late)
    ensures n0.runs + n1.runs == n.runs && n0.tasks + n1.tasks == n.tasks && n0.leases + n1.leases == n.leases
  {
    StaleSplits(a, early, t0, t1);
    ExpirySplits(a, early, t0, t1);
    assert both.leases == late.leases;
    RunsAbsorb(a, early, both, late, t0, t1);
    TasksAbsorb(a, early, both, late, t0, t1);
    SplitCount(StaleRuns(a, t1), StaleRuns(a, t0), StaleRuns(early, t1));
    SplitCount(StaleTasks(a, t1), StaleTasks(a, t0), StaleTasks(early, t1));
    SplitCount(ExpiredLeases(a, t1), ExpiredLeases(a, t0), ExpiredLeases(early, t1));
  }

  lemma RunsAbsorb(a: Tables, early: Tables, both: Tables, late: Tables, t0: int, t1: int)
    requires RunsRecovered(a, early, t0) && RunsRecovered(early, both, t1) && RunsRecovered(a, late, t1)
    requires StaleRuns(a, t1) == StaleRuns(a, t0) + StaleRuns(early, t1)
    ensures SameRuns(both, late)
  {
    forall id | id in a.runs
      ensures both.runs[id].status == late.runs[id].status
      ensures both.runs[id].taskId == late.runs[id].taskId && both.runs[id].summary == late.runs[id].summary
    {
      assert StaleRun(a, id, t1) <==> id in StaleRuns(a, t1);
      assert StaleRun(a, id, t0) <==> id in StaleRuns(a, t0);
      assert StaleRun(early, id, t1) <==> id in StaleRuns(early, t1);
    }
  }

  lemma TasksAbsorb(a: Tables, early: Tables, both: Tables, late: Tables, t0: int, t1: int)
    requires TasksRecovered(a, early, t0) && TasksRecovered(early, both, t1) && TasksRecovered(a, late, t1)
    requires StaleTasks(a, t1) == StaleTasks(a, t0) + StaleTasks(early, t1)
    ensures SameTasks(both, late)
  {
    forall id | id in a.tasks ensures both.tasks[id].status == late.tasks[id].status {
      assert StaleTask(a, id, t1) <==> id in StaleTasks(a, t1);
      assert StaleTask(a, id, t0) <==> id in StaleTasks(a, t0);
      assert StaleTask(early, id, t1) <==> id in StaleTasks(early, t1);
    }
  }

  lemma LiveLeasesCarryOver(a: Tables, early: Tables, id: string, t0: int, t1: int)
    requires t0 <= t1 && LeasesRecovered(a, early, t0)
    ensures LiveLease(early, id, t1) <==> LiveLease(a, id, t1)
    ensures LiveLease(a, id, t1) ==> LiveLease(a, id, t0)
  {
  }

  lemma StaleRunSplits(a: Tables, early: Tables, id: string, t0: int, t1: int)
    requires t0 <= t1 && LeasesRecovered(a, early, t0) && RunsRecovered(a, early, t0) && id in a.runs
    ensures StaleRun(a, id, t1) <==> StaleRun(a, id, t0) || StaleRun(early, id, t1)
    ensures !(StaleRun(a, id, t0) && StaleRun(early, id, t1))
  {
    hide LiveLease, LeasesRecovered;
    LiveLeasesCarryOver(a, early, a.runs[id].taskId, t0, t1);
  }

  lemma StaleTaskSplits(a: Tables, early: Tables, id: string, t0: int, t1: int)
    requires t0 <= t1 && LeasesRecovered(a, early, t0) && TasksRecovered(a, early, t0) && id in a.tasks
    ensures StaleTask(a, id, t1) <==> StaleTask(a, id, t0) || StaleTask(early, id, t1)
    ensures !(StaleTask(a, id, t0) && StaleTask(early, id, t1))
  {
    hide LiveLease, LeasesRecovered;
    LiveLeasesCarryOver(a, early, id, t0, t1);
  }

  /** What is stale later was stale earlier, or is still there to be found stale. */
  lemma StaleSplits(a: Tables, early: Tables, t0: int, t1: int)
    requires t0 <= t1 && LeasesRecovered(a, early, t0) && RunsRecovered(a, early, t0) && TasksRecovered(a, early, t0)
    ensures StaleRuns(a, t1) == StaleRuns(a, t0) + StaleRuns(early, t1) && StaleRuns(a, t0) !! StaleRuns(early, t1)
    ensures StaleTasks(a, t1) == StaleTasks(a, t0) + StaleTasks(early, t1) && StaleTasks(a, t0) !! StaleTasks(early, t1)
  {
    assert early.runs.Keys == a.runs.Keys && early.tasks.Keys == a.tasks.Keys;
    hide StaleRun, StaleTask, LeasesRecovered, RunsRecovered, TasksRecovered;
    forall id | id in a.runs
      ensures id in StaleRuns(a, t1) <==> id in StaleRuns(a, t0) || id in StaleRuns(early, t1)
      ensures !(id in StaleRuns(a, t0) && id in StaleRuns(early, t1))
    {
      StaleRunSplits(a, early, id, t0, t1);
    }
    forall id | id in a.tasks
      ensures id in StaleTasks(a, t1) <==> id in StaleTasks(a, t0) || id in StaleTasks(early, t1)
      ensures !(id in StaleTasks(a, t0) && id in StaleTasks(early, t1))
    {
      StaleTaskSplits(a, early, id, t0, t1);
    }
  }

  lemma ExpirySplits(a: Tables, early: Tables, t0: int, t1: int)
    requires t0 <= t1 && LeasesRecovered(a, early, t0)
    ensures ExpiredLeases(a, t1) == ExpiredLeases(a, t0) + ExpiredLeases(early, t1)
    ensures ExpiredLeases(a, t0) !! ExpiredLeases(early, t1)
  {
  }

  lemma SplitCount(whole: set<string>, a: set<string>, b: set<string>)
    requires whole == a + b && a !! b
    ensures |whole| == |a| + |b|
  {
  }
}
