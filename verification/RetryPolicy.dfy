/** Analysis, decision and the retry loop around them: when a task stops, what a completed
    task is backed by, and how long it may take. */
module RetryPolicies {
  import opened Prelude

  datatype Outcome = Success | Blocked | Failed

  /** What a worker hands back: the kinds of the run's artifacts, its diagnostics flags and the
      time it took. */
  datatype Work = Work(outcome: Outcome, artifacts: seq<string>, infrastructure: bool, unavailable: bool, seconds: nat)

  datatype Task = Task(maxAttempts: int, maxBranches: int, required: seq<string>)

  datatype Verdict = Acceptable | Incomplete | VerdictFailed | VerdictBlocked

  datatype Analysis = Analysis(verdict: Verdict, confidence: real, infrastructure: bool, missing: set<string>)

  datatype Action = Retry | Promote | Fail | Branch

  datatype RunStatus = RunCompleted | RunFailed | RunBlocked | RunDisposed

  datatype TaskStatus = Pending | Active | Completed | TaskFailed

  datatype Run = Run(attempt: int, onBranch: bool, status: RunStatus, action: Option<Action>, work: Work)

  datatype State = State(status: TaskStatus, runs: seq<Run>)

  /** The worker as an oracle: its results on successive ordinary runs and on branch runs. */
  datatype Worker = Worker(main: nat -> Work, branch: nat -> Work)

  // ---------------------------------------------------------------- analyzer and decider

  function Kinds(s: seq<string>): set<string> {
    set k | k in s
  }

  function Analyze(task: Task, work: Work): Analysis {
    var missing := Kinds(task.required) - Kinds(work.artifacts);
    if work.artifacts == [] then Analysis(VerdictFailed, 0.95, false, {})
    else if missing != {} then Analysis(Incomplete, 0.9, false, missing)
    else Analysis(Acceptable, 0.8, false, {})
  }

  /** An ordinary run asks the analyzer's entry point for its worker's outcome. */
  function Assess(task: Task, work: Work): Analysis {
    match work.outcome
    case Blocked => Analysis(VerdictBlocked, 0.95, work.infrastructure, {})
    case Failed => Analysis(VerdictFailed, 0.95, work.infrastructure, {})
    case Success => Analyze(task, work)
  }

  /** A branch run tells only blocked apart: a failed outcome is judged by its artifacts. */
  function AssessBranch(task: Task, work: Work): Analysis {
    if work.outcome.Blocked? then Assess(task, work) else Analyze(task, work)
  }

  function Decide(a: Analysis, attempt: int, onBranch: bool, task: Task): Action {
    if a.infrastructure then (if attempt < task.maxAttempts then Retry else Fail)
    else if a.verdict.Acceptable? then Promote
    else if a.verdict.VerdictBlocked? then (if attempt < task.maxAttempts then Retry else Fail)
    else if attempt >= task.maxAttempts then (if task.maxBranches > 1 && !onBranch then Branch else Fail)
    else Retry
  }

  /** There are artifacts, and among them every required kind. */
  predicate Delivers(task: Task, work: Work) {
    work.artifacts != [] && forall k :: k in task.required ==> k in work.artifacts
  }

  lemma AcceptableMeansDelivered(task: Task, work: Work)
    ensures Analyze(task, work).verdict.Acceptable? <==> Delivers(task, work)
  {
    var required, kinds := Kinds(task.required), Kinds(work.artifacts);
    if k :| k in required - kinds {
      assert k in task.required && k !in work.artifacts;
    } else {
      assert required - kinds == {};
      forall k | k in task.required ensures k in work.artifacts {
        assert k in required && k !in required - kinds;
      }
    }
  }

  /** Promotion of an ordinary run: exactly a worker that reports success and delivers every
      required artifact, whatever the attempt. */
  lemma PromoteMeansDelivered(task: Task, work: Work, attempt: int, onBranch: bool)
    ensures Decide(Assess(task, work), attempt, onBranch, task) == Promote <==> work.outcome.Success? && Delivers(task, work)
  {
    AcceptableMeansDelivered(task, work);
  }

  /** Retrying is exactly what happens below the attempt limit to work that is not promoted. */
  lemma RetryMeansAttemptsRemain(task: Task, work: Work, attempt: int, onBranch: bool)
    ensures Decide(Assess(task, work), attempt, onBranch, task) == Retry
            <==> attempt < task.maxAttempts && !(work.outcome.Success? && Delivers(task, work))
  {
    AcceptableMeansDelivered(task, work);
  }

  /** From the attempt limit on, work that is not promoted branches exactly when the task allows more
      than one branch, the run is not itself a branch, and the worker neither was blocked nor failed
      on infrastructure; all other work fails. */
  lemma LastAttemptBranchesOrFails(task: Task, work: Work, attempt: int, onBranch: bool)
    requires attempt >= task.maxAttempts && !(work.outcome.Success? && Delivers(task, work))
    ensures Decide(Assess(task, work), attempt, onBranch, task) ==
            if task.maxBranches >= 2 && !onBranch && (work.outcome.Success? || (work.outcome.Failed? && !work.infrastructure))
            then Branch else Fail
  {
    AcceptableMeansDelivered(task, work);
  }

  // ---------------------------------------------------------------- one turn of the loop

  function MaxAttempt(runs: seq<Run>): (m: int)
    ensures m >= 0
    ensures forall i :: 0 <= i < |runs| ==> runs[i].attempt <= m
  {
    if runs == [] then 0 else MaxInt(MaxAttempt(runs[..|runs| - 1]), runs[|runs| - 1].attempt)
  }

  /** The highest attempt is some run's own, or 0 for a task without runs. */
  lemma {:induction false} HighestAttemptIsReached(runs: seq<Run>)
    ensures MaxAttempt(runs) == 0 || exists i :: 0 <= i < |runs| && runs[i].attempt == MaxAttempt(runs)
  {
    if runs != [] {
      var front := runs[..|runs| - 1];
      HighestAttemptIsReached(front);
      if i :| 0 <= i < |front| && front[i].attempt == MaxAttempt(front) { assert runs[i] == front[i]; }
    }
  }

  predicate Terminal(s: State) {
    s.status == Completed || s.status == TaskFailed
  }

  function RunOnce(task: Task, s: State, work: Work): State {
    var attempt := MaxAttempt(s.runs) + 1;
    if work.unavailable then State(Pending, s.runs + [Run(attempt, false, RunBlocked, None, work)])
    else
      var a := Assess(task, work);
      var action := Decide(a, attempt, false, task);
      var runStatus := if a.verdict.VerdictBlocked? then RunBlocked else if action == Promote then RunCompleted else RunFailed;
      var taskStatus := match action case Promote => Completed case Fail => TaskFailed case Branch => Active case Retry => Pending;
      State(taskStatus, s.runs + [Run(attempt, false, runStatus, Some(action), work)])
  }

  /** What an ordinary run leaves: one record, numbered one above the highest attempt so far, and a
      task that is completed by promoted work, waits for another try below the limit or without a
      backend, and at the limit goes on to branches or fails. */
  lemma RunLeaves(task: Task, s: State, work: Work)
    ensures var s' := RunOnce(task, s, work);
            var run := Run(MaxAttempt(s.runs) + 1, false, s'.runs[|s.runs|].status, s'.runs[|s.runs|].action, work);
            var delivered := work.outcome.Success? && Delivers(task, work);
            var last := MaxAttempt(s.runs) + 1 >= task.maxAttempts;
            && s'.runs == s.runs + [run]
            && run.status == (if work.unavailable || work.outcome.Blocked? then RunBlocked else if delivered then RunCompleted else RunFailed)
            && (run.action.None? <==> work.unavailable)
            && (s'.status == Completed <==> !work.unavailable && delivered)
            && (s'.status == Pending <==> work.unavailable || (!delivered && !last))
            && (s'.status == Active <==> run.action == Some(Branch))
            && (s'.status == TaskFailed <==> run.action == Some(Fail))
  {
    var attempt := MaxAttempt(s.runs) + 1;
    PromoteMeansDelivered(task, work, attempt, false);
    RetryMeansAttemptsRemain(task, work, attempt, false);
  }

  function BranchRuns(task: Task, base: int, branch: nat -> Work, n: nat): (runs: seq<Run>)
    ensures |runs| == n
    ensures forall i :: 0 <= i < n ==> runs[i].onBranch && runs[i].attempt == base + i && runs[i].work == branch(i) && runs[i].action.None?
  {
    if n == 0 then []
    else
      var work := branch(n - 1);
      var status := if AssessBranch(task, work).verdict.Acceptable? then RunCompleted else RunFailed;
      BranchRuns(task, base, branch, n - 1) + [Run(base + n - 1, true, status, None, work)]
  }

  /** The winner among branch runs: completed, with the most artifacts, the earliest of equals.
      Completed branches all carry the same confidence, so their artifacts decide the score. */
  ghost predicate IsWinner(runs: seq<Run>, w: nat) {
    && w < |runs| && runs[w].status == RunCompleted
    && (forall i :: 0 <= i < |runs| && runs[i].status == RunCompleted ==> |runs[i].work.artifacts| <= |runs[w].work.artifacts|)
    && (forall i :: 0 <= i < w && runs[i].status == RunCompleted ==> |runs[i].work.artifacts| < |runs[w].work.artifacts|)
  }

  ghost predicate NoneCompleted(runs: seq<Run>) {
    forall i :: 0 <= i < |runs| ==> runs[i].status != RunCompleted
  }

  /** What selection does to the branch runs: the winner is promoted, the others disposed of. */
  ghost predicate Resolved(before: seq<Run>, after: seq<Run>, w: nat) {
    && |after| == |before| && w < |before|
    && after[w] == before[w].(action := Some(Promote))
    && (forall i :: 0 <= i < |before| && i != w ==> after[i] == before[i].(status := RunDisposed))
  }

  /** Branching from a state: speculative runs are appended and one of them, if any completed,
      decides the task. */
  ghost predicate Branched(task: Task, s: State, branch: nat -> Work, s': State)
    requires task.maxBranches >= 0
  {
    var runs := BranchRuns(task, MaxAttempt(s.runs) + 1, branch, task.maxBranches);
    && |s'.runs| == |s.runs| + |runs| && s'.runs[..|s.runs|] == s.runs
    && (if NoneCompleted(runs) then s'.status == TaskFailed && s'.runs[|s.runs|..] == runs
        else s'.status == Completed && exists w :: IsWinner(runs, w) && Resolved(runs, s'.runs[|s.runs|..], w))
  }

  /** One turn of the loop: a run, and the branching it may ask for. */
  ghost predicate Turn(task: Task, worker: Worker, s: State, i: nat, s': State) {
    var mid := RunOnce(task, s, worker.main(i));
    if mid.runs[|s.runs|].action == Some(Branch) then task.maxBranches > 1 && Branched(task, mid, worker.branch, s') else s' == mid
  }

  /** The states a loop goes through: each turn starts from a state that is not yet terminal. */
  ghost predicate Trace(task: Task, worker: Worker, states: seq<State>) {
    states != [] &&
    forall i :: 0 <= i < |states| - 1 ==> LoopStep(task, worker, states, i)
  }

  ghost predicate LoopStep(task: Task, worker: Worker, states: seq<State>, i: nat)
    requires i + 1 < |states|
  {
    !Terminal(states[i]) && Turn(task, worker, states[i], i, states[i + 1])
  }

  class RunService {
    const task: Task
    var status: TaskStatus
    var runs: seq<Run>

    ghost function View(): State
      reads this
    {
      State(status, runs)
    }

    method Once(work: Work) returns (branching: bool)
      modifies this
      ensures View() == RunOnce(task, old(View()), work)
      ensures |runs| == |old(runs)| + 1 && branching == (runs[|old(runs)|].action == Some(Branch))
      ensures branching ==> task.maxBranches > 1
    {
      var attempt := NextAttempt();
      if work.unavailable {
        runs := runs + [Run(attempt, false, RunBlocked, None, work)];
        status := Pending;
        return false;
      }
      var analysis := Assess(task, work);
      var action := Decide(analysis, attempt, false, task);
      var runStatus := if action == Promote then RunCompleted else RunFailed;
      if analysis.verdict.VerdictBlocked? { runStatus := RunBlocked; }
      status := if action == Promote then Completed else Pending;
      if action == Fail { status := TaskFailed; }
      if action == Branch { status := Active; }
      runs := runs + [Run(attempt, false, runStatus, Some(action), work)];
      branching := action == Branch;
    }

    method NextAttempt() returns (attempt: int)
      ensures attempt == MaxAttempt(runs) + 1
    {
      var most := 0;
      for i := 0 to |runs|
        invariant most == MaxAttempt(runs[..i])
      {
        assert runs[..i + 1][..i] == runs[..i];
        if runs[i].attempt > most { most := runs[i].attempt; }
      }
      assert runs[..|runs|] == runs;
      attempt := most + 1;
    }

    method CreateBranches(branch: nat -> Work) returns (made: seq<Run>)
      requires task.maxBranches > 1
      modifies this
      ensures made == BranchRuns(task, MaxAttempt(old(runs)) + 1, branch, task.maxBranches)
      ensures runs == old(runs) + made && status == Active
    {
      status := Active;
      var base := NextAttempt();
      made := [];
      for index := 0 to task.maxBranches
        invariant made == BranchRuns(task, base, branch, index)
      {
        var work := branch(index);
        var done := AssessBranch(task, work).verdict.Acceptable?;
        made := made + [Run(base + index, true, if done then RunCompleted else RunFailed, None, work)];
      }
      runs := runs + made;
    }

    method SelectWinner(first: nat) returns (winner: Option<nat>)
      requires first <= |runs|
      modifies this
      ensures winner.None? ==> NoneCompleted(old(runs)[first..]) && runs == old(runs) && status == TaskFailed
      ensures winner.Some? ==> IsWinner(old(runs)[first..], winner.value) && status == Completed
                               && |runs| == |old(runs)| && runs[..first] == old(runs)[..first]
                               && Resolved(old(runs)[first..], runs[first..], winner.value)
    {
      ghost var made := runs[first..];
      winner := None;
      for i := 0 to |runs| - first
        invariant winner.None? ==> forall k :: 0 <= k < i ==> made[k].status != RunCompleted
        invariant winner.Some? ==> winner.value < i && IsWinner(made[..i], winner.value)
      {
        if runs[first + i].status == RunCompleted &&
           (winner.None? || |runs[first + i].work.artifacts| > |runs[first + winner.value].work.artifacts|) {
          winner := Some(i);
        }
      }
      assert made[..|made|] == made;
      if winner.None? {
        status := TaskFailed;
        return;
      }
      for i := first to |runs|
        invariant |runs| == |old(runs)| && runs[..first] == old(runs)[..first]
        invariant forall k :: first <= k < i && k - first != winner.value ==> runs[k] == old(runs)[k].(status := RunDisposed)
        invariant forall k :: first <= k < |runs| && (k - first == winner.value || k >= i) ==> runs[k] == old(runs)[k]
      {
        if i - first != winner.value {
          runs := runs[i := runs[i].(status := RunDisposed)];
        }
      }
      var w := first + winner.value;
      runs := runs[w := runs[w].(action := Some(Promote))];
      status := Completed;
    }

    /** `run_until_stable`, watched for at most `turns` turns: the loop itself has no bound. */
    method RunUntilStable(worker: Worker, turns: nat) returns (ghost states: seq<State>)
      modifies this
      ensures Trace(task, worker, states) && states[0] == old(View()) && states[|states| - 1] == View()
      ensures Terminal(View()) || |states| == turns + 1
    {
      states := [View()];
      var i := 0;
      while i < turns && status != Completed && status != TaskFailed
        invariant i <= turns && |states| == i + 1
        invariant Trace(task, worker, states) && states[0] == old(View()) && states[i] == View()
      {
        ghost var before := View();
        var branching := Once(worker.main(i));
        if branching { Branching(worker.branch); }
        states := AppendTurn(task, worker, states, View());
        i := i + 1;
      }
    }

    method Branching(branch: nat -> Work)
      requires task.maxBranches > 1
      modifies this
      ensures Branched(task, old(View()), branch, View())
    {
      hide BranchRuns, MaxAttempt;
      var first := |runs|;
      var made := CreateBranches(branch);
      assert runs[first..] == made && runs[..first] == old(runs);
      var winner := SelectWinner(first);
      if winner.Some? {
        assert made[winner.value].status == RunCompleted;
      }
    }
  }

  ghost function AppendTurn(task: Task, worker: Worker, states: seq<State>, s: State): (longer: seq<State>)
    requires Trace(task, worker, states)
    requires !Terminal(states[|states| - 1]) && Turn(task, worker, states[|states| - 1], |states| - 1, s)
    ensures longer == states + [s] && Trace(task, worker, longer)
  {
    var longer := states + [s];
    assert forall i :: 0 <= i < |longer| - 1 ==> LoopStep(task, worker, longer, i) by {
      forall i | 0 <= i < |longer| - 1 ensures LoopStep(task, worker, longer, i) {
        if i < |states| - 1 { assert LoopStep(task, worker, states, i); }
      }
    }
    longer
  }

  // ---------------------------------------------------------------- when the loop stops

  /** The turn that stops the loop: not an unavailable backend, and either promoted work or an
      attempt number at the limit. */
  predicate Stops(task: Task, p: int, i: nat, work: Work) {
    !work.unavailable && ((work.outcome.Success? && Delivers(task, work)) || p + i + 1 >= task.maxAttempts)
  }

  lemma TurnStops(task: Task, worker: Worker, s: State, i: nat, s': State)
    requires Turn(task, worker, s, i, s')
    ensures Terminal(s') <==> Stops(task, MaxAttempt(s.runs) - i, i, worker.main(i))
    ensures !Terminal(s') ==> s' == RunOnce(task, s, worker.main(i)) && s'.status == Pending
  {
    var work := worker.main(i);
    PromoteMeansDelivered(task, work, MaxAttempt(s.runs) + 1, false);
    RetryMeansAttemptsRemain(task, work, MaxAttempt(s.runs) + 1, false);
  }

  lemma {:induction false} AttemptsCountUp(task: Task, worker: Worker, states: seq<State>, i: nat)
    requires Trace(task, worker, states) && i < |states| && !Terminal(states[i])
    ensures MaxAttempt(states[i].runs) == MaxAttempt(states[0].runs) + i
    ensures |states[i].runs| == |states[0].runs| + i
  {
    if i > 0 {
      assert LoopStep(task, worker, states, i - 1);
      AttemptsCountUp(task, worker, states, i - 1);
      TurnStops(task, worker, states[i - 1], i - 1, states[i]);
      assert states[i].runs[..|states[i - 1].runs|] == states[i - 1].runs;
    }
  }

  /** Exactly when the loop stops: a state is terminal if and only if its last turn is the first
      whose work was promoted, or came at the attempt limit, with some backend available. */
  lemma StopsExactlyWhen(task: Task, worker: Worker, states: seq<State>, i: nat)
    requires Trace(task, worker, states) && 0 < i < |states|
    ensures Terminal(states[i]) <==> Stops(task, MaxAttempt(states[0].runs), i - 1, worker.main(i - 1))
    ensures Terminal(states[i]) ==> i == |states| - 1
  {
    assert LoopStep(task, worker, states, i - 1);
    AttemptsCountUp(task, worker, states, i - 1);
    TurnStops(task, worker, states[i - 1], i - 1, states[i]);
    if i < |states| - 1 { assert LoopStep(task, worker, states, i); }
  }

  /** The turns a task has left: at least one, and no more than its remaining attempts. */
  function TurnsLeft(task: Task, s: State): (n: nat)
    ensures n >= 1
  {
    MaxInt(task.maxAttempts - MaxAttempt(s.runs), 1)
  }

  /** How many of the turns from one to another find no backend. */
  function Outages(worker: Worker, from: nat, to: nat): nat {
    if to <= from then 0 else Outages(worker, from, to - 1) + (if worker.main(to - 1).unavailable then 1 else 0)
  }

  /** From the last allowed attempt on, the first turn with a backend stops the loop. */
  lemma AvailableTurnStops(task: Task, worker: Worker, states: seq<State>, j: nat)
    requires Trace(task, worker, states) && TurnsLeft(task, states[0]) <= j + 1
    ensures j + 1 < |states| ==> (Terminal(states[j + 1]) <==> !worker.main(j).unavailable)
    ensures !worker.main(j).unavailable ==> |states| <= j + 2
  {
    if j + 1 < |states| { StopsExactlyWhen(task, worker, states, j + 1); }
  }

  lemma {:induction false} OutagesFill(task: Task, worker: Worker, states: seq<State>, from: nat, to: nat)
    requires Trace(task, worker, states) && TurnsLeft(task, states[0]) <= from + 1 <= to + 1 <= |states|
    ensures to - from - 1 <= Outages(worker, from, to)
    ensures to + 1 < |states| ==> Outages(worker, from, to) == to - from
  {
    if from < to {
      OutagesFill(task, worker, states, from, to - 1);
      if to + 1 < |states| { AvailableTurnStops(task, worker, states, to - 1); }
    }
  }

  /** Bounded retry, for every stream of outcomes: a loop takes at most the turns left, plus one
      for each turn at or past the last allowed attempt that finds no backend; and it stops at
      the last allowed attempt if and only if that one finds a backend. */
  lemma RetryIsBounded(task: Task, worker: Worker, states: seq<State>)
    requires Trace(task, worker, states)
    ensures var (left, turns) := (TurnsLeft(task, states[0]), |states| - 1);
            && turns <= left + Outages(worker, left - 1, turns)
            && (!worker.main(left - 1).unavailable ==> turns <= left)
            && (left <= turns ==> (Terminal(states[left]) <==> !worker.main(left - 1).unavailable))
  {
    var left, turns := TurnsLeft(task, states[0]), |states| - 1;
    AvailableTurnStops(task, worker, states, left - 1);
    if left <= turns { OutagesFill(task, worker, states, left - 1, turns); }
  }

  /** A turn without a backend leaves as many turns as before if and only if the next attempt was
      already the last allowed one; the attempt number goes up in any case. */
  lemma OutageCostsNothingIff(task: Task, s: State, work: Work)
    requires work.unavailable
    ensures var s' := RunOnce(task, s, work);
            && MaxAttempt(s'.runs) == MaxAttempt(s.runs) + 1
            && (TurnsLeft(task, s') == TurnsLeft(task, s) <==> MaxAttempt(s.runs) + 1 >= task.maxAttempts)
  {
    assert RunOnce(task, s, work).runs[..|s.runs|] == s.runs;
  }

  /** Unavailable backends do use up attempts, and by themselves never stop the loop: after any
      number of such turns the task is pending and the next run gets the next number. */
  lemma {:induction false} UnavailableTurnsNeverStop(task: Task, worker: Worker, states: seq<State>)
    requires Trace(task, worker, states) && !Terminal(states[0])
    requires forall i :: 0 <= i < |states| - 1 ==> worker.main(i).unavailable
    ensures !Terminal(states[|states| - 1])
    ensures MaxAttempt(states[|states| - 1].runs) == MaxAttempt(states[0].runs) + |states| - 1
  {
    var n := |states| - 1;
    if n > 0 { StopsExactlyWhen(task, worker, states, n); }
    AttemptsCountUp(task, worker, states, n);
  }

  /** A task that sat out its attempts on unavailable backends gets no retry: its first run on a
      working backend either delivers, or is the last. */
  lemma OutageUsesUpTheRetries(task: Task, worker: Worker, states: seq<State>, n: nat)
    requires Trace(task, worker, states) && n + 1 < |states|
    requires forall i :: 0 <= i < n ==> worker.main(i).unavailable
    requires MaxAttempt(states[0].runs) + n + 1 >= task.maxAttempts && !worker.main(n).unavailable
    ensures Terminal(states[n + 1]) && |states| == n + 2
  {
    StopsExactlyWhen(task, worker, states, n + 1);
  }

  // ---------------------------------------------------------------- what a loop leaves behind

  function Seconds(runs: seq<Run>): nat {
    if runs == [] then 0 else Seconds(runs[..|runs| - 1]) + runs[|runs| - 1].work.seconds
  }

  function BranchRunCount(runs: seq<Run>): nat {
    if runs == [] then 0 else BranchRunCount(runs[..|runs| - 1]) + (if runs[|runs| - 1].onBranch then 1 else 0)
  }

  lemma {:induction false} SecondsSplit(a: seq<Run>, b: seq<Run>)
    ensures Seconds(a + b) == Seconds(a) + Seconds(b)
    ensures BranchRunCount(a + b) == BranchRunCount(a) + BranchRunCount(b)
  {
    if b == [] {
      assert a + b == a;
    } else {
      assert (a + b)[..|a + b| - 1] == a + b[..|b| - 1];
      SecondsSplit(a, b[..|b| - 1]);
    }
  }

  lemma {:induction false} AllOnBranch(runs: seq<Run>)
    requires forall i :: 0 <= i < |runs| ==> runs[i].onBranch
    ensures BranchRunCount(runs) == |runs|
  {
    if runs != [] { AllOnBranch(runs[..|runs| - 1]); }
  }

  lemma {:induction false} SecondsAtMost(runs: seq<Run>, limit: nat)
    requires forall i :: 0 <= i < |runs| ==> runs[i].work.seconds <= limit
    ensures Seconds(runs) <= |runs| * limit
  {
    if runs != [] {
      SecondsAtMost(runs[..|runs| - 1], limit);
      assert |runs| * limit == (|runs| - 1) * limit + limit;
    }
  }

  /** The branch runs a loop has added up to its i-th state. */
  function BranchesAdded(states: seq<State>, i: nat): int
    requires i < |states|
  {
    BranchRunCount(states[i].runs) - BranchRunCount(states[0].runs)
  }

  /** A turn adds no branch run, or the task's full set of them and then the task is settled. */
  lemma TurnBranches(task: Task, worker: Worker, s: State, i: nat, s': State)
    requires Turn(task, worker, s, i, s')
    ensures var branches := BranchRunCount(s'.runs) - BranchRunCount(s.runs);
            branches == 0 || (task.maxBranches > 1 && branches == task.maxBranches && Terminal(s'))
  {
    var mid := RunOnce(task, s, worker.main(i));
    assert mid.runs[..|s.runs|] == s.runs;
    if mid.runs[|s.runs|].action == Some(Branch) {
      var extra := s'.runs[|mid.runs|..];
      assert s'.runs == mid.runs + extra;
      SecondsSplit(mid.runs, extra);
      AllOnBranch(extra);
    }
  }

  /** A loop branches at most once, only when the task allows more than one branch, and then
      stops: its branch runs are none, or exactly the task's branch limit. */
  lemma {:induction false} BranchesAtMostOnce(task: Task, worker: Worker, states: seq<State>, i: nat)
    requires Trace(task, worker, states) && i < |states|
    ensures var branches := BranchesAdded(states, i);
            branches == 0 || (task.maxBranches > 1 && branches == task.maxBranches && Terminal(states[i]) && i == |states| - 1)
  {
    hide Turn, BranchRunCount, Terminal;
    if i > 0 {
      assert LoopStep(task, worker, states, i - 1);
      BranchesAtMostOnce(task, worker, states, i - 1);
      TurnBranches(task, worker, states[i - 1], i - 1, states[i]);
      if i < |states| - 1 { assert LoopStep(task, worker, states, i); }
    }
  }

  /** The limits the time budget assumes: a run within the timeout plus a minute, a branch run
      within the timeout. */
  ghost predicate Timely(worker: Worker, timeout: nat) {
    (forall i: nat :: worker.main(i).seconds <= timeout + 60) && (forall i: nat :: worker.branch(i).seconds <= timeout)
  }

  lemma TurnSeconds(task: Task, worker: Worker, timeout: nat, s: State, i: nat, s': State)
    requires Turn(task, worker, s, i, s') && Timely(worker, timeout)
    ensures Terminal(s') && task.maxBranches > 1 ==> Seconds(s'.runs) <= Seconds(s.runs) + timeout + 60 + task.maxBranches * timeout
    ensures !Terminal(s') || task.maxBranches <= 1 ==> Seconds(s'.runs) <= Seconds(s.runs) + timeout + 60
  {
    var mid := RunOnce(task, s, worker.main(i));
    assert mid.runs[..|s.runs|] == s.runs;
    assert task.maxBranches > 1 ==> task.maxBranches * timeout >= 0;
    if mid.runs[|s.runs|].action == Some(Branch) {
      var extra := s'.runs[|mid.runs|..];
      assert s'.runs == mid.runs + extra;
      SecondsSplit(mid.runs, extra);
      SecondsAtMost(extra, timeout);
    }
  }

  lemma {:induction false} LoopSeconds(task: Task, worker: Worker, timeout: nat, states: seq<State>, i: nat)
    requires Trace(task, worker, states) && i < |states| && !Terminal(states[i]) && Timely(worker, timeout)
    ensures Seconds(states[i].runs) <= Seconds(states[0].runs) + i * (timeout + 60)
  {
    hide Turn, Seconds, MaxAttempt;
    if i > 0 {
      assert LoopStep(task, worker, states, i - 1);
      LoopSeconds(task, worker, timeout, states, i - 1);
      TurnSeconds(task, worker, timeout, states[i - 1], i - 1, states[i]);
      assert i * (timeout + 60) == (i - 1) * (timeout + 60) + (timeout + 60);
    }
  }

  /** The workflow's time budget for one task. */
  function RuntimeBudget(task: Task, timeout: nat): nat {
    var attempts := MaxInt(task.maxAttempts, 1);
    var branches := MaxInt(task.maxBranches, 1);
    MaxInt(300, timeout * attempts + (if branches > 1 then timeout * branches else 0) + 60 * attempts)
  }

  /** The budget is enough for every stream of outcomes of timely workers, but for the turns at or
      past the attempt limit that find no backend; so it is enough outright as soon as any turn
      from the last allowed attempt up to the limit finds one. */
  lemma BudgetSuffices(task: Task, worker: Worker, timeout: nat, states: seq<State>)
    requires Trace(task, worker, states) && Timely(worker, timeout)
    ensures var limit := MaxInt(task.maxAttempts, 1);
            var spent := Seconds(states[|states| - 1].runs) - Seconds(states[0].runs);
            && spent <= RuntimeBudget(task, timeout) + Outages(worker, limit - 1, |states| - 1) * (timeout + 60)
            && ((exists j: nat :: TurnsLeft(task, states[0]) <= j + 1 <= limit && !worker.main(j).unavailable) ==>
                  spent <= RuntimeBudget(task, timeout))
  {
    hide Turn, Seconds, MaxAttempt, Terminal;
    var turns, limit := |states| - 1, MaxInt(task.maxAttempts, 1);
    var over := Outages(worker, limit - 1, turns);
    if limit <= turns { OutagesFill(task, worker, states, limit - 1, turns); }
    LoopSpends(task, worker, timeout, states, over);
    if j: nat :| TurnsLeft(task, states[0]) <= j + 1 <= limit && !worker.main(j).unavailable {
      AvailableTurnStops(task, worker, states, j);
      LoopSpends(task, worker, timeout, states, 0);
    }
  }

  lemma LoopSpends(task: Task, worker: Worker, timeout: nat, states: seq<State>, over: nat)
    requires Trace(task, worker, states) && Timely(worker, timeout)
    requires |states| - 1 <= MaxInt(task.maxAttempts, 1) + over
    ensures Seconds(states[|states| - 1].runs) - Seconds(states[0].runs) <= RuntimeBudget(task, timeout) + over * (timeout + 60)
  {
    hide Turn, Seconds, MaxAttempt, Terminal;
    var turns := |states| - 1;
    BudgetCovers(task, timeout, turns, over);
    if turns > 0 {
      assert LoopStep(task, worker, states, turns - 1);
      LoopSeconds(task, worker, timeout, states, turns - 1);
      TurnSeconds(task, worker, timeout, states[turns - 1], turns - 1, states[turns]);
    }
  }

  lemma BudgetCovers(task: Task, timeout: nat, turns: nat, over: nat)
    requires turns <= MaxInt(task.maxAttempts, 1) + over
    ensures RuntimeBudget(task, timeout) + over * (timeout + 60) >= 0
    ensures turns > 0 ==>
              (turns - 1) * (timeout + 60) + timeout + 60 + (if task.maxBranches > 1 then task.maxBranches * timeout else 0)
              <= RuntimeBudget(task, timeout) + over * (timeout + 60)
  {
    var attempts := MaxInt(task.maxAttempts, 1);
    Scale(0, over, timeout + 60);
    Scale(turns, attempts + over, timeout + 60);
    assert (turns - 1) * (timeout + 60) + (timeout + 60) == turns * (timeout + 60);
    assert (attempts + over) * (timeout + 60) == timeout * attempts + 60 * attempts + over * (timeout + 60);
  }

  /** The worker that uses its time to the full: every run fails after the timeout and the extra
      minute, every branch run after the timeout. */
  ghost predicate Slow(worker: Worker, timeout: nat) {
    && (forall i: nat :: worker.main(i) == Work(Failed, [], false, false, timeout + 60))
    && (forall i: nat :: worker.branch(i) == Work(Failed, [], false, false, timeout))
  }

  lemma {:induction false} SecondsAre(runs: seq<Run>, each: nat)
    requires forall i :: 0 <= i < |runs| ==> runs[i].work.seconds == each
    ensures Seconds(runs) == |runs| * each
  {
    if runs != [] {
      SecondsAre(runs[..|runs| - 1], each);
      OneMore(|runs| - 1, each);
    }
  }

  lemma OneMore(n: nat, k: nat)
    ensures (n + 1) * k == n * k + k
  {
  }

  lemma SlowBranches(task: Task, worker: Worker, timeout: nat, base: int, n: nat)
    requires Slow(worker, timeout)
    ensures NoneCompleted(BranchRuns(task, base, worker.branch, n))
    ensures Seconds(BranchRuns(task, base, worker.branch, n)) == n * timeout
  {
    hide Seconds, BranchRuns;
    var runs := BranchRuns(task, base, worker.branch, n);
    forall i | 0 <= i < n ensures runs[i].status != RunCompleted {
      BranchRunsAreJudged(task, base, worker.branch, n, i);
      assert worker.branch(i).artifacts == [];
    }
    assert forall i :: 0 <= i < n ==> runs[i].work.seconds == worker.branch(i).seconds;
    SecondsAre(runs, timeout);
  }

  lemma SlowRun(task: Task, worker: Worker, timeout: nat, s: State, i: nat)
    requires Slow(worker, timeout)
    ensures var mid := RunOnce(task, s, worker.main(i));
            var last := MaxAttempt(s.runs) + 1 >= task.maxAttempts;
            && |mid.runs| == |s.runs| + 1 && MaxAttempt(mid.runs) == MaxAttempt(s.runs) + 1
            && Seconds(mid.runs) == Seconds(s.runs) + timeout + 60
            && (mid.runs[|s.runs|].action == Some(Branch) <==> last && task.maxBranches > 1)
            && (Terminal(mid) <==> last && task.maxBranches <= 1)
  {
    var work := worker.main(i);
    assert work == Work(Failed, [], false, false, timeout + 60);
    assert RunOnce(task, s, work).runs[..|s.runs|] == s.runs;
  }

  lemma SlowTurn(task: Task, worker: Worker, timeout: nat, s: State, i: nat) returns (s': State)
    requires Slow(worker, timeout)
    ensures Turn(task, worker, s, i, s')
    ensures var last := MaxAttempt(s.runs) + 1 >= task.maxAttempts;
            && (Terminal(s') <==> last)
            && (!last ==> MaxAttempt(s'.runs) == MaxAttempt(s.runs) + 1)
            && Seconds(s'.runs) == Seconds(s.runs) + timeout + 60 + (if last && task.maxBranches > 1 then task.maxBranches * timeout else 0)
  {
    hide RunOnce, Seconds, MaxAttempt, BranchRuns, Slow;
    SlowRun(task, worker, timeout, s, i);
    var mid := RunOnce(task, s, worker.main(i));
    if mid.runs[|s.runs|].action == Some(Branch) {
      var base := MaxAttempt(mid.runs) + 1;
      var made := BranchRuns(task, base, worker.branch, task.maxBranches);
      SlowBranches(task, worker, timeout, base, task.maxBranches);
      s' := State(TaskFailed, mid.runs + made);
      assert s'.runs[..|mid.runs|] == mid.runs && s'.runs[|mid.runs|..] == made;
      SecondsSplit(mid.runs, made);
    } else {
      s' := mid;
    }
  }

  lemma NewLoop(task: Task, worker: Worker)
    ensures Trace(task, worker, [State(Pending, [])]) && !Terminal(State(Pending, []))
    ensures MaxAttempt([]) == 0 && Seconds([]) == 0
  {
  }

  lemma {:induction false} SlowLoop(task: Task, worker: Worker, timeout: nat, n: nat) returns (states: seq<State>)
    requires Slow(worker, timeout) && n < MaxInt(task.maxAttempts, 1)
    ensures Trace(task, worker, states) && |states| == n + 1 && states[0] == State(Pending, [])
    ensures !Terminal(states[n]) && MaxAttempt(states[n].runs) == n && Seconds(states[n].runs) == n * (timeout + 60)
  {
    hide Turn, Seconds, MaxAttempt, Slow, Trace, Terminal;
    if n == 0 {
      NewLoop(task, worker);
      states := [State(Pending, [])];
    } else {
      var shorter := SlowLoop(task, worker, timeout, n - 1);
      var s := SlowTurn(task, worker, timeout, shorter[n - 1], n - 1);
      states := AppendTurn(task, worker, shorter, s);
      OneMore(n - 1, timeout + 60);
    }
  }

  lemma BudgetFormula(task: Task, timeout: nat, spent: int)
    requires spent == (MaxInt(task.maxAttempts, 1) - 1) * (timeout + 60) + timeout + 60 +
                      (if task.maxBranches > 1 then task.maxBranches * timeout else 0)
    ensures RuntimeBudget(task, timeout) == MaxInt(300, spent)
  {
    var attempts := MaxInt(task.maxAttempts, 1);
    OneMore(attempts - 1, timeout + 60);
    assert attempts * (timeout + 60) == timeout * attempts + 60 * attempts;
    assert task.maxBranches > 1 ==> task.maxBranches * timeout == timeout * task.maxBranches;
  }

  lemma SlowIsTimely(worker: Worker, timeout: nat)
    requires Slow(worker, timeout)
    ensures Timely(worker, timeout)
  {
  }

  /** The budget is not a second too long: a new task with such a worker takes all of it, but for
      the floor of 300 seconds. */
  lemma BudgetIsTight(task: Task, worker: Worker, timeout: nat) returns (states: seq<State>)
    requires Slow(worker, timeout)
    ensures Timely(worker, timeout) && Trace(task, worker, states)
    ensures states[0] == State(Pending, []) && Terminal(states[|states| - 1])
    ensures RuntimeBudget(task, timeout) == MaxInt(300, Seconds(states[|states| - 1].runs))
  {
    SlowIsTimely(worker, timeout);
    assert forall states :: Trace(task, worker, states) ==> states != [];
    hide Turn, Seconds, MaxAttempt, Slow, Timely, Trace, Terminal, RuntimeBudget;
    var n := MaxInt(task.maxAttempts, 1) - 1;
    var before := SlowLoop(task, worker, timeout, n);
    var s := SlowTurn(task, worker, timeout, before[n], n);
    states := AppendTurn(task, worker, before, s);
    BudgetFormula(task, timeout, Seconds(s.runs));
  }

  lemma Scale(a: nat, b: nat, k: nat)
    requires a <= b
    ensures a * k <= b * k
  {
  }

  lemma OutageTurn(task: Task, worker: Worker, s: State, i: nat) returns (s': State)
    requires worker.main(i).unavailable
    ensures Turn(task, worker, s, i, s') && !Terminal(s')
    ensures Seconds(s'.runs) == Seconds(s.runs) + worker.main(i).seconds
  {
    s' := RunOnce(task, s, worker.main(i));
    assert s'.runs[..|s.runs|] == s.runs;
  }

  /** Nothing bounds the time of a loop whose backends stay unavailable: for every limit there
      is a loop of timely, unavailable turns that exceeds it. */
  lemma {:induction false} OutageHasNoBudget(task: Task, worker: Worker, n: nat) returns (states: seq<State>)
    requires forall i: nat :: worker.main(i).unavailable && worker.main(i).seconds == 1
    ensures Trace(task, worker, states) && states[0] == State(Pending, []) && |states| == n + 1
    ensures Seconds(states[n].runs) == n && !Terminal(states[n])
  {
    hide Turn;
    if n == 0 {
      states := [State(Pending, [])];
    } else {
      var shorter := OutageHasNoBudget(task, worker, n - 1);
      var s := OutageTurn(task, worker, shorter[n - 1], n - 1);
      states := AppendTurn(task, worker, shorter, s);
    }
  }

  // ---------------------------------------------------------------- what a completed task has

  /** A run that settled the task in its favour, and delivered every required artifact. */
  ghost predicate Backs(task: Task, run: Run) {
    && run.action == Some(Promote) && run.status == RunCompleted && Delivers(task, run.work)
    && (if run.onBranch then !run.work.outcome.Blocked? else run.work.outcome.Success?)
  }

  lemma {:induction false} BranchRunsAreJudged(task: Task, base: int, branch: nat -> Work, n: nat, i: nat)
    requires i < n
    ensures BranchRuns(task, base, branch, n)[i].status == RunCompleted <==>
            !branch(i).outcome.Blocked? && Delivers(task, branch(i))
  {
    if i < n - 1 {
      BranchRunsAreJudged(task, base, branch, n - 1, i);
    } else {
      AcceptableMeansDelivered(task, branch(i));
    }
  }

  lemma BranchingIsBacked(task: Task, s: State, branch: nat -> Work, s': State)
    requires task.maxBranches > 1 && Branched(task, s, branch, s') && s'.status == Completed
    ensures exists k :: |s.runs| <= k < |s'.runs| && Backs(task, s'.runs[k])
  {
    hide BranchRuns, MaxAttempt;
    var made := BranchRuns(task, MaxAttempt(s.runs) + 1, branch, task.maxBranches);
    var w: nat :| IsWinner(made, w) && Resolved(made, s'.runs[|s.runs|..], w);
    BranchRunsAreJudged(task, MaxAttempt(s.runs) + 1, branch, task.maxBranches, w);
    assert s'.runs[|s.runs| + w] == s'.runs[|s.runs|..][w];
    assert Backs(task, s'.runs[|s.runs| + w]);
  }

  /** A task the loop completes is backed by one of the loop's runs: promoted, completed, and
      with every required artifact present. */
  lemma CompletionIsBacked(task: Task, worker: Worker, states: seq<State>)
    requires Trace(task, worker, states) && |states| > 1 && states[|states| - 1].status == Completed
    ensures var last := states[|states| - 1]; exists k :: |states[0].runs| <= k < |last.runs| && Backs(task, last.runs[k])
  {
    var n := |states| - 2;
    assert LoopStep(task, worker, states, n);
    AttemptsCountUp(task, worker, states, n);
    var s, last := states[n], states[n + 1];
    var mid := RunOnce(task, s, worker.main(n));
    PromoteMeansDelivered(task, worker.main(n), MaxAttempt(s.runs) + 1, false);
    if mid.runs[|s.runs|].action == Some(Branch) {
      BranchingIsBacked(task, mid, worker.branch, last);
    } else {
      assert Backs(task, last.runs[|s.runs|]);
    }
  }

  /** A branch run selection may take: a failed outcome is no obstacle. */
  predicate Usable(task: Task, work: Work) {
    !work.outcome.Blocked? && Delivers(task, work)
  }

  /** How a branched task ends is decided by its branch runs alone: completed if and only if some
      branch was not blocked and delivered, even one whose worker reported failure. */
  lemma BranchingCompletesIff(task: Task, s: State, branch: nat -> Work, s': State)
    requires task.maxBranches > 1 && Branched(task, s, branch, s')
    ensures Terminal(s')
    ensures s'.status == Completed <==> exists i: nat :: i < task.maxBranches && Usable(task, branch(i))
  {
    var made := BranchRuns(task, MaxAttempt(s.runs) + 1, branch, task.maxBranches);
    forall i: nat | i < task.maxBranches ensures made[i].status == RunCompleted <==> Usable(task, branch(i)) {
      BranchRunsAreJudged(task, MaxAttempt(s.runs) + 1, branch, task.maxBranches, i);
    }
  }

  /** Among the usable branches w has the most artifacts and is the earliest of equals. */
  ghost predicate Best(task: Task, branch: nat -> Work, w: nat) {
    && w < task.maxBranches && Usable(task, branch(w))
    && forall i: nat :: i < task.maxBranches && Usable(task, branch(i)) ==>
         |branch(i).artifacts| < |branch(w).artifacts| || (|branch(i).artifacts| == |branch(w).artifacts| && w <= i)
  }

  lemma WinnerIsBest(task: Task, base: int, branch: nat -> Work, w: nat)
    requires task.maxBranches >= 0
    ensures IsWinner(BranchRuns(task, base, branch, task.maxBranches), w) <==> Best(task, branch, w)
  {
    var made := BranchRuns(task, base, branch, task.maxBranches);
    forall i: nat | i < task.maxBranches ensures made[i].status == RunCompleted <==> Usable(task, branch(i)) {
      BranchRunsAreJudged(task, base, branch, task.maxBranches, i);
    }
  }

  /** A run that was promoted although its worker reported failure. */
  predicate FailedButPromoted(run: Run) {
    run.action == Some(Promote) && run.work.outcome.Failed?
  }

  lemma OnlyTheWinnerIsPromoted(made: seq<Run>, after: seq<Run>, w: nat, k: nat)
    requires Resolved(made, after, w) && k < |after| && forall i :: 0 <= i < |made| ==> made[i].action.None?
    ensures FailedButPromoted(after[k]) <==> k == w && made[w].work.outcome.Failed?
  {
  }

  lemma BestIsUnique(task: Task, branch: nat -> Work, v: nat, w: nat)
    requires Best(task, branch, v) && Best(task, branch, w)
    ensures v == w
  {
  }

  /** Exactly when branching promotes work whose worker reported failure: the best of the usable
      branches is such a one. */
  lemma FailedBranchWinsIff(task: Task, s: State, branch: nat -> Work, s': State)
    requires task.maxBranches > 1 && Branched(task, s, branch, s')
    ensures (exists k :: |s.runs| <= k < |s'.runs| && FailedButPromoted(s'.runs[k]))
            <==> exists w: nat :: Best(task, branch, w) && branch(w).outcome.Failed?
  {
    hide BranchRuns, MaxAttempt, IsWinner, Best;
    var base, n := MaxAttempt(s.runs) + 1, |s.runs|;
    var made, after := BranchRuns(task, base, branch, task.maxBranches), s'.runs[n..];
    assert forall k :: n <= k < |s'.runs| ==> s'.runs[k] == after[k - n];
    if NoneCompleted(made) {
      forall w: nat ensures !Best(task, branch, w) {
        WinnerIsBest(task, base, branch, w);
        assert !IsWinner(made, w) by { WinnerCompleted(made, w); }
      }
    } else {
      hide Resolved, FailedButPromoted;
      var w: nat :| IsWinner(made, w) && Resolved(made, after, w);
      WinnerIsBest(task, base, branch, w);
      WinnerCompleted(made, w);
      forall k | n <= k < |s'.runs| ensures FailedButPromoted(s'.runs[k]) <==> k == n + w && branch(w).outcome.Failed? {
        OnlyTheWinnerIsPromoted(made, after, w, k - n);
      }
      forall v: nat | Best(task, branch, v) ensures v == w { BestIsUnique(task, branch, v, w); }
      assert n <= n + w < |s'.runs|;
    }
  }

  lemma WinnerCompleted(made: seq<Run>, w: nat)
    ensures IsWinner(made, w) ==> w < |made| && made[w].status == RunCompleted
  {
  }

  /** A concrete loop that completes its task on work reported as failed: one attempt, two branches,
      and every worker failing, the branches with the required report. */
  lemma FailedBranchExample() returns (worker: Worker, states: seq<State>)
    ensures var task := Task(1, 2, ["report"]);
            && Trace(task, worker, states) && states[0] == State(Pending, []) && |states| == 2
            && states[1].status == Completed
            && forall i :: 0 <= i < |states[1].runs| ==> states[1].runs[i].work.outcome.Failed?
  {
    var task, start := Task(1, 2, ["report"]), State(Pending, []);
    worker := Worker(_ => Work(Failed, [], false, false, 0), _ => Work(Failed, ["report"], false, false, 0));
    var mid := RunOnce(task, start, worker.main(0));
    assert mid.runs[0].action == Some(Branch);
    var base := MaxAttempt(mid.runs) + 1;
    var made := BranchRuns(task, base, worker.branch, 2);
    WinnerIsBest(task, base, worker.branch, 0);
    assert Delivers(task, worker.branch(0)) && Delivers(task, worker.branch(1));
    assert Best(task, worker.branch, 0);
    var after := [made[0].(action := Some(Promote)), made[1].(status := RunDisposed)];
    assert Resolved(made, after, 0);
    var end := State(Completed, mid.runs + after);
    assert end.runs[|mid.runs|..] == after && end.runs[..|mid.runs|] == mid.runs;
    assert Branched(task, mid, worker.branch, end);
    states := [start, end];
    assert LoopStep(task, worker, states, 0);
  }
}
