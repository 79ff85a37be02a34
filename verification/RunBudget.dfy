/** The sliding-window run budget: usage rows, the trailing-hour check, and the
    escalation raised when an objective starts too many coding runs. */
module RunBudget {
  import opened Prelude

  const RUN_LIMIT: int := 3

  // Times are in microseconds, the resolution the rows are stored with.
  const RUN_WINDOW: int := 3_600_000_000

  datatype Row = Row(scope: string, key: string, windowStart: int, windowEnd: int, count: int)

  /** One recorded use. */
  datatype Usage = Usage(scope: string, key: string, at: int, count: int, window: int)

  /** The listing query drops a filter that is empty. */
  predicate Selects(scope: string, key: string, rowScope: string, rowKey: string) {
    (scope == "" || rowScope == scope) && (key == "" || rowKey == key)
  }

  predicate SameWindow(r: Row, u: Usage) {
    r.scope == u.scope && r.key == u.key && r.windowStart == u.at - u.window && r.windowEnd == u.at
  }

  /** Index of the row with exactly this window, or the number of rows. */
  function FindRow(rows: seq<Row>, u: Usage): (i: nat)
    ensures i <= |rows|
    ensures i < |rows| ==> SameWindow(rows[i], u)
    ensures forall k :: 0 <= k < i ==> !SameWindow(rows[k], u)
  {
    if rows == [] then 0
    else if SameWindow(rows[0], u) then 0
    else 1 + FindRow(rows[1..], u)
  }

  /** Usage in the rows whose window ends at or after the cutoff. */
  function RowUsage(rows: seq<Row>, scope: string, key: string, cutoff: int): int {
    if rows == [] then 0
    else
      var r := rows[|rows| - 1];
      RowUsage(rows[..|rows| - 1], scope, key, cutoff) +
      if Selects(scope, key, r.scope, r.key) && r.windowEnd >= cutoff then r.count else 0
  }

  /** Usage recorded at or after the cutoff. */
  function RecordedUsage(usages: seq<Usage>, scope: string, key: string, cutoff: int): int {
    if usages == [] then 0
    else
      var u := usages[|usages| - 1];
      RecordedUsage(usages[..|usages| - 1], scope, key, cutoff) +
      if Selects(scope, key, u.scope, u.key) && u.at >= cutoff then u.count else 0
  }

  /** A run_created event: when its use is recorded, when the budget is checked, and the
      objective of its task, if any. */
  datatype RunCreated = RunCreated(at: int, checkedAt: int, objective: Option<string>)

  function UsageOf(e: RunCreated): Usage {
    if e.objective.Some? && e.objective.value != "" then Usage("objective", e.objective.value, e.at, 1, RUN_WINDOW)
    else Usage("worker", "expensive_coding_runs", e.at, 1, RUN_WINDOW)
  }

  function UsagesOf(events: seq<RunCreated>): (r: seq<Usage>)
    ensures |r| == |events| && forall i :: 0 <= i < |r| ==> r[i] == UsageOf(events[i])
  {
    seq(|events|, i requires 0 <= i < |events| => UsageOf(events[i]))
  }

  /** How many of the events started a run of this objective at or after the cutoff. */
  function RunsSince(events: seq<RunCreated>, objective: string, cutoff: int): nat {
    if events == [] then 0
    else
      var e := events[|events| - 1];
      RunsSince(events[..|events| - 1], objective, cutoff) +
      if e.objective == Some(objective) && e.at >= cutoff then 1 else 0
  }

  /** The rows mirror a usage history under every query. */
  ghost predicate Mirrors(rows: seq<Row>, usages: seq<Usage>) {
    forall scope, key, cutoff :: RowUsage(rows, scope, key, cutoff) == RecordedUsage(usages, scope, key, cutoff)
  }

  class RunBudgetObserver {
    var rows: seq<Row>
    var escalations: seq<string>
    ghost var usages: seq<Usage>

    ghost predicate Valid()
      reads this
    {
      Mirrors(rows, usages)
    }

    constructor ()
      ensures Valid() && usages == [] && escalations == []
    {
      rows, escalations, usages := [], [], [];
    }

    /** Adds to the row of exactly this window, or inserts a new row. */
    method RecordBudgetUsage(u: Usage)
      requires Valid()
      modifies this`rows, this`usages
      ensures Valid() && usages == old(usages) + [u]
    {
      var i := FindRow(rows, u);
      if i < |rows| {
        UpdateAdds(rows, i, u.count);
        rows := rows[i := rows[i].(count := rows[i].count + u.count)];
      } else {
        AppendAdds(rows, Row(u.scope, u.key, u.at - u.window, u.at, u.count));
        rows := rows + [Row(u.scope, u.key, u.at - u.window, u.at, u.count)];
      }
      RecordedAppend(usages, u);
      usages := usages + [u];
    }

    method ExpensiveCodingBudgetExhausted(now: int, scope: string, key: string) returns (exhausted: bool)
      requires Valid()
      ensures exhausted <==> RecordedUsage(usages, scope, key, now - RUN_WINDOW) > RUN_LIMIT
    {
      var total := 0;
      var cutoff := now - RUN_WINDOW;
      for i := 0 to |rows|
        invariant total == RowUsage(rows[..i], scope, key, cutoff)
      {
        assert rows[..i + 1][..i] == rows[..i];
        if Selects(scope, key, rows[i].scope, rows[i].key) && rows[i].windowEnd >= cutoff {
          total := total + rows[i].count;
        }
      }
      assert rows[..|rows|] == rows;
      exhausted := total > RUN_LIMIT;
    }

    /** Records the run, then escalates if its objective's budget is used up. */
    method HandleRunCreated(e: RunCreated, ghost earlier: seq<RunCreated>)
      requires Valid() && usages == UsagesOf(earlier)
      modifies this
      ensures Valid() && usages == UsagesOf(earlier + [e])
      ensures escalations == old(escalations) +
                if e.objective.Some? && e.objective.value != "" &&
                   RunsSince(earlier + [e], e.objective.value, e.checkedAt - 3_600_000_000) >= 4
                then [e.objective.value] else []
    {
      var u := UsageOf(e);
      RecordBudgetUsage(u);
      assert usages == UsagesOf(earlier + [e]);
      if e.objective.Some? && e.objective.value != "" {
        UsageCountsRuns(earlier + [e], e.objective.value, e.checkedAt - RUN_WINDOW);
        var exhausted := ExpensiveCodingBudgetExhausted(e.checkedAt, "objective", e.objective.value);
        if exhausted {
          escalations := escalations + [e.objective.value];
        }
      }
    }
  }

  lemma AppendAdds(rows: seq<Row>, r: Row)
    ensures forall scope, key, cutoff ::
              RowUsage(rows + [r], scope, key, cutoff) ==
              RowUsage(rows, scope, key, cutoff) + if Selects(scope, key, r.scope, r.key) && r.windowEnd >= cutoff then r.count else 0
  {
    assert (rows + [r])[..|rows|] == rows;
  }

  lemma RecordedAppend(usages: seq<Usage>, u: Usage)
    ensures forall scope, key, cutoff ::
              RecordedUsage(usages + [u], scope, key, cutoff) ==
              RecordedUsage(usages, scope, key, cutoff) + if Selects(scope, key, u.scope, u.key) && u.at >= cutoff then u.count else 0
  {
    assert (usages + [u])[..|usages|] == usages;
  }

  lemma {:induction false} UpdateAdds(rows: seq<Row>, i: nat, extra: int)
    requires i < |rows|
    ensures forall scope, key, cutoff ::
              RowUsage(rows[i := rows[i].(count := rows[i].count + extra)], scope, key, cutoff) ==
              RowUsage(rows, scope, key, cutoff) +
              if Selects(scope, key, rows[i].scope, rows[i].key) && rows[i].windowEnd >= cutoff then extra else 0
  {
    var rows' := rows[i := rows[i].(count := rows[i].count + extra)];
    if i < |rows| - 1 {
      UpdateAdds(rows[..|rows| - 1], i, extra);
      assert rows'[..|rows| - 1] == rows[..|rows| - 1][i := rows'[i]];
    } else {
      assert rows'[..|rows| - 1] == rows[..|rows| - 1];
    }
  }

  /** For an objective, recorded usage in the window is the number of its runs in it. */
  lemma {:induction false} UsageCountsRuns(events: seq<RunCreated>, objective: string, cutoff: int)
    requires objective != ""
    ensures RecordedUsage(UsagesOf(events), "objective", objective, cutoff) == RunsSince(events, objective, cutoff)
  {
    if events != [] {
      UsageCountsRuns(events[..|events| - 1], objective, cutoff);
      assert UsagesOf(events)[..|events| - 1] == UsagesOf(events[..|events| - 1]);
      assert |"objective"| != |"worker"|;
    }
  }

  /** How many of the events started a run of no objective at or after the cutoff. */
  function UnownedRunsSince(events: seq<RunCreated>, cutoff: int): nat {
    if events == [] then 0
    else
      var e := events[|events| - 1];
      UnownedRunsSince(events[..|events| - 1], cutoff) +
      if (e.objective == None || e.objective == Some("")) && e.at >= cutoff then 1 else 0
  }

  /** Runs without an objective count, all together, against the worker's own budget. */
  lemma {:induction false} UnownedRunsCountForTheWorker(events: seq<RunCreated>, cutoff: int)
    ensures RecordedUsage(UsagesOf(events), "worker", "expensive_coding_runs", cutoff) == UnownedRunsSince(events, cutoff)
  {
    if events != [] {
      UnownedRunsCountForTheWorker(events[..|events| - 1], cutoff);
      assert UsagesOf(events)[..|events| - 1] == UsagesOf(events[..|events| - 1]);
      assert |"objective"| != |"worker"|;
    }
  }
}
