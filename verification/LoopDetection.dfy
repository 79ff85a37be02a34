/** Same-state loop detection: a bounded window over state snapshots that counts
    exactly as if the whole history were kept. */
module LoopDetection {
  import opened Prelude

  datatype Entity = TaskEntity(id: string) | PromotionEntity(id: string)

  /** A control event; only state snapshots carry an entity and a fingerprint. */
  datatype Event = Snapshot(entity: Entity, fingerprint: string) | Other(kind: string)

  function MinNat(a: nat, b: nat): nat {
    if a <= b then a else b
  }

  /** The fingerprints recorded for one entity, oldest first. */
  function History(log: seq<Event>, e: Entity): seq<string> {
    if log == [] then []
    else
      var front := History(log[..|log| - 1], e);
      match log[|log| - 1]
      case Snapshot(entity, fingerprint) => if entity == e then front + [fingerprint] else front
      case Other(_) => front
  }

  /** The event query: newest first, at most `limit` rows. */
  function Newest(log: seq<Event>, e: Entity, limit: nat): (r: seq<string>)
    ensures |r| == MinNat(limit, |History(log, e)|)
    ensures forall i :: 0 <= i < |r| ==> r[i] == History(log, e)[|History(log, e)| - 1 - i]
  {
    var h := History(log, e);
    seq(MinNat(limit, |h|), i requires 0 <= i < |h| => h[|h| - 1 - i])
  }

  /** Length of the maximal run of f at the end of h. */
  function TrailingRun(h: seq<string>, f: string): (n: nat)
    ensures n <= |h|
    ensures forall i :: |h| - n <= i < |h| ==> h[i] == f
    ensures n < |h| ==> h[|h| - n - 1] != f
  {
    if h == [] || h[|h| - 1] != f then 0 else 1 + TrailingRun(h[..|h| - 1], f)
  }

  /** How many times in a row the entity has shown this fingerprint, now included. */
  function Consecutive(log: seq<Event>, now: (Entity, string)): nat {
    1 + TrailingRun(History(log, now.0), now.1)
  }

  class ControlWatch {
    const threshold: nat
    const hardMax: nat
    var log: seq<Event>

    ghost predicate Valid() {
      1 <= threshold <= hardMax
    }

    constructor (threshold: int, hardMax: int, log: seq<Event>)
      ensures Valid() && this.log == log
      ensures this.threshold == MaxInt(threshold, 1) && this.hardMax == MaxInt(hardMax, this.threshold)
    {
      this.threshold := MaxInt(threshold, 1);
      this.hardMax := MaxInt(hardMax, MaxInt(threshold, 1));
      this.log := log;
    }

    /** Counts back through the window until the fingerprint changes. */
    method SameStateLoop(e: Entity, fingerprint: string) returns (count: nat)
      requires Valid()
      ensures count == MinNat(hardMax, Consecutive(log, (e, fingerprint)))
    {
      var events := Newest(log, e, hardMax - 1);
      ghost var h := History(log, e);
      count := 1;
      for i := 0 to |events|
        invariant count == 1 + i
        invariant forall k :: |h| - i <= k < |h| ==> h[k] == fingerprint
      {
        if events[i] != fingerprint {
          TrailingRunIs(h, fingerprint, i);
          return;
        }
        count := count + 1;
      }
      TrailingRunIs(h, fingerprint, |events|);
    }

    /** One pass: evaluate every entity, log what the evaluation causes, then snapshot.
        The state may move between evaluating and snapshotting. */
    method RunOnce(evaluated: seq<(Entity, string)>, noise: seq<string>, recorded: seq<(Entity, string)>)
      returns (counts: seq<nat>, matched: seq<Entity>)
      requires Valid()
      modifies this`log
      ensures log == old(log) + Noise(noise) + Snapshots(recorded)
      ensures |counts| == |evaluated|
      ensures forall i :: 0 <= i < |evaluated| ==>
                counts[i] == MinNat(hardMax, Consecutive(old(log), evaluated[i]))
      ensures forall e :: e in matched <==>
                exists i :: 0 <= i < |evaluated| && evaluated[i].0 == e && Consecutive(old(log), evaluated[i]) >= threshold
    {
      hide Consecutive;
      counts, matched := [], [];
      for i := 0 to |evaluated|
        invariant log == old(log) && |counts| == i
        invariant forall k :: 0 <= k < i ==>
                    counts[k] == MinNat(hardMax, Consecutive(log, evaluated[k]))
        invariant forall e :: e in matched <==>
                    exists k :: 0 <= k < i && evaluated[k].0 == e && Consecutive(log, evaluated[k]) >= threshold
      {
        var count := SameStateLoop(evaluated[i].0, evaluated[i].1);
        counts := counts + [count];
        if count >= threshold {
          matched := matched + [evaluated[i].0];
        }
      }
      log := log + Noise(noise);
      for i := 0 to |recorded|
        invariant log == old(log) + Noise(noise) + Snapshots(recorded[..i])
      {
        assert recorded[..i + 1] == recorded[..i] + [recorded[i]];
        log := log + [Snapshot(recorded[i].0, recorded[i].1)];
      }
      assert recorded[..|recorded|] == recorded;
    }
  }

  function Noise(kinds: seq<string>): (r: seq<Event>)
    ensures |r| == |kinds| && forall i :: 0 <= i < |r| ==> r[i] == Other(kinds[i])
  {
    seq(|kinds|, i requires 0 <= i < |kinds| => Other(kinds[i]))
  }

  function Snapshots(recorded: seq<(Entity, string)>): (r: seq<Event>)
    ensures |r| == |recorded| && forall i :: 0 <= i < |r| ==> r[i] == Snapshot(recorded[i].0, recorded[i].1)
  {
    seq(|recorded|, i requires 0 <= i < |recorded| => Snapshot(recorded[i].0, recorded[i].1))
  }

  lemma TrailingRunIs(h: seq<string>, f: string, n: nat)
    requires n <= |h| && forall k :: |h| - n <= k < |h| ==> h[k] == f
    ensures TrailingRun(h, f) >= n
    ensures n < |h| && h[|h| - 1 - n] != f ==> TrailingRun(h, f) == n
  {
    var m := TrailingRun(h, f);
    assert m < |h| ==> h[|h| - m - 1] != f;
  }

  // ---------------------------------------------------------------- whole runs

  /** What a pass sees: at most one fingerprint per entity, evaluated and then recorded. */
  datatype Pass = Pass(states: seq<(Entity, string)>, noise: seq<string>)

  ghost predicate OncePerEntity(states: seq<(Entity, string)>) {
    forall i, k :: 0 <= i < k < |states| ==> states[i].0 != states[k].0
  }

  function LogAfter(passes: seq<Pass>): seq<Event> {
    if passes == [] then []
    else
      var last := passes[|passes| - 1];
      LogAfter(passes[..|passes| - 1]) + Noise(last.noise) + Snapshots(last.states)
  }

  ghost predicate Sees(p: Pass, e: Entity) {
    exists i :: 0 <= i < |p.states| && p.states[i].0 == e
  }

  ghost function StateIn(p: Pass, e: Entity): string
    requires Sees(p, e)
  {
    var i :| 0 <= i < |p.states| && p.states[i].0 == e;
    p.states[i].1
  }

  /** The full, unbounded history of one entity over the passes. */
  ghost function Observed(passes: seq<Pass>, e: Entity): seq<string> {
    if passes == [] then []
    else
      var front := Observed(passes[..|passes| - 1], e);
      var last := passes[|passes| - 1];
      if Sees(last, e) then front + [StateIn(last, e)] else front
  }

  lemma {:induction false} HistoryConcat(a: seq<Event>, b: seq<Event>, e: Entity)
    ensures History(a + b, e) == History(a, e) + History(b, e)
  {
    if b == [] {
      assert a + b == a;
    } else {
      HistoryConcat(a, b[..|b| - 1], e);
      assert (a + b)[..|a + b| - 1] == a + b[..|b| - 1];
    }
  }

  lemma {:induction false} NoiseIsSilent(noise: seq<string>, e: Entity)
    ensures History(Noise(noise), e) == []
  {
    if noise != [] {
      NoiseIsSilent(noise[..|noise| - 1], e);
      assert Noise(noise)[..|noise| - 1] == Noise(noise[..|noise| - 1]);
    }
  }

  lemma {:induction false} SnapshotsOf(states: seq<(Entity, string)>, e: Entity)
    requires OncePerEntity(states)
    ensures (forall i :: 0 <= i < |states| ==> states[i].0 != e) ==> History(Snapshots(states), e) == []
    ensures forall i :: 0 <= i < |states| && states[i].0 == e ==> History(Snapshots(states), e) == [states[i].1]
  {
    if states != [] {
      SnapshotsOf(states[..|states| - 1], e);
      assert Snapshots(states)[..|states| - 1] == Snapshots(states[..|states| - 1]);
    }
  }

  lemma {:induction false} HistoryIsObserved(passes: seq<Pass>, e: Entity)
    requires forall k :: 0 <= k < |passes| ==> OncePerEntity(passes[k].states)
    ensures History(LogAfter(passes), e) == Observed(passes, e)
  {
    hide History, Noise, Snapshots;
    if passes == [] {
      NoiseIsSilent([], e);
    } else {
      var front, last := passes[..|passes| - 1], passes[|passes| - 1];
      HistoryIsObserved(front, e);
      HistoryConcat(LogAfter(front) + Noise(last.noise), Snapshots(last.states), e);
      HistoryConcat(LogAfter(front), Noise(last.noise), e);
      NoiseIsSilent(last.noise, e);
      SnapshotsOf(last.states, e);
    }
  }

  /** The bounded window refines the full history: after any passes, the count the window
      gives for the state seen now is the length of the maximal run of that state ending now,
      cut off at the hard maximum; so the loop rule fires exactly from the threshold-th
      consecutive identical pass. */
  lemma {:induction false} WindowRefinesHistory(passes: seq<Pass>, now: Pass, e: Entity, threshold: nat, hardMax: nat)
    requires forall k :: 0 <= k < |passes| ==> OncePerEntity(passes[k].states)
    requires Sees(now, e) && 1 <= threshold <= hardMax
    ensures var full := TrailingRun(Observed(passes + [now], e), StateIn(now, e));
            var count := MinNat(hardMax, Consecutive(LogAfter(passes), (e, StateIn(now, e))));
            count == MinNat(hardMax, full) && (count >= threshold <==> full >= threshold)
  {
    hide History, LogAfter;
    HistoryIsObserved(passes, e);
    assert (passes + [now])[..|passes|] == passes;
    var h := Observed(passes, e);
    assert (h + [StateIn(now, e)])[..|h|] == h;
  }

  // ---------------------------------------------------------------- task fingerprints

  datatype TaskStatus = Pending | Active | Completed | Failed

  datatype RunStatus = Planning | Working | Validating | Analyzing | Deciding | RunCompleted | RunFailed | RunBlocked | RunDisposed

  datatype ArtifactKind = Heartbeat | Phase | Plan | Report | CompileOutput | TestOutput | Stdout | Stderr | Artifact

  datatype TaskState = TaskState(status: TaskStatus, latestRun: Option<RunStatus>, latestKind: Option<ArtifactKind>, leased: bool)

  function TaskStatusName(s: TaskStatus): string {
    match s case Pending => "pending" case Active => "active" case Completed => "completed" case Failed => "failed"
  }

  function RunName(r: Option<RunStatus>): string {
    match r
    case None => "no_run"
    case Some(Planning) => "planning"
    case Some(Working) => "working"
    case Some(Validating) => "validating"
    case Some(Analyzing) => "analyzing"
    case Some(Deciding) => "deciding"
    case Some(RunCompleted) => "completed"
    case Some(RunFailed) => "failed"
    case Some(RunBlocked) => "blocked"
    case Some(RunDisposed) => "disposed"
  }

  function KindName(k: Option<ArtifactKind>): string {
    match k
    case None => "none"
    case Some(Heartbeat) => "heartbeat"
    case Some(Phase) => "phase"
    case Some(Plan) => "plan"
    case Some(Report) => "report"
    case Some(CompileOutput) => "compile-output"
    case Some(TestOutput) => "test-output"
    case Some(Stdout) => "stdout"
    case Some(Stderr) => "stderr"
    case Some(Artifact) => "artifact"
  }

  function LeaseName(leased: bool): string {
    if leased then "leased" else "unleased"
  }

  /** The four parts joined with a bar. */
  function TaskFingerprint(s: TaskState): string {
    TaskStatusName(s.status) + "|" + RunName(s.latestRun) + "|" + KindName(s.latestKind) + "|" + LeaseName(s.leased)
  }

  lemma SplitAtBar(a: string, x: string, b: string, y: string)
    requires '|' !in a && '|' !in b && a + "|" + x == b + "|" + y
    ensures a == b && x == y
  {
    var s, t := a + "|" + x, b + "|" + y;
    assert s[|a|] == '|' && forall i :: 0 <= i < |b| ==> t[i] == b[i] && b[i] in b;
    assert !(|a| < |b|);
    assert t[|b|] == '|' && forall i :: 0 <= i < |a| ==> s[i] == a[i] && a[i] in a;
    assert !(|b| < |a|);
    assert a == s[..|a|] && b == t[..|b|];
    assert x == s[|a| + 1..] && y == t[|b| + 1..];
  }

  lemma NamesAreDistinct(s: TaskState, t: TaskState)
    ensures TaskStatusName(s.status) == TaskStatusName(t.status) ==> s.status == t.status
    ensures RunName(s.latestRun) == RunName(t.latestRun) ==> s.latestRun == t.latestRun
    ensures KindName(s.latestKind) == KindName(t.latestKind) ==> s.latestKind == t.latestKind
    ensures LeaseName(s.leased) == LeaseName(t.leased) ==> s.leased == t.leased
  {
    var a, b := TaskStatusName(s.status), TaskStatusName(t.status);
    assert s.status != t.status ==> |a| != |b| || a[0] != b[0];
    var c, d := RunName(s.latestRun), RunName(t.latestRun);
    assert s.latestRun != t.latestRun ==> |c| != |d| || c[0] != d[0] || c[1] != d[1];
    var e, f := KindName(s.latestKind), KindName(t.latestKind);
    assert s.latestKind != t.latestKind ==> |e| != |f| || e[0] != f[0] || e[3] != f[3];
    assert s.leased != t.leased ==> |LeaseName(s.leased)| != |LeaseName(t.leased)|;
  }

  lemma NamesHaveNoBar(s: TaskState)
    ensures '|' !in TaskStatusName(s.status) && '|' !in RunName(s.latestRun) && '|' !in KindName(s.latestKind)
  {
  }

  /** Equal fingerprints are equal states, so a counted loop is a loop of the task's state. */
  lemma FingerprintsDecideStates(s: TaskState, t: TaskState)
    ensures TaskFingerprint(s) == TaskFingerprint(t) <==> s == t
  {
    hide TaskStatusName, RunName, KindName, LeaseName;
    if TaskFingerprint(s) == TaskFingerprint(t) {
      NamesHaveNoBar(s);
      NamesHaveNoBar(t);
      var a, b := TaskStatusName(s.status), TaskStatusName(t.status);
      var c, d := RunName(s.latestRun), RunName(t.latestRun);
      var e, f := KindName(s.latestKind), KindName(t.latestKind);
      var g, h := LeaseName(s.leased), LeaseName(t.leased);
      assert TaskFingerprint(s) == a + "|" + (c + "|" + (e + "|" + g));
      assert TaskFingerprint(t) == b + "|" + (d + "|" + (f + "|" + h));
      SplitAtBar(a, c + "|" + (e + "|" + g), b, d + "|" + (f + "|" + h));
      SplitAtBar(c, e + "|" + g, d, f + "|" + h);
      SplitAtBar(e, g, f, h);
      NamesAreDistinct(s, t);
    }
  }
}
