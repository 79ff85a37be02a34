/** The atomicity gate: classify the changed files, score the risk of validating them together,
    and choose an action; a larger change set is never judged less risky. */
module AtomicityGates {
  import opened Prelude

  const CONTROL_PLANE_FILES := {
    "src/accruvia_harness/workers.py",
    "src/accruvia_harness/skills_worker.py",
    "src/accruvia_harness/policy.py",
    "src/accruvia_harness/config.py"
  }

  const VALIDATION_POLICY_FILES := {
    "src/accruvia_harness/services/task_service.py",
    "src/accruvia_harness/services/cognition_service.py",
    "src/accruvia_harness/workers.py",
    "src/accruvia_harness/skills_worker.py",
    "src/accruvia_harness/config.py"
  }

  const HARNESS := "src/accruvia_harness/"

  datatype Class = CliSurface | ControlPlane | PersistenceLayer | Cognition | ObserverSurface | TestOnly | Docs | ValidationPolicy | Ci

  datatype Flag =
    | LargeDiff | WideSurface | ControlPlaneTouch | ValidationPolicyTouch
    | SelfReferentialChange | TimeoutHistory | ValidationScopeMismatch

  datatype Action = ValidateNormal | ValidateNarrow | NarrowScope | BlockSelfReferential

  /** Everything the gate is told besides the changed files. */
  datatype Attempt = Attempt(mode: string, strategy: string, selfHosting: bool, priorTimeouts: int)

  datatype GateResult = GateResult(score: nat, flags: seq<Flag>, action: Action, mode: string)

  // ---------------------------------------------------------------- paths

  predicate StartsWith(s: string, prefix: string) {
    prefix <= s
  }

  predicate EndsWith(s: string, suffix: string) {
    |suffix| <= |s| && s[|s| - |suffix|..] == suffix
  }

  predicate IsControlPlaneFile(path: string) {
    path in CONTROL_PLANE_FILES
  }

  predicate IsPolicyFile(path: string) {
    path in VALIDATION_POLICY_FILES
  }

  /** `str.split("/")`: never empty. */
  function Split(path: string): (parts: seq<string>)
    ensures |parts| >= 1
  {
    if path == "" then [""]
    else
      var rest := Split(path[1..]);
      if path[0] == '/' then [""] + rest else [[path[0]] + rest[0]] + rest[1..]
  }

  function Basename(path: string): string {
    Split(path)[|Split(path)| - 1]
  }

  predicate IsTest(path: string) {
    StartsWith(path, "tests/")
  }

  predicate IsDocument(path: string) {
    StartsWith(path, "specs/") || EndsWith(path, ".md")
  }

  /** The area of the repository a path lies in: the first that matches. */
  datatype Area = Commands | Services | Persistence | CognitionArea | Observer | Tests | Documents | Elsewhere

  function AreaOf(path: string): Area {
    if StartsWith(path, "src/accruvia_harness/commands/") then Commands
    else if StartsWith(path, "src/accruvia_harness/services/") then Services
    else if StartsWith(path, "src/accruvia_harness/persistence/") then Persistence
    else if StartsWith(path, "src/accruvia_harness/cognition/") then CognitionArea
    else if StartsWith(path, "src/accruvia_harness/observer/") then Observer
    else if IsTest(path) then Tests
    else if IsDocument(path) then Documents
    else Elsewhere
  }

  /** What puts a path into a surface class, class by class. */
  predicate HasClass(path: string, c: Class) {
    var area := AreaOf(path);
    match c
    case CliSurface => area.Commands?
    case ControlPlane =>
      area.Commands? || area.Services? || area.CognitionArea? || (area.Persistence? && Basename(path) == "project_task.py") ||
      IsControlPlaneFile(path)
    case PersistenceLayer => area.Persistence?
    case Cognition => area.CognitionArea?
    case ObserverSurface => area.Observer?
    case TestOnly => area.Tests?
    case Docs => area.Documents?
    case ValidationPolicy => IsPolicyFile(path)
    case Ci => StartsWith(path, ".github/")
  }

  /** Tests and documents accompany a change; any other path counts for its top directory, or
      inside the harness for the entry below it. */
  predicate InSubsystem(path: string) {
    !IsTest(path) && !IsDocument(path)
  }

  function Subsystem(path: string): string {
    var parts := Split(path);
    if StartsWith(path, HARNESS) then (if |parts| > 2 then parts[2] else parts[|parts| - 1]) else parts[0]
  }

  function SelectedTargets(mode: string): seq<string> {
    if mode == "lightweight_repair" then ["tests/test_workers.py"]
    else if mode == "lightweight_operator" then ["tests/test_phase1.py"]
    else ["tests/test_engine.py", "tests/test_store.py", "tests/test_validation.py", "tests/test_phase1.py"]
  }

  predicate UnselectedTest(mode: string, path: string) {
    IsTest(path) && path !in SelectedTargets(mode)
  }

  // ---------------------------------------------------------------- what the gate promises, on sets of paths

  function Classes(paths: set<string>): set<Class> {
    set p, c: Class | p in paths && HasClass(p, c) :: c
  }

  function Subsystems(paths: set<string>): set<string> {
    set p | p in paths && InSubsystem(p) :: Subsystem(p)
  }

  function UnselectedTests(mode: string, paths: set<string>): set<string> {
    set p | p in paths && UnselectedTest(mode, p)
  }

  /** The attempt edits the machinery that validates attempts of its own class. */
  predicate SelfReferential(a: Attempt, paths: set<string>) {
    a.mode in {"lightweight_operator", "lightweight_repair", "default_focused"} && exists p :: p in paths && IsPolicyFile(p)
  }

  predicate OperatorTask(a: Attempt) {
    a.mode == "lightweight_operator" || StartsWith(a.strategy, "operator_")
  }

  predicate Raised(a: Attempt, paths: set<string>, flag: Flag) {
    match flag
    case LargeDiff => |paths| >= 4
    case WideSurface => |Subsystems(paths)| >= 3
    case ControlPlaneTouch => a.selfHosting && ControlPlane in Classes(paths)
    case ValidationPolicyTouch => ValidationPolicy in Classes(paths)
    case SelfReferentialChange => SelfReferential(a, paths)
    case TimeoutHistory => a.priorTimeouts >= 2
    case ValidationScopeMismatch => |UnselectedTests(a.mode, paths)| >= 2
  }

  function Weight(flag: Flag): nat {
    match flag
    case ValidationPolicyTouch => 2
    case SelfReferentialChange => 3
    case _ => 1
  }

  const FLAGS := [LargeDiff, WideSurface, ControlPlaneTouch, ValidationPolicyTouch, SelfReferentialChange, TimeoutHistory, ValidationScopeMismatch]

  /** The flags raised among `flags`, in their order. */
  function RaisedAmong(a: Attempt, paths: set<string>, flags: seq<Flag>): seq<Flag> {
    if flags == [] then []
    else
      var front, flag := flags[..|flags| - 1], flags[|flags| - 1];
      if Raised(a, paths, flag) then RaisedAmong(a, paths, front) + [flag] else RaisedAmong(a, paths, front)
  }

  function TotalWeight(flags: seq<Flag>): nat {
    if flags == [] then 0 else TotalWeight(flags[..|flags| - 1]) + Weight(flags[|flags| - 1])
  }

  function Score(a: Attempt, paths: set<string>): nat {
    TotalWeight(RaisedAmong(a, paths, FLAGS))
  }

  function ActionFor(a: Attempt, paths: set<string>): Action {
    if SelfReferential(a, paths) then BlockSelfReferential
    else if Score(a, paths) >= 4 then NarrowScope
    else if Score(a, paths) >= 2 then ValidateNarrow
    else ValidateNormal
  }

  /** From the weakest action to the strongest. */
  function Severity(action: Action): nat {
    match action
    case ValidateNormal => 0
    case ValidateNarrow => 1
    case NarrowScope => 2
    case BlockSelfReferential => 3
  }

  function EffectiveMode(a: Attempt, paths: set<string>): string {
    if ActionFor(a, paths) != ValidateNarrow || a.mode != "default_focused" then a.mode
    else if OperatorTask(a) || CliSurface in Classes(paths) || ObserverSurface in Classes(paths) then "lightweight_operator"
    else if ValidationPolicy in Classes(paths) || ControlPlane in Classes(paths) then "lightweight_repair"
    else a.mode
  }

  // ---------------------------------------------------------------- the gate itself

  function PathSet(paths: seq<string>): set<string> {
    set p | p in paths
  }

  method SurfaceClasses(paths: seq<string>) returns (classes: set<Class>)
    ensures classes == Classes(PathSet(paths))
  {
    hide Split;
    classes := {};
    for i := 0 to |paths|
      invariant forall c :: c in classes <==> exists k :: 0 <= k < i && HasClass(paths[k], c)
    {
      var added := ClassesOf(paths[i]);
      classes := classes + added;
    }
  }

  /** The loop body: one path's classes. */
  method ClassesOf(path: string) returns (classes: set<Class>)
    ensures forall c :: c in classes <==> HasClass(path, c)
  {
    hide Split, StartsWith, EndsWith, IsControlPlaneFile, IsPolicyFile;
    classes := {};
    if StartsWith(path, "src/accruvia_harness/commands/") {
      classes := classes + {CliSurface, ControlPlane};
    } else if StartsWith(path, "src/accruvia_harness/services/") {
      classes := classes + {ControlPlane};
    } else if StartsWith(path, "src/accruvia_harness/persistence/") {
      classes := classes + {PersistenceLayer};
      if Basename(path) == "project_task.py" { classes := classes + {ControlPlane}; }
    } else if StartsWith(path, "src/accruvia_harness/cognition/") {
      classes := classes + {ControlPlane, Cognition};
    } else if StartsWith(path, "src/accruvia_harness/observer/") {
      classes := classes + {ObserverSurface};
    } else if StartsWith(path, "tests/") {
      classes := classes + {TestOnly};
    } else if StartsWith(path, "specs/") || EndsWith(path, ".md") {
      classes := classes + {Docs};
    }
    if IsControlPlaneFile(path) { classes := classes + {ControlPlane}; }
    if IsPolicyFile(path) { classes := classes + {ValidationPolicy}; }
    if StartsWith(path, ".github/") { classes := classes + {Ci}; }
  }

  method SubsystemCount(paths: seq<string>) returns (count: nat)
    ensures count == |Subsystems(PathSet(paths))|
  {
    hide Split, IsTest, IsDocument;
    var subsystems: set<string> := {};
    for i := 0 to |paths|
      invariant subsystems == Subsystems(PathSet(paths[..i]))
    {
      assert PathSet(paths[..i + 1]) == PathSet(paths[..i]) + {paths[i]};
      if IsTest(paths[i]) || IsDocument(paths[i]) { continue; }
      var parts := Split(paths[i]);
      if StartsWith(paths[i], HARNESS) {
        subsystems := subsystems + {if |parts| > 2 then parts[2] else parts[|parts| - 1]};
      } else {
        subsystems := subsystems + {parts[0]};
      }
    }
    assert paths[..|paths|] == paths;
    count := |subsystems|;
  }

  method CountUnselectedTests(mode: string, paths: seq<string>) returns (count: nat)
    requires NoRepeats(paths)
    ensures count == |UnselectedTests(mode, PathSet(paths))|
  {
    hide IsTest, SelectedTargets;
    count := 0;
    for i := 0 to |paths|
      invariant count == |UnselectedTests(mode, PathSet(paths[..i]))|
    {
      assert PathSet(paths[..i + 1]) == PathSet(paths[..i]) + {paths[i]};
      assert paths[i] !in PathSet(paths[..i]);
      var was := UnselectedTests(mode, PathSet(paths[..i]));
      if IsTest(paths[i]) && paths[i] !in SelectedTargets(mode) {
        assert UnselectedTests(mode, PathSet(paths[..i + 1])) == was + {paths[i]};
        count := count + 1;
      } else {
        assert UnselectedTests(mode, PathSet(paths[..i + 1])) == was;
      }
    }
    assert paths[..|paths|] == paths;
  }

  /** The gate on the list `changed_files` returns, which has no repetition. */
  method AtomicityGate(a: Attempt, paths: seq<string>) returns (result: GateResult)
    requires NoRepeats(paths)
    ensures result == GateResult(Score(a, PathSet(paths)), RaisedAmong(a, PathSet(paths), FLAGS),
                                 ActionFor(a, PathSet(paths)), EffectiveMode(a, PathSet(paths)))
  {
    hide Classes, Subsystems, UnselectedTests, TotalWeight, RaisedAmong;
    ghost var all := PathSet(paths);
    var classes := SurfaceClasses(paths);
    var touchesPolicy := ValidationPolicy in classes;
    var selfReferential := a.mode in {"lightweight_operator", "lightweight_repair", "default_focused"} &&
                           exists i :: 0 <= i < |paths| && IsPolicyFile(paths[i]);
    assert selfReferential == SelfReferential(a, all);
    var score, flags := ScoreFlags(a, paths, classes, selfReferential);
    var mode, action := a.mode, ValidateNormal;
    if selfReferential {
      action := BlockSelfReferential;
    } else if score >= 4 {
      action := NarrowScope;
    } else if score >= 2 {
      action := ValidateNarrow;
      if a.mode == "default_focused" && (OperatorTask(a) || CliSurface in classes || ObserverSurface in classes) {
        mode := "lightweight_operator";
      } else if a.mode == "default_focused" && (touchesPolicy || ControlPlane in classes) {
        mode := "lightweight_repair";
      }
    }
    result := GateResult(score, flags, action, mode);
  }

  /** The scoring section: each condition that holds adds its weight and its flag. */
  method ScoreFlags(a: Attempt, paths: seq<string>, classes: set<Class>, selfReferential: bool) returns (score: nat, flags: seq<Flag>)
    requires NoRepeats(paths) && classes == Classes(PathSet(paths)) && selfReferential == SelfReferential(a, PathSet(paths))
    ensures score == Score(a, PathSet(paths)) && flags == RaisedAmong(a, PathSet(paths), FLAGS)
  {
    hide TotalWeight, RaisedAmong, Classes, Subsystems, UnselectedTests, SelfReferential;
    ghost var all := PathSet(paths);
    DistinctPaths(paths);
    NoFlagsYet(a, all);
    var subsystems := SubsystemCount(paths);
    var unselected := CountUnselectedTests(a.mode, paths);
    ghost var done: seq<Flag> := [];
    score, flags := 0, [];
    score, flags, done := Raise(|paths| >= 4, LargeDiff, 1, score, flags, a, all, done);
    score, flags, done := Raise(subsystems >= 3, WideSurface, 1, score, flags, a, all, done);
    score, flags, done := Raise(a.selfHosting && ControlPlane in classes, ControlPlaneTouch, 1, score, flags, a, all, done);
    score, flags, done := Raise(ValidationPolicy in classes, ValidationPolicyTouch, 2, score, flags, a, all, done);
    score, flags, done := Raise(selfReferential, SelfReferentialChange, 3, score, flags, a, all, done);
    score, flags, done := Raise(a.priorTimeouts >= 2, TimeoutHistory, 1, score, flags, a, all, done);
    score, flags, done := Raise(unselected >= 2, ValidationScopeMismatch, 1, score, flags, a, all, done);
    assert done == FLAGS;
  }

  lemma NoFlagsYet(a: Attempt, paths: set<string>)
    ensures RaisedAmong(a, paths, []) == [] && TotalWeight([]) == 0
  {
  }

  method Raise(holds: bool, flag: Flag, weight: nat, score: nat, flags: seq<Flag>, a: Attempt, ghost paths: set<string>, ghost front: seq<Flag>)
    returns (score': nat, flags': seq<Flag>, ghost front': seq<Flag>)
    requires holds == Raised(a, paths, flag) && weight == Weight(flag)
    requires flags == RaisedAmong(a, paths, front) && score == TotalWeight(flags)
    ensures front' == front + [flag] && flags' == RaisedAmong(a, paths, front') && score' == TotalWeight(flags')
  {
    hide Raised, RaisedAmong, TotalWeight;
    AddedWeight(a, paths, front, flag);
    score', flags', front' := score, flags, front + [flag];
    if holds {
      score' := score + weight;
      flags' := flags + [flag];
    }
  }

  lemma {:induction false} DistinctPaths(paths: seq<string>)
    requires NoRepeats(paths)
    ensures |PathSet(paths)| == |paths|
  {
    if paths != [] {
      var front := paths[..|paths| - 1];
      DistinctPaths(front);
      assert PathSet(paths) == PathSet(front) + {paths[|paths| - 1]};
    }
  }

  // ---------------------------------------------------------------- monotonicity

  lemma {:induction false} SubsetSize<T>(small: set<T>, large: set<T>)
    requires small <= large
    ensures |small| <= |large|
  {
    if x :| x in small {
      SubsetSize(small - {x}, large - {x});
    }
  }

  /** A flag raised for some files stays raised when more files are changed. */
  lemma FlagsPersist(a: Attempt, small: set<string>, large: set<string>, flag: Flag)
    requires small <= large && Raised(a, small, flag)
    ensures Raised(a, large, flag)
  {
    hide HasClass, InSubsystem, Subsystem, UnselectedTest;
    match flag
    case LargeDiff => SubsetSize(small, large);
    case WideSurface => SubsetSize(Subsystems(small), Subsystems(large));
    case ValidationScopeMismatch => SubsetSize(UnselectedTests(a.mode, small), UnselectedTests(a.mode, large));
    case _ =>
  }

  lemma {:induction false} WeightGrows(a: Attempt, small: set<string>, large: set<string>, flags: seq<Flag>)
    requires small <= large
    ensures TotalWeight(RaisedAmong(a, small, flags)) <= TotalWeight(RaisedAmong(a, large, flags))
  {
    hide Raised;
    if flags != [] {
      var front, flag := flags[..|flags| - 1], flags[|flags| - 1];
      assert flags == front + [flag];
      WeightGrows(a, small, large, front);
      AddedWeight(a, small, front, flag);
      AddedWeight(a, large, front, flag);
      if Raised(a, small, flag) { FlagsPersist(a, small, large, flag); }
    }
  }

  lemma AddedWeight(a: Attempt, paths: set<string>, front: seq<Flag>, flag: Flag)
    ensures RaisedAmong(a, paths, front + [flag]) == RaisedAmong(a, paths, front) + (if Raised(a, paths, flag) then [flag] else [])
    ensures TotalWeight(RaisedAmong(a, paths, front + [flag])) ==
            TotalWeight(RaisedAmong(a, paths, front)) + (if Raised(a, paths, flag) then Weight(flag) else 0)
  {
    hide Raised;
    var raised := RaisedAmong(a, paths, front);
    assert (front + [flag])[..|front|] == front;
    assert (raised + [flag])[..|raised|] == raised;
  }

  /** Risk is monotone: with everything else fixed, changing more files never lowers the score
      and never weakens the action. */
  lemma RiskIsMonotone(a: Attempt, small: set<string>, large: set<string>)
    requires small <= large
    ensures Score(a, small) <= Score(a, large)
    ensures Severity(ActionFor(a, small)) <= Severity(ActionFor(a, large))
  {
    WeightGrows(a, small, large, FLAGS);
    if SelfReferential(a, small) { FlagsPersist(a, small, large, SelfReferentialChange); }
  }

  /** The reported flags are exactly the conditions that hold. */
  lemma {:induction false} FlagsAreTheConditions(a: Attempt, paths: set<string>, flags: seq<Flag>, flag: Flag)
    ensures flag in RaisedAmong(a, paths, flags) <==> flag in flags && Raised(a, paths, flag)
  {
    hide Raised;
    if flags != [] {
      var front, last := flags[..|flags| - 1], flags[|flags| - 1];
      assert flags == front + [last];
      FlagsAreTheConditions(a, paths, front, flag);
    }
  }

  // ---------------------------------------------------------------- what the actions mean

  lemma PolicyClass(paths: set<string>)
    ensures ValidationPolicy in Classes(paths) <==> exists p :: p in paths && IsPolicyFile(p)
  {
    if ValidationPolicy in Classes(paths) {
      var p :| p in paths && HasClass(p, ValidationPolicy);
    }
    if p :| p in paths && IsPolicyFile(p) {
      assert HasClass(p, ValidationPolicy);
    }
  }

  /** The mode is changed only for a default-focused attempt whose action is narrow validation,
      and then no validation-policy file was touched: such a change would have been blocked. */
  lemma NarrowedModeMeansNoPolicyFile(a: Attempt, paths: set<string>)
    requires EffectiveMode(a, paths) != a.mode
    ensures a.mode == "default_focused" && 2 <= Score(a, paths) < 4
    ensures forall p :: p in paths ==> !IsPolicyFile(p)
    ensures EffectiveMode(a, paths) == "lightweight_repair" ==> ControlPlane in Classes(paths)
  {
    hide Score, Classes;
    PolicyClass(paths);
  }

  /** Under the three modes the gate knows, touching any validation-policy file blocks the
      attempt, however small the change; under any other mode nothing is ever blocked. */
  lemma BlockedExactlyWhenSelfReferential(a: Attempt, paths: set<string>)
    ensures ActionFor(a, paths) == BlockSelfReferential <==>
            a.mode in {"lightweight_operator", "lightweight_repair", "default_focused"} && ValidationPolicy in Classes(paths)
  {
    hide Score, Classes;
    PolicyClass(paths);
  }

  /** The score spelled out. */
  lemma ScoreIs(a: Attempt, paths: set<string>)
    ensures Score(a, paths) ==
            (if |paths| >= 4 then 1 else 0) +
            (if |Subsystems(paths)| >= 3 then 1 else 0) +
            (if a.selfHosting && ControlPlane in Classes(paths) then 1 else 0) +
            (if ValidationPolicy in Classes(paths) then 2 else 0) +
            (if SelfReferential(a, paths) then 3 else 0) +
            (if a.priorTimeouts >= 2 then 1 else 0) +
            (if |UnselectedTests(a.mode, paths)| >= 2 then 1 else 0)
  {
    hide Classes, Subsystems, UnselectedTests, SelfReferential, TotalWeight, RaisedAmong;
    NoFlagsYet(a, paths);
    var none: seq<Flag> := [];
    var one := none + [LargeDiff];
    var two := one + [WideSurface];
    var three := two + [ControlPlaneTouch];
    var four := three + [ValidationPolicyTouch];
    var five := four + [SelfReferentialChange];
    var six := five + [TimeoutHistory];
    AddedWeight(a, paths, none, LargeDiff);
    AddedWeight(a, paths, one, WideSurface);
    AddedWeight(a, paths, two, ControlPlaneTouch);
    AddedWeight(a, paths, three, ValidationPolicyTouch);
    AddedWeight(a, paths, four, SelfReferentialChange);
    AddedWeight(a, paths, five, TimeoutHistory);
    AddedWeight(a, paths, six, ValidationScopeMismatch);
    assert six + [ValidationScopeMismatch] == FLAGS;
  }

  /** How the score decides: narrow validation from two on, narrow scope from four on, and a
      self-referential change blocked whatever the score. */
  lemma ScoreDecides(a: Attempt, paths: set<string>)
    ensures Severity(ActionFor(a, paths)) >= 1 <==> Score(a, paths) >= 2
    ensures Severity(ActionFor(a, paths)) >= 2 <==> Score(a, paths) >= 4 || SelfReferential(a, paths)
    ensures Severity(ActionFor(a, paths)) >= 3 <==> SelfReferential(a, paths)
  {
    ScoreIs(a, paths);
    hide Score, Classes, Subsystems, UnselectedTests, SelfReferential;
  }

  // ---------------------------------------------------------------- what the classifiers mean

  lemma {:induction false} SplitsAtFirst(name: string, rest: string)
    requires '/' !in name
    ensures Split(name) == [name]
    ensures Split(name + "/" + rest) == [name] + Split(rest)
  {
    var path := name + "/" + rest;
    if name == "" {
      assert path[1..] == rest;
    } else {
      SplitsAtFirst(name[1..], rest);
      assert path[1..] == name[1..] + "/" + rest;
      assert [name[0]] + name[1..] == name;
    }
  }

  /** Inside the harness the subsystem is the entry below its directory, be it a file or a
      directory. */
  lemma SubsystemInside(entry: string, rest: string)
    requires '/' !in entry
    ensures Subsystem("src/accruvia_harness/" + entry) == entry
    ensures Subsystem("src/accruvia_harness/" + entry + "/" + rest) == entry
  {
    hide Split;
    InsideParts(entry);
    InsideParts(entry + "/" + rest);
    SplitsAtFirst(entry, rest);
    assert "src/accruvia_harness/" + entry + "/" + rest == "src/accruvia_harness/" + (entry + "/" + rest);
  }

  lemma InsideParts(path: string)
    ensures StartsWith("src/accruvia_harness/" + path, HARNESS)
    ensures Split("src/accruvia_harness/" + path) == ["src", "accruvia_harness"] + Split(path)
  {
    hide Split;
    SplitsAtFirst("accruvia_harness", path);
    SplitsAtFirst("src", "accruvia_harness" + "/" + path);
    assert "src/accruvia_harness/" + path == "src" + "/" + ("accruvia_harness" + "/" + path);
  }

  /** Anywhere else it is the top directory, or the file itself at the top. */
  lemma SubsystemOutside(top: string, rest: string)
    requires '/' !in top && !StartsWith(top + "/" + rest, HARNESS)
    ensures Subsystem(top) == top
    ensures Subsystem(top + "/" + rest) == top
  {
    hide Split;
    SplitsAtFirst(top, rest);
    assert HARNESS[3] == '/';
    assert |top| > 3 ==> top[3] in top;
    assert !StartsWith(top, HARNESS);
  }

  /** The last part of a path is what follows its last slash. */
  lemma {:induction false} BasenameIs(directory: string, name: string)
    requires '/' !in name
    ensures Basename(directory + "/" + name) == name && Basename(name) == name
    decreases |directory|
  {
    SplitsAtFirst(name, "");
    if i :| 0 <= i < |directory| && directory[i] == '/' {
      FirstSlash(directory, name);
    } else {
      SplitsAtFirst(directory, name);
    }
  }

  lemma {:induction false} FirstSlash(directory: string, name: string)
    requires '/' in directory && '/' !in name
    ensures Basename(directory + "/" + name) == name
    decreases |directory|
  {
    var head, tail := Cut(directory);
    assert directory + "/" + name == head + "/" + (tail + "/" + name);
    SplitsAtFirst(head, tail + "/" + name);
    if '/' in tail {
      FirstSlash(tail, name);
    } else {
      SplitsAtFirst(tail, name);
      SplitsAtFirst(name, "");
    }
  }

  lemma {:induction false} Cut(path: string) returns (head: string, tail: string)
    requires '/' in path
    ensures '/' !in head && path == head + "/" + tail
  {
    if path[0] == '/' {
      head, tail := "", path[1..];
    } else {
      var h, t := Cut(path[1..]);
      head, tail := [path[0]] + h, t;
    }
  }

  lemma Diverge(path: string, prefix: string, other: string, i: nat)
    requires StartsWith(path, prefix) && i < |prefix| && i < |other| && prefix[i] != other[i]
    ensures !StartsWith(path, other)
  {
    assert path[i] == prefix[i];
  }

  lemma CommandsDirectory(path: string)
    requires StartsWith(path, "src/accruvia_harness/commands/")
    ensures AreaOf(path) == Commands
  {
    hide StartsWith, EndsWith;
  }

  lemma ServicesDirectory(path: string)
    requires StartsWith(path, "src/accruvia_harness/services/")
    ensures AreaOf(path) == Services
  {
    Diverge(path, "src/accruvia_harness/services/", "src/accruvia_harness/commands/", 21);
    hide StartsWith, EndsWith;
  }

  lemma PersistenceDirectory(path: string)
    requires StartsWith(path, "src/accruvia_harness/persistence/")
    ensures AreaOf(path) == Persistence
  {
    Diverge(path, "src/accruvia_harness/persistence/", "src/accruvia_harness/commands/", 21);
    Diverge(path, "src/accruvia_harness/persistence/", "src/accruvia_harness/services/", 21);
    hide StartsWith, EndsWith;
  }

  lemma CognitionAreaDirectory(path: string)
    requires StartsWith(path, "src/accruvia_harness/cognition/")
    ensures AreaOf(path) == CognitionArea
  {
    Diverge(path, "src/accruvia_harness/cognition/", "src/accruvia_harness/commands/", 23);
    Diverge(path, "src/accruvia_harness/cognition/", "src/accruvia_harness/services/", 21);
    Diverge(path, "src/accruvia_harness/cognition/", "src/accruvia_harness/persistence/", 21);
    hide StartsWith, EndsWith;
  }

  lemma ObserverDirectory(path: string)
    requires StartsWith(path, "src/accruvia_harness/observer/")
    ensures AreaOf(path) == Observer
  {
    Diverge(path, "src/accruvia_harness/observer/", "src/accruvia_harness/commands/", 21);
    Diverge(path, "src/accruvia_harness/observer/", "src/accruvia_harness/services/", 21);
    Diverge(path, "src/accruvia_harness/observer/", "src/accruvia_harness/persistence/", 21);
    Diverge(path, "src/accruvia_harness/observer/", "src/accruvia_harness/cognition/", 21);
    hide StartsWith, EndsWith;
  }

  lemma TestsDirectory(path: string)
    requires StartsWith(path, "tests/")
    ensures AreaOf(path) == Tests
  {
    Diverge(path, "tests/", "src/accruvia_harness/commands/", 0);
    Diverge(path, "tests/", "src/accruvia_harness/services/", 0);
    Diverge(path, "tests/", "src/accruvia_harness/persistence/", 0);
    Diverge(path, "tests/", "src/accruvia_harness/cognition/", 0);
    Diverge(path, "tests/", "src/accruvia_harness/observer/", 0);
    hide StartsWith, EndsWith;
  }

  lemma DocumentsDirectory(path: string)
    requires StartsWith(path, "specs/")
    ensures AreaOf(path) == Documents
  {
    Diverge(path, "specs/", "src/accruvia_harness/commands/", 1);
    Diverge(path, "specs/", "src/accruvia_harness/services/", 1);
    Diverge(path, "specs/", "src/accruvia_harness/persistence/", 1);
    Diverge(path, "specs/", "src/accruvia_harness/cognition/", 1);
    Diverge(path, "specs/", "src/accruvia_harness/observer/", 1);
    Diverge(path, "specs/", "tests/", 0);
    hide StartsWith, EndsWith;
  }

  /** Every file of the validation policy belongs to the control plane, so that touching one in the
      harness itself is worth at least three. */
  lemma PolicyIsControlPlane(a: Attempt, paths: set<string>)
    ensures ValidationPolicy in Classes(paths) ==> ControlPlane in Classes(paths)
    ensures ValidationPolicy in Classes(paths) && a.selfHosting ==> Score(a, paths) >= 3
  {
    if ValidationPolicy in Classes(paths) {
      PolicyClass(paths);
      var p :| p in paths && IsPolicyFile(p);
      PolicyFileHasClass(p);
      assert HasClass(p, ControlPlane);
    }
    ScoreIs(a, paths);
  }

  lemma PolicyFileHasClass(p: string)
    requires IsPolicyFile(p)
    ensures HasClass(p, ControlPlane)
  {
    if !IsControlPlaneFile(p) {
      assert StartsWith(p, "src/accruvia_harness/services/");
    }
  }

  /** Each directory has its own area, whatever follows: no path starts with two of them. */
  lemma DirectoriesDecide(path: string)
    ensures StartsWith(path, "src/accruvia_harness/commands/") ==> AreaOf(path) == Commands
    ensures StartsWith(path, "src/accruvia_harness/services/") ==> AreaOf(path) == Services
    ensures StartsWith(path, "src/accruvia_harness/persistence/") ==> AreaOf(path) == Persistence
    ensures StartsWith(path, "src/accruvia_harness/cognition/") ==> AreaOf(path) == CognitionArea
    ensures StartsWith(path, "src/accruvia_harness/observer/") ==> AreaOf(path) == Observer
    ensures StartsWith(path, "tests/") ==> AreaOf(path) == Tests
    ensures StartsWith(path, "specs/") ==> AreaOf(path) == Documents
  {
    hide AreaOf, StartsWith;
    if StartsWith(path, "src/accruvia_harness/commands/") { CommandsDirectory(path); }
    if StartsWith(path, "src/accruvia_harness/services/") { ServicesDirectory(path); }
    if StartsWith(path, "src/accruvia_harness/persistence/") { PersistenceDirectory(path); }
    if StartsWith(path, "src/accruvia_harness/cognition/") { CognitionAreaDirectory(path); }
    if StartsWith(path, "src/accruvia_harness/observer/") { ObserverDirectory(path); }
    if StartsWith(path, "tests/") { TestsDirectory(path); }
    if StartsWith(path, "specs/") { DocumentsDirectory(path); }
  }

  lemma AreaStarts(path: string)
    ensures AreaOf(path) == Commands ==> StartsWith(path, "src/accruvia_harness/commands/")
    ensures AreaOf(path) == Services ==> StartsWith(path, "src/accruvia_harness/services/")
    ensures AreaOf(path) == Persistence ==> StartsWith(path, "src/accruvia_harness/persistence/")
    ensures AreaOf(path) == CognitionArea ==> StartsWith(path, "src/accruvia_harness/cognition/")
    ensures AreaOf(path) == Observer ==> StartsWith(path, "src/accruvia_harness/observer/")
    ensures AreaOf(path) == Tests ==> StartsWith(path, "tests/")
  {
    hide StartsWith, EndsWith;
  }

  /** The surface classes by what a path starts with; since the directories exclude each other the
      order of the tests does not matter, except that documents are looked for last. */
  lemma ClassesByPrefix(path: string)
    ensures HasClass(path, CliSurface) <==> StartsWith(path, "src/accruvia_harness/commands/")
    ensures HasClass(path, PersistenceLayer) <==> StartsWith(path, "src/accruvia_harness/persistence/")
    ensures HasClass(path, Cognition) <==> StartsWith(path, "src/accruvia_harness/cognition/")
    ensures HasClass(path, ObserverSurface) <==> StartsWith(path, "src/accruvia_harness/observer/")
    ensures HasClass(path, TestOnly) <==> StartsWith(path, "tests/")
    ensures HasClass(path, Ci) <==> StartsWith(path, ".github/")
    ensures HasClass(path, ControlPlane) <==>
            StartsWith(path, "src/accruvia_harness/commands/") || StartsWith(path, "src/accruvia_harness/services/") ||
            StartsWith(path, "src/accruvia_harness/cognition/") || IsControlPlaneFile(path) ||
            (StartsWith(path, "src/accruvia_harness/persistence/") && Basename(path) == "project_task.py")
  {
    DirectoriesDecide(path);
    AreaStarts(path);
    hide AreaOf, StartsWith, Split, IsControlPlaneFile, IsPolicyFile;
  }

  /** The effective mode spelled out: a default-focused attempt of score two or three that touches no
      validation-policy file is validated as an operator's if its strategy or its files say so, and
      as a repair if it touches the control plane; every other attempt keeps its mode. */
  lemma EffectiveModeIs(a: Attempt, paths: set<string>)
    ensures EffectiveMode(a, paths) ==
            if a.mode == "default_focused" && 2 <= Score(a, paths) <= 3 && ValidationPolicy !in Classes(paths) then
              if StartsWith(a.strategy, "operator_") || CliSurface in Classes(paths) || ObserverSurface in Classes(paths)
              then "lightweight_operator"
              else if ControlPlane in Classes(paths) then "lightweight_repair"
              else "default_focused"
            else a.mode
  {
    BlockedExactlyWhenSelfReferential(a, paths);
    hide Score, Classes, SelfReferential, StartsWith;
    assert |"default_focused"| != |"lightweight_operator"|;
  }
}
