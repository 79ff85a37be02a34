/** The merge gate's git protocol on an abstract commit graph: check, check out, merge,
    run the suite, and step back when the suite does not pass. */
module MergeGates {
  import opened Prelude

  /** A commit is named by its position in the graph, so parents come before children. */
  type CommitId = nat

  datatype Commit = Commit(parents: seq<CommitId>)

  /** `head` is the branch checked out; None stands for a detached HEAD. */
  datatype Repo = Repo(commits: seq<Commit>, branches: map<string, CommitId>, head: Option<string>)

  datatype Suite = Passed | Failed | DidNotRun

  /** What git and the test suite will answer: everything about them that the gate cannot choose. */
  datatype World = World(isRepository: bool, dirty: bool, checkoutFails: bool,
                         mergeFails: bool, conflicts: seq<string>, suite: Suite)

  datatype Call = Call(branch: string, target: string, world: World)

  datatype Reason = NotARepository | BranchMissing | TargetMissing | Dirty | CheckoutFailed | MergeFailed | SuiteFailed

  datatype MergeResult =
    | Merged(commit: CommitId)
    | NotMerged(reason: Reason, conflicts: seq<string>)

  predicate Valid(r: Repo) {
    && (forall c :: 0 <= c < |r.commits| ==> ParentsPrecede(r.commits, c))
    && (forall b :: b in r.branches ==> r.branches[b] < |r.commits|)
    && (r.head.Some? ==> r.head.value in r.branches)
  }

  predicate ParentsPrecede(commits: seq<Commit>, c: CommitId)
    requires c < |commits|
  {
    forall i :: 0 <= i < |commits[c].parents| ==> commits[c].parents[i] < c
  }

  /** `past` is in the history of `tip`. */
  predicate Reaches(commits: seq<Commit>, tip: CommitId, past: CommitId)
    requires tip < |commits|
    decreases tip
  {
    tip == past ||
    exists i :: 0 <= i < |commits[tip].parents| && commits[tip].parents[i] < tip && Reaches(commits, commits[tip].parents[i], past)
  }

  predicate Contained(r: Repo, branch: string, target: string)
    requires Valid(r) && branch in r.branches && target in r.branches
  {
    Reaches(r.commits, r.branches[target], r.branches[branch])
  }

  /** `newer` still has every commit of `older`, unchanged. */
  predicate Extends(newer: seq<Commit>, older: seq<Commit>) {
    |older| <= |newer| && newer[..|older|] == older
  }

  /** `git merge --no-ff` on the checked-out target: nothing when the branch is already in
      its history, otherwise one commit with two parents. */
  function MergeInto(r: Repo, branch: string, target: string): (r': Repo)
    requires Valid(r) && branch in r.branches && target in r.branches
    ensures Valid(r') && Extends(r'.commits, r.commits) && r'.branches.Keys == r.branches.Keys
  {
    if Contained(r, branch, target) then r
    else
      var commits := r.commits + [Commit([r.branches[target], r.branches[branch]])];
      assert forall c :: 0 <= c < |r.commits| ==> ParentsPrecede(r.commits, c) && commits[c] == r.commits[c];
      Repo(commits, r.branches[target := |r.commits|], r.head)
  }

  /** `git reset --hard HEAD~1`: to the first parent, or nowhere from a root commit. */
  function StepBack(r: Repo, target: string): (r': Repo)
    requires Valid(r) && target in r.branches
    ensures Valid(r') && r'.commits == r.commits && r'.branches.Keys == r.branches.Keys
  {
    var parents := r.commits[r.branches[target]].parents;
    assert ParentsPrecede(r.commits, r.branches[target]);
    if parents == [] then r else r.(branches := r.branches[target := parents[0]])
  }

  /** The first check that turns a call away before it touches any branch. */
  function Refusal(r: Repo, c: Call): Option<Reason> {
    if !c.world.isRepository then Some(NotARepository)
    else if c.branch !in r.branches then Some(BranchMissing)
    else if c.target !in r.branches then Some(TargetMissing)
    else if c.world.dirty then Some(Dirty)
    else if r.head != Some(c.target) && c.world.checkoutFails then Some(CheckoutFailed)
    else None
  }

  function Execute(r: Repo, c: Call): (Repo, MergeResult)
    requires Valid(r)
  {
    if Refusal(r, c).Some? then (r, NotMerged(Refusal(r, c).value, []))
    else
      var on := r.(head := Some(c.target));
      if c.world.mergeFails && !Contained(on, c.branch, c.target) then (on, NotMerged(MergeFailed, c.world.conflicts))
      else
        var merged := MergeInto(on, c.branch, c.target);
        if c.world.suite.Passed? then (merged, Merged(merged.branches[c.target]))
        else (StepBack(merged, c.target), NotMerged(SuiteFailed, []))
  }

  class Repository {
    var commits: seq<Commit>
    var branches: map<string, CommitId>
    var head: Option<string>

    function View(): Repo
      reads this
    {
      Repo(commits, branches, head)
    }

    method Checkout(target: string, fails: bool) returns (ok: bool)
      requires Valid(View()) && target in branches
      modifies this`head
      ensures ok == !fails && head == if ok then Some(target) else old(head)
    {
      if !fails { head := Some(target); }
      ok := !fails;
    }

    method MergeNoFf(branch: string, fails: bool) returns (ok: bool)
      requires Valid(View()) && head.Some? && branch in branches
      modifies this`commits, this`branches
      ensures ok == (!fails || Contained(old(View()), branch, head.value))
      ensures View() == if ok then MergeInto(old(View()), branch, head.value) else old(View())
    {
      var tip := branches[head.value];
      if Reaches(commits, tip, branches[branch]) { return true; }
      if fails { return false; }
      branches := branches[head.value := |commits|];
      commits := commits + [Commit([tip, branches[branch]])];
      ok := true;
    }

    method ResetToParent()
      requires Valid(View()) && head.Some?
      modifies this`branches
      ensures View() == StepBack(old(View()), head.value)
    {
      var parents := commits[branches[head.value]].parents;
      if parents != [] {
        branches := branches[head.value := parents[0]];
      }
    }

    method ExecuteMerge(branch: string, target: string, world: World) returns (result: MergeResult)
      requires Valid(View())
      modifies this
      ensures (View(), result) == Execute(old(View()), Call(branch, target, world))
    {
      if !world.isRepository { return NotMerged(NotARepository, []); }
      if branch !in branches { return NotMerged(BranchMissing, []); }
      if target !in branches { return NotMerged(TargetMissing, []); }
      if world.dirty { return NotMerged(Dirty, []); }
      if head != Some(target) {
        var switched := Checkout(target, world.checkoutFails);
        if !switched { return NotMerged(CheckoutFailed, []); }
      }
      var clean := MergeNoFf(branch, world.mergeFails);
      if !clean { return NotMerged(MergeFailed, world.conflicts); }
      if !world.suite.Passed? {
        ResetToParent();
        return NotMerged(SuiteFailed, []);
      }
      result := Merged(branches[target]);
    }
  }

  // ---------------------------------------------------------------- the commit graph

  lemma {:induction false} ReachesExtends(older: seq<Commit>, newer: seq<Commit>, tip: CommitId, past: CommitId)
    requires Extends(newer, older) && tip < |older|
    ensures Reaches(newer, tip, past) == Reaches(older, tip, past)
    decreases tip
  {
    assert newer[tip] == older[tip];
    var parents := older[tip].parents;
    forall i | 0 <= i < |parents| && parents[i] < tip
      ensures Reaches(newer, parents[i], past) == Reaches(older, parents[i], past)
    {
      ReachesExtends(older, newer, parents[i], past);
    }
  }

  lemma {:induction false} ReachesEarlier(commits: seq<Commit>, tip: CommitId, past: CommitId)
    requires tip < |commits| && Reaches(commits, tip, past)
    ensures past <= tip
    decreases tip
  {
    if tip != past {
      var i :| 0 <= i < |commits[tip].parents| && commits[tip].parents[i] < tip && Reaches(commits, commits[tip].parents[i], past);
      ReachesEarlier(commits, commits[tip].parents[i], past);
    }
  }

  lemma {:induction false} ReachesTransitive(commits: seq<Commit>, tip: CommitId, mid: CommitId, past: CommitId)
    requires tip < |commits| && mid < |commits| && Reaches(commits, tip, mid) && Reaches(commits, mid, past)
    ensures Reaches(commits, tip, past)
    decreases tip
  {
    if tip != mid {
      var i :| 0 <= i < |commits[tip].parents| && commits[tip].parents[i] < tip && Reaches(commits, commits[tip].parents[i], mid);
      ReachesTransitive(commits, commits[tip].parents[i], mid, past);
    }
  }

  /** The history of a fresh merge commit is itself and the histories of both sides. */
  lemma MergeCommitHistory(commits: seq<Commit>, ours: CommitId, theirs: CommitId, past: CommitId)
    requires ours < |commits| && theirs < |commits|
    ensures var newer := commits + [Commit([ours, theirs])];
            Reaches(newer, |commits|, past) <==> past == |commits| || Reaches(commits, ours, past) || Reaches(commits, theirs, past)
  {
    var newer := commits + [Commit([ours, theirs])];
    ReachesExtends(commits, newer, ours, past);
    ReachesExtends(commits, newer, theirs, past);
    var parents := newer[|commits|].parents;
    assert parents[0] == ours && parents[1] == theirs;
  }

  // ---------------------------------------------------------------- one call

  /** A call that gets as far as running the suite. */
  predicate RunsSuite(r: Repo, c: Call)
    requires Valid(r)
  {
    Refusal(r, c).None? && (c.world.mergeFails ==> Contained(r, c.branch, c.target))
  }

  /** The failing family: nothing to merge, a suite that does not pass, and a commit to step back over. */
  predicate StepsBackTooFar(r: Repo, c: Call)
    requires Valid(r)
  {
    && Refusal(r, c).None?
    && Contained(r, c.branch, c.target)
    && !c.world.suite.Passed?
    && r.commits[r.branches[c.target]].parents != []
  }

  /** Every call leaves a well-formed repository in which no commit is gone and no branch
      other than the target has moved. */
  lemma OnlyTheTargetMoves(r: Repo, c: Call)
    requires Valid(r)
    ensures var r' := Execute(r, c).0;
            && Valid(r') && Extends(r'.commits, r.commits)
            && r'.branches.Keys == r.branches.Keys
            && (forall b :: b in r.branches && b != c.target ==> r'.branches[b] == r.branches[b])
            && (r'.head == r.head || r'.head == Some(c.target))
  {
  }

  /** All or nothing: a call that does not merge leaves the target's tip exactly where it was,
      if and only if it is not one of the calls that step back with nothing merged. */
  lemma FailureLeavesTheTip(r: Repo, c: Call)
    requires Valid(r) && c.target in r.branches && Execute(r, c).1.NotMerged?
    ensures Execute(r, c).0.branches[c.target] == r.branches[c.target] <==> !StepsBackTooFar(r, c)
  {
    if StepsBackTooFar(r, c) {
      assert ParentsPrecede(r.commits, r.branches[c.target]);
    }
  }

  /** What such a call does to the target: its tip becomes its first parent, and the old tip
      is no longer in the target's history. */
  lemma SteppingBackLosesTheTip(r: Repo, c: Call)
    requires Valid(r) && StepsBackTooFar(r, c)
    ensures var r' := Execute(r, c).0;
            && Valid(r') && c.target in r'.branches
            && r'.branches[c.target] == r.commits[r.branches[c.target]].parents[0]
            && !Reaches(r'.commits, r'.branches[c.target], r.branches[c.target])
  {
    var r' := Execute(r, c).0;
    assert ParentsPrecede(r.commits, r.branches[c.target]);
    if Reaches(r'.commits, r'.branches[c.target], r.branches[c.target]) {
      ReachesEarlier(r'.commits, r'.branches[c.target], r.branches[c.target]);
    }
  }

  /** Success on a branch not yet contained: the tip advances by one fresh commit whose first
      parent is the old tip, whose history is exactly both histories, and which is reported. */
  lemma SuccessIsOneMergeCommit(r: Repo, c: Call, past: CommitId)
    requires Valid(r) && Execute(r, c).1.Merged? && !Contained(r, c.branch, c.target)
    ensures var (r', result) := Execute(r, c);
            var tip := r.branches[c.target];
            var tip' := r'.branches[c.target];
            && result.commit == tip' == |r.commits| && |r'.commits| == |r.commits| + 1
            && r'.commits[tip'].parents == [tip, r.branches[c.branch]]
            && (Reaches(r'.commits, tip', past) <==>
                past == tip' || Reaches(r.commits, tip, past) || Reaches(r.commits, r.branches[c.branch], past))
            && r'.head == Some(c.target)
  {
    MergeCommitHistory(r.commits, r.branches[c.target], r.branches[c.branch], past);
  }

  /** A call succeeds exactly when nothing turns it away, the merge goes through and the suite
      passes; afterwards the branch is contained in the target. */
  lemma SuccessContainsTheBranch(r: Repo, c: Call)
    requires Valid(r)
    ensures Execute(r, c).1.Merged? <==> RunsSuite(r, c) && c.world.suite.Passed?
    ensures Execute(r, c).1.Merged? ==> Valid(Execute(r, c).0) && Contained(Execute(r, c).0, c.branch, c.target)
  {
    OnlyTheTargetMoves(r, c);
    if Execute(r, c).1.Merged? && !Contained(r, c.branch, c.target) {
      var r' := Execute(r, c).0;
      var theirs := r.branches[c.branch];
      SuccessIsOneMergeCommit(r, c, theirs);
    }
  }

  /** All that a merge takes: a repository with both branches, no uncommitted change, the target
      checked out or free to be, a merge that goes through or has nothing to do, and a suite that
      passes. */
  lemma MergesExactlyWhen(r: Repo, c: Call)
    requires Valid(r)
    ensures Execute(r, c).1.Merged? <==>
            && c.world.isRepository && c.branch in r.branches && c.target in r.branches && !c.world.dirty
            && (r.head == Some(c.target) || !c.world.checkoutFails)
            && (Reaches(r.commits, r.branches[c.target], r.branches[c.branch]) || !c.world.mergeFails)
            && c.world.suite == Passed
  {
    SuccessContainsTheBranch(r, c);
  }

  /** A call that fails a check changes nothing, the branch checked out included, and names the first
      check it fails. */
  lemma RefusedCallsChangeNothing(r: Repo, c: Call)
    requires Valid(r)
    ensures !c.world.isRepository ==> Execute(r, c) == (r, NotMerged(NotARepository, []))
    ensures c.world.isRepository ==>
      if c.branch !in r.branches then Execute(r, c) == (r, NotMerged(BranchMissing, []))
      else if c.target !in r.branches then Execute(r, c) == (r, NotMerged(TargetMissing, []))
      else if c.world.dirty then Execute(r, c) == (r, NotMerged(Dirty, []))
      else r.head != Some(c.target) && c.world.checkoutFails ==> Execute(r, c) == (r, NotMerged(CheckoutFailed, []))
  {
  }

  /** A call that passes the checks leaves the target checked out. When the merge fails its conflicts
      are reported and every branch stays; when the suite does not pass that is reported. */
  lemma CheckedCallsReport(r: Repo, c: Call)
    requires Valid(r)
    requires c.world.isRepository && c.branch in r.branches && c.target in r.branches && !c.world.dirty
    requires r.head == Some(c.target) || !c.world.checkoutFails
    ensures var (r', result) := Execute(r, c);
            var contained := Reaches(r.commits, r.branches[c.target], r.branches[c.branch]);
            && r'.head == Some(c.target)
            && (c.world.mergeFails && !contained ==>
                  result == NotMerged(MergeFailed, c.world.conflicts) && r'.commits == r.commits && r'.branches == r.branches)
            && ((!c.world.mergeFails || contained) && c.world.suite != Passed ==> result == NotMerged(SuiteFailed, []))
  {
  }

  // ---------------------------------------------------------------- several calls

  /** A merge that failed can be tried again: the branch is still not contained, so whatever
      the second call meets, it too either merges or leaves the tip alone. */
  lemma FailureCanBeRetried(r: Repo, c: Call, again: World)
    requires Valid(r) && c.branch in r.branches && c.target in r.branches
    requires !Contained(r, c.branch, c.target) && Execute(r, c).1.NotMerged?
    ensures var r' := Execute(r, c).0;
            && Valid(r') && !Contained(r', c.branch, c.target)
            && (var (r'', result) := Execute(r', c.(world := again));
                result.NotMerged? ==> r''.branches == r'.branches == r.branches)
  {
    OnlyTheTargetMoves(r, c);
    FailureLeavesTheTip(r, c);
    var r' := Execute(r, c).0;
    ReachesExtends(r.commits, r'.commits, r.branches[c.target], r.branches[c.branch]);
    assert r'.branches == r.branches;
    var c' := c.(world := again);
    OnlyTheTargetMoves(r', c');
    if Execute(r', c').1.NotMerged? {
      FailureLeavesTheTip(r', c');
      assert Execute(r', c').0.branches == r'.branches;
    }
  }

  /** A merge that succeeded must not be tried again: a second call whose suite does not pass
      takes the finished merge off the target. */
  lemma RetryAfterSuccessUndoesIt(r: Repo, c: Call, again: World)
    requires Valid(r) && Execute(r, c).1.Merged? && !Contained(r, c.branch, c.target)
    requires again.isRepository && !again.dirty && !again.suite.Passed?
    ensures var r' := Execute(r, c).0;
            && Valid(r')
            && (var (r'', result) := Execute(r', c.(world := again));
                result == NotMerged(SuiteFailed, []) && r''.branches == r.branches != r'.branches)
  {
    OnlyTheTargetMoves(r, c);
    SuccessContainsTheBranch(r, c);
    SuccessIsOneMergeCommit(r, c, 0);
    var r' := Execute(r, c).0;
    assert Execute(r', c.(world := again)).0.branches == r.branches;
  }

  /** A concrete repository on which a failed call moves the target: main was built on work,
      and merging work into it again while the suite fails drops main's only own commit. */
  lemma StepBackExample(world: World)
    requires world.isRepository && !world.dirty && world.suite == Failed
    ensures var r := Repo([Commit([]), Commit([0])], map["main" := 1, "work" := 0], Some("main"));
            && Valid(r)
            && Execute(r, Call("work", "main", world)).1.NotMerged?
            && Execute(r, Call("work", "main", world)).0.branches["main"] == 0
  {
    var r := Repo([Commit([]), Commit([0])], map["main" := 1, "work" := 0], Some("main"));
    assert Reaches(r.commits, 0, 0);
    assert r.commits[1].parents[0] == 0;
    assert Contained(r, "work", "main");
  }

  function Run(r: Repo, calls: seq<Call>): (r': Repo)
    requires Valid(r)
    ensures Valid(r')
    decreases |calls|
  {
    if calls == [] then r
    else
      OnlyTheTargetMoves(r, calls[0]);
      Run(Execute(r, calls[0]).0, calls[1..])
  }

  predicate NeverStepsBackTooFar(r: Repo, calls: seq<Call>)
    requires Valid(r)
    decreases |calls|
  {
    calls == [] ||
    (!StepsBackTooFar(r, calls[0]) && (OnlyTheTargetMoves(r, calls[0]); NeverStepsBackTooFar(Execute(r, calls[0]).0, calls[1..])))
  }

  lemma TipKeepsHistory(r: Repo, c: Call, b: string)
    requires Valid(r) && b in r.branches && !StepsBackTooFar(r, c)
    ensures var r' := Execute(r, c).0;
            Valid(r') && b in r'.branches && Reaches(r'.commits, r'.branches[b], r.branches[b])
  {
    OnlyTheTargetMoves(r, c);
    var (r', result) := Execute(r, c);
    if b == c.target && result.Merged? && !Contained(r, c.branch, c.target) {
      SuccessIsOneMergeCommit(r, c, r.branches[b]);
    } else if b == c.target && result.NotMerged? {
      FailureLeavesTheTip(r, c);
    }
  }

  /** History only grows: over any series of merge calls, into any targets, everything a branch
      had in its history it still has, as long as no call steps back with nothing merged. */
  lemma {:induction false} HistoryOnlyGrows(r: Repo, calls: seq<Call>, b: string, past: CommitId)
    requires Valid(r) && b in r.branches && NeverStepsBackTooFar(r, calls)
    requires Reaches(r.commits, r.branches[b], past)
    ensures var r' := Run(r, calls); b in r'.branches && Reaches(r'.commits, r'.branches[b], past)
    decreases |calls|
  {
    if calls != [] {
      TipKeepsHistory(r, calls[0], b);
      OnlyTheTargetMoves(r, calls[0]);
      var r' := Execute(r, calls[0]).0;
      ReachesExtends(r.commits, r'.commits, r.branches[b], past);
      ReachesTransitive(r'.commits, r'.branches[b], r.branches[b], past);
      HistoryOnlyGrows(r', calls[1..], b, past);
    }
  }
}
