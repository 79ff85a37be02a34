/** Task lineage: the walk up to a task's ancestors and the recursion down to its descendants,
    and that the two are each other's inverse. */
module Lineages {
  import opened Prelude

  /** A task row; an empty parent id stands for no parent. */
  datatype Task = Task(id: string, parent: string)

  /** The nested report of a task's descendants. */
  datatype Node = Node(task: Task, children: seq<Node>)

  datatype Lineage = Lineage(ancestors: seq<Task>, children: seq<Node>)

  /** The task table in creation order: ids are not empty and occur once. */
  predicate Valid(tasks: seq<Task>) {
    && (forall i :: 0 <= i < |tasks| ==> tasks[i].id != "")
    && (forall i, j :: 0 <= i < j < |tasks| ==> tasks[i].id != tasks[j].id)
  }

  function Get(tasks: seq<Task>, id: string): (found: Option<Task>)
    ensures found.Some? ==> found.value in tasks && found.value.id == id
    ensures found.None? ==> forall t :: t in tasks ==> t.id != id
  {
    if tasks == [] then None else if tasks[0].id == id then Some(tasks[0]) else Get(tasks[1..], id)
  }

  function Parent(tasks: seq<Task>, t: Task): Option<Task> {
    if t.parent == "" then None else Get(tasks, t.parent)
  }

  /** The tasks whose parent id is `id`, in creation order. */
  function Children(tasks: seq<Task>, id: string): (kids: seq<Task>)
    ensures forall t :: t in kids <==> t in tasks && t.parent == id
  {
    if tasks == [] then []
    else if tasks[0].parent == id then [tasks[0]] + Children(tasks[1..], id)
    else Children(tasks[1..], id)
  }

  lemma ChildrenOfRest(tasks: seq<Task>, id: string)
    ensures tasks == [] ==> Children(tasks, id) == []
    ensures tasks != [] ==> Children(tasks, id) == (if tasks[0].parent == id then [tasks[0]] else []) + Children(tasks[1..], id)
  {
  }

  /** Children keep the creation order: of any two, the earlier listed was created first. */
  lemma {:induction false} ChildrenInCreationOrder(tasks: seq<Task>, id: string, i: nat, k: nat) returns (a: nat, b: nat)
    requires i < k < |Children(tasks, id)|
    ensures a < b < |tasks| && tasks[a] == Children(tasks, id)[i] && tasks[b] == Children(tasks, id)[k]
  {
    hide Children;
    ChildrenOfRest(tasks, id);
    var rest, skip := tasks[1..], if tasks[0].parent == id then 1 else 0;
    var kids := Children(rest, id);
    assert Children(tasks, id)[k] == kids[k - skip];
    if skip <= i {
      assert Children(tasks, id)[i] == kids[i - skip];
      a, b := ChildrenInCreationOrder(rest, id, i - skip, k - skip);
      a := a + 1;
    } else {
      assert Children(tasks, id)[i] == tasks[0];
      a := 0;
      b := FoundAt(rest, id, kids[k - skip]);
    }
    b := b + 1;
  }

  lemma FoundAt(tasks: seq<Task>, id: string, t: Task) returns (b: nat)
    requires t in Children(tasks, id)
    ensures b < |tasks| && tasks[b] == t
  {
    b :| b < |tasks| && tasks[b] == t;
  }

  /** A numbering that grows from parent to child: the parent relation has no cycle. */
  ghost predicate Ranked(tasks: seq<Task>, rank: string -> nat) {
    forall t :: t in tasks && Parent(tasks, t).Some? ==> rank(Parent(tasks, t).value.id) < rank(t.id)
  }

  /** `ancestors` is the chain of parents above t, root first and complete. */
  predicate IsLineage(tasks: seq<Task>, t: Task, ancestors: seq<Task>)
    decreases |ancestors|
  {
    if ancestors == [] then Parent(tasks, t).None?
    else
      var last := |ancestors| - 1;
      Parent(tasks, t) == Some(ancestors[last]) && IsLineage(tasks, ancestors[last], ancestors[..last])
  }

  /** `nodes` lists exactly the children of `id`, each with its own complete subtree. */
  predicate IsTree(tasks: seq<Task>, id: string, nodes: seq<Node>)
    decreases nodes
  {
    && Roots(nodes) == Children(tasks, id)
    && forall i :: 0 <= i < |nodes| ==> IsTree(tasks, nodes[i].task.id, nodes[i].children)
  }

  function Roots(nodes: seq<Node>): (roots: seq<Task>)
    ensures |roots| == |nodes| && forall i :: 0 <= i < |nodes| ==> roots[i] == nodes[i].task
  {
    seq(|nodes|, i requires 0 <= i < |nodes| => nodes[i].task)
  }

  /** Every task of a forest, parents before children. */
  function Flatten(nodes: seq<Node>): seq<Task>
    decreases nodes
  {
    if nodes == [] then [] else [nodes[0].task] + Flatten(nodes[0].children) + Flatten(nodes[1..])
  }

  function Reversed(s: seq<Task>): seq<Task> {
    if s == [] then [] else [s[|s| - 1]] + Reversed(s[..|s| - 1])
  }

  // ---------------------------------------------------------------- the two walks

  /** The walk so far: any ancestor list of `current`, followed by what was collected in reverse,
      is one of `task`. */
  ghost predicate WalkedFrom(tasks: seq<Task>, task: Task, current: Task, collected: seq<Task>) {
    forall rest :: IsLineage(tasks, current, rest) ==> IsLineage(tasks, task, rest + Reversed(collected))
  }

  lemma WalkStart(tasks: seq<Task>, task: Task)
    ensures WalkedFrom(tasks, task, task, [])
  {
    forall rest | IsLineage(tasks, task, rest) ensures IsLineage(tasks, task, rest + Reversed([])) {
      assert rest + Reversed([]) == rest;
    }
  }

  lemma WalkStep(tasks: seq<Task>, task: Task, current: Task, parent: Task, collected: seq<Task>)
    requires WalkedFrom(tasks, task, current, collected) && Parent(tasks, current) == Some(parent)
    ensures WalkedFrom(tasks, task, parent, collected + [parent])
  {
    assert (collected + [parent])[..|collected|] == collected;
    forall rest | IsLineage(tasks, parent, rest) ensures IsLineage(tasks, task, rest + Reversed(collected + [parent])) {
      assert (rest + [parent])[..|rest|] == rest;
      assert IsLineage(tasks, current, rest + [parent]);
      assert rest + Reversed(collected + [parent]) == rest + [parent] + Reversed(collected);
    }
  }

  method Ancestors(tasks: seq<Task>, task: Task, ghost rank: string -> nat) returns (ancestors: seq<Task>)
    requires Valid(tasks) && task in tasks && Ranked(tasks, rank)
    ensures IsLineage(tasks, task, ancestors)
  {
    hide IsLineage;
    ancestors := [];
    var current := task;
    WalkStart(tasks, task);
    while current.parent != ""
      invariant current in tasks && WalkedFrom(tasks, task, current, ancestors)
      decreases rank(current.id)
    {
      var parent := Get(tasks, current.parent);
      if parent.None? { break; }
      WalkStep(tasks, task, current, parent.value, ancestors);
      ancestors := ancestors + [parent.value];
      current := parent.value;
    }
    WalkEnd(tasks, task, current, ancestors);
    ancestors := Reversed(ancestors);
  }

  lemma WalkEnd(tasks: seq<Task>, task: Task, current: Task, collected: seq<Task>)
    requires WalkedFrom(tasks, task, current, collected) && Parent(tasks, current).None?
    ensures IsLineage(tasks, task, Reversed(collected))
  {
    assert IsLineage(tasks, current, []);
    assert [] + Reversed(collected) == Reversed(collected);
  }

  ghost function MaxRank(tasks: seq<Task>, rank: string -> nat): (m: nat)
    ensures forall t :: t in tasks ==> rank(t.id) <= m
  {
    if tasks == [] then 0 else MaxInt(rank(tasks[0].id), MaxRank(tasks[1..], rank))
  }

  lemma ChildIsBelow(tasks: seq<Task>, rank: string -> nat, parent: Task, child: Task)
    requires Valid(tasks) && Ranked(tasks, rank) && parent in tasks && child in Children(tasks, parent.id)
    ensures Parent(tasks, child) == Some(parent) && rank(parent.id) < rank(child.id)
  {
    var found := Get(tasks, parent.id);
    assert found.Some?;
    var i :| 0 <= i < |tasks| && tasks[i] == found.value;
    var j :| 0 <= j < |tasks| && tasks[j] == parent;
    assert i == j;
  }

  method Descendants(tasks: seq<Task>, parent: Task, ghost rank: string -> nat) returns (payload: seq<Node>)
    requires Valid(tasks) && parent in tasks && Ranked(tasks, rank)
    ensures IsTree(tasks, parent.id, payload)
    decreases MaxRank(tasks, rank) - rank(parent.id)
  {
    var children := Children(tasks, parent.id);
    payload := [];
    for i := 0 to |children|
      invariant |payload| == i
      invariant forall k :: 0 <= k < i ==> payload[k].task == children[k] && IsTree(tasks, payload[k].task.id, payload[k].children)
    {
      ChildIsBelow(tasks, rank, parent, children[i]);
      var below := Descendants(tasks, children[i], rank);
      payload := payload + [Node(children[i], below)];
    }
  }

  method TaskLineage(tasks: seq<Task>, taskId: string, ghost rank: string -> nat) returns (report: Result<Lineage>)
    requires Valid(tasks) && Ranked(tasks, rank)
    ensures report.Ok? <==> exists t :: t in tasks && t.id == taskId
    ensures report.Ok? ==> exists t :: t in tasks && t.id == taskId && IsLineage(tasks, t, report.value.ancestors)
                                       && IsTree(tasks, taskId, report.value.children)
  {
    var task := Get(tasks, taskId);
    if task.None? { return Err("Unknown task: " + taskId); }
    var ancestors := Ancestors(tasks, task.value, rank);
    var children := Descendants(tasks, task.value, rank);
    report := Ok(Lineage(ancestors, children));
  }

  // ---------------------------------------------------------------- ancestor lists

  /** Ancestors come out root first: the first has no stored parent, each is the parent of the
      next, and the last is the task's own parent. */
  lemma {:induction false} AncestorsAreRootFirst(tasks: seq<Task>, t: Task, ancestors: seq<Task>, i: nat)
    requires IsLineage(tasks, t, ancestors) && i < |ancestors|
    ensures Parent(tasks, ancestors[0]).None?
    ensures Parent(tasks, if i + 1 < |ancestors| then ancestors[i + 1] else t) == Some(ancestors[i])
    decreases |ancestors|
  {
    var last := |ancestors| - 1;
    if last > 0 {
      AncestorsAreRootFirst(tasks, ancestors[last], ancestors[..last], if i < last then i else 0);
    }
  }

  /** The list of ancestors is unique. */
  lemma {:induction false} LineageIsUnique(tasks: seq<Task>, t: Task, a: seq<Task>, b: seq<Task>)
    requires IsLineage(tasks, t, a) && IsLineage(tasks, t, b)
    ensures a == b
    decreases |a|
  {
    if a != [] && b != [] {
      LineageIsUnique(tasks, a[|a| - 1], a[..|a| - 1], b[..|b| - 1]);
    }
  }

  lemma {:induction false} AncestorsAreAbove(tasks: seq<Task>, rank: string -> nat, t: Task, ancestors: seq<Task>)
    requires Ranked(tasks, rank) && t in tasks && IsLineage(tasks, t, ancestors)
    ensures forall a :: a in ancestors ==> a in tasks && rank(a.id) < rank(t.id)
    decreases |ancestors|
  {
    if ancestors != [] {
      var last := |ancestors| - 1;
      AncestorsAreAbove(tasks, rank, ancestors[last], ancestors[..last]);
      assert ancestors == ancestors[..last] + [ancestors[last]];
    }
  }

  /** Ancestors are closed upwards. */
  lemma {:induction false} ParentOfAncestor(tasks: seq<Task>, t: Task, ancestors: seq<Task>, c: Task, a: Task)
    requires IsLineage(tasks, t, ancestors) && (c == t || c in ancestors) && Parent(tasks, c) == Some(a)
    ensures a in ancestors
    decreases |ancestors|
  {
    if c != t {
      var last := |ancestors| - 1;
      if c == ancestors[last] {
        ParentOfAncestor(tasks, c, ancestors[..last], c, a);
      } else {
        assert c in ancestors[..last];
        ParentOfAncestor(tasks, ancestors[last], ancestors[..last], c, a);
      }
    }
  }

  /** Below every ancestor there is the next task on the way to t. */
  lemma {:induction false} StepTowards(tasks: seq<Task>, t: Task, ancestors: seq<Task>, a: Task) returns (c: Task)
    requires t in tasks && IsLineage(tasks, t, ancestors) && a in ancestors
    ensures (c == t || c in ancestors) && c in Children(tasks, a.id)
    decreases |ancestors|
  {
    var last := |ancestors| - 1;
    if a == ancestors[last] {
      c := t;
    } else {
      assert a in ancestors[..last];
      c := StepTowards(tasks, ancestors[last], ancestors[..last], a);
    }
  }

  /** Only one of a task's children leads to t. */
  lemma {:induction false} OneWayDown(tasks: seq<Task>, rank: string -> nat, t: Task, ancestors: seq<Task>, a: Task, c: Task, d: Task)
    requires Ranked(tasks, rank) && t in tasks && IsLineage(tasks, t, ancestors)
    requires (c == t || c in ancestors) && (d == t || d in ancestors)
    requires Parent(tasks, c) == Some(a) && Parent(tasks, d) == Some(a)
    ensures c == d
    decreases |ancestors|
  {
    AncestorsAreAbove(tasks, rank, t, ancestors);
    if c != d {
      var last := |ancestors| - 1;
      var p := ancestors[last];
      AncestorsAreAbove(tasks, rank, p, ancestors[..last]);
      if c == t || d == t {
        assert false;
      } else {
        assert c == p || c in ancestors[..last];
        assert d == p || d in ancestors[..last];
        OneWayDown(tasks, rank, p, ancestors[..last], a, c, d);
      }
    }
  }

  // ---------------------------------------------------------------- duality

  lemma {:induction false} FlattenHas(nodes: seq<Node>, t: Task)
    ensures t in Flatten(nodes) <==> exists i :: 0 <= i < |nodes| && (t == nodes[i].task || t in Flatten(nodes[i].children))
    decreases |nodes|
  {
    if nodes != [] {
      FlattenHas(nodes[1..], t);
      if t in Flatten(nodes[1..]) {
        var i :| 0 <= i < |nodes| - 1 && (t == nodes[1..][i].task || t in Flatten(nodes[1..][i].children));
        assert nodes[i + 1] == nodes[1..][i];
      }
      if i :| 0 < i < |nodes| && (t == nodes[i].task || t in Flatten(nodes[i].children)) {
        assert nodes[1..][i - 1] == nodes[i];
      }
    }
  }

  lemma {:induction false} DescendantHasAncestor(tasks: seq<Task>, rank: string -> nat, a: Task, nodes: seq<Node>, t: Task, ancestors: seq<Task>)
    requires Valid(tasks) && Ranked(tasks, rank) && a in tasks
    requires IsTree(tasks, a.id, nodes) && IsLineage(tasks, t, ancestors) && t in Flatten(nodes)
    ensures a in ancestors
    decreases nodes
  {
    FlattenHas(nodes, t);
    var i :| 0 <= i < |nodes| && (t == nodes[i].task || t in Flatten(nodes[i].children));
    var c := nodes[i].task;
    assert c == Roots(nodes)[i];
    ChildIsBelow(tasks, rank, a, c);
    if t != c {
      DescendantHasAncestor(tasks, rank, c, nodes[i].children, t, ancestors);
    }
    ParentOfAncestor(tasks, t, ancestors, c, a);
  }

  lemma {:induction false} AncestorHasDescendant(tasks: seq<Task>, rank: string -> nat, a: Task, nodes: seq<Node>, t: Task, ancestors: seq<Task>)
    requires Valid(tasks) && Ranked(tasks, rank) && t in tasks
    requires IsTree(tasks, a.id, nodes) && IsLineage(tasks, t, ancestors) && a in ancestors
    ensures t in Flatten(nodes)
    decreases nodes
  {
    var c := StepTowards(tasks, t, ancestors, a);
    assert c in Roots(nodes);
    var i :| 0 <= i < |nodes| && Roots(nodes)[i] == c;
    if t != c {
      AncestorHasDescendant(tasks, rank, c, nodes[i].children, t, ancestors);
    }
    FlattenHas(nodes, t);
  }

  /** Duality: t is somewhere in the report of a's descendants if and only if a is in the
      report of t's ancestors. */
  lemma DescendantsMirrorAncestors(tasks: seq<Task>, rank: string -> nat, a: Task, nodes: seq<Node>, t: Task, ancestors: seq<Task>)
    requires Valid(tasks) && Ranked(tasks, rank) && a in tasks && t in tasks
    requires IsTree(tasks, a.id, nodes) && IsLineage(tasks, t, ancestors)
    ensures t in Flatten(nodes) <==> a in ancestors
  {
    if t in Flatten(nodes) { DescendantHasAncestor(tasks, rank, a, nodes, t, ancestors); }
    if a in ancestors { AncestorHasDescendant(tasks, rank, a, nodes, t, ancestors); }
  }

  // ---------------------------------------------------------------- each exactly once

  lemma JoinNoRepeats(a: seq<Task>, b: seq<Task>)
    requires NoRepeats(a) && NoRepeats(b) && forall t :: t in a ==> t !in b
    ensures NoRepeats(a + b)
  {
    forall i, j | 0 <= i < j < |a + b| ensures (a + b)[i] != (a + b)[j] {
      if i < |a| <= j { assert a[i] in a && b[j - |a|] in b; }
    }
  }

  lemma {:induction false} ChildrenNoRepeats(tasks: seq<Task>, id: string)
    requires Valid(tasks)
    ensures NoRepeats(Children(tasks, id))
  {
    if tasks != [] {
      ChildrenNoRepeats(tasks[1..], id);
      if tasks[0].parent == id {
        assert tasks[0] !in tasks[1..];
        JoinNoRepeats([tasks[0]], Children(tasks[1..], id));
      }
    }
  }

  lemma {:induction false} FlattenInTasks(tasks: seq<Task>, id: string, nodes: seq<Node>, t: Task)
    requires IsTree(tasks, id, nodes) && t in Flatten(nodes)
    ensures t in tasks
    decreases nodes
  {
    FlattenHas(nodes, t);
    var i :| 0 <= i < |nodes| && (t == nodes[i].task || t in Flatten(nodes[i].children));
    if t == nodes[i].task {
      assert Roots(nodes)[i] in Children(tasks, id);
    } else {
      FlattenInTasks(tasks, nodes[i].task.id, nodes[i].children, t);
    }
  }

  /** A task has an ancestor list whenever the relation has no cycle. */
  lemma {:induction false} LineageExists(tasks: seq<Task>, rank: string -> nat, t: Task) returns (ancestors: seq<Task>)
    requires Ranked(tasks, rank) && t in tasks
    ensures IsLineage(tasks, t, ancestors)
    decreases rank(t.id)
  {
    if Parent(tasks, t).None? {
      ancestors := [];
    } else {
      var p := Parent(tasks, t).value;
      var above := LineageExists(tasks, rank, p);
      ancestors := above + [p];
      assert ancestors[..|above|] == above;
    }
  }

  /** A forest whose roots are children of one task has no task twice. */
  lemma {:induction false} ForestNoRepeats(tasks: seq<Task>, rank: string -> nat, a: Task, nodes: seq<Node>)
    requires Valid(tasks) && Ranked(tasks, rank) && a in tasks
    requires NoRepeats(Roots(nodes))
    requires forall i :: 0 <= i < |nodes| ==> nodes[i].task in Children(tasks, a.id) && IsTree(tasks, nodes[i].task.id, nodes[i].children)
    ensures NoRepeats(Flatten(nodes))
    decreases nodes, 0
  {
    if nodes != [] {
      var first := nodes[0];
      ChildIsBelow(tasks, rank, a, first.task);
      TreeNoRepeats(tasks, rank, first.task, first.children);
      forall i, j | 0 <= i < j < |nodes| - 1 ensures Roots(nodes[1..])[i] != Roots(nodes[1..])[j] {
        assert Roots(nodes)[i + 1] != Roots(nodes)[j + 1];
      }
      ForestNoRepeats(tasks, rank, a, nodes[1..]);
      forall t | t in Flatten(first.children) ensures t != first.task {
        FlattenInTasks(tasks, first.task.id, first.children, t);
        var ancestors := LineageExists(tasks, rank, t);
        DescendantHasAncestor(tasks, rank, first.task, first.children, t, ancestors);
        AncestorsAreAbove(tasks, rank, t, ancestors);
      }
      JoinNoRepeats([first.task], Flatten(first.children));
      var mine := [first.task] + Flatten(first.children);
      forall t | t in mine ensures t !in Flatten(nodes[1..]) {
        if t in Flatten(nodes[1..]) {
          FlattenHas(nodes[1..], t);
          var k :| 0 <= k < |nodes[1..]| && (t == nodes[1..][k].task || t in Flatten(nodes[1..][k].children));
          SubtreesMeetOnlyAtOne(tasks, rank, a, first, nodes[k + 1], t);
          assert false;
        }
      }
      JoinNoRepeats(mine, Flatten(nodes[1..]));
    }
  }

  lemma LeadsTo(tasks: seq<Task>, rank: string -> nat, node: Node, t: Task, ancestors: seq<Task>)
    requires Valid(tasks) && Ranked(tasks, rank) && node.task in tasks
    requires IsTree(tasks, node.task.id, node.children) && (t == node.task || t in Flatten(node.children))
    requires IsLineage(tasks, t, ancestors)
    ensures node.task == t || node.task in ancestors
  {
    if t in Flatten(node.children) {
      DescendantHasAncestor(tasks, rank, node.task, node.children, t, ancestors);
    }
  }

  /** Two of a task's children with a common task below them are the same child. */
  lemma SubtreesMeetOnlyAtOne(tasks: seq<Task>, rank: string -> nat, a: Task, c: Node, d: Node, t: Task)
    requires Valid(tasks) && Ranked(tasks, rank) && a in tasks
    requires c.task in Children(tasks, a.id) && IsTree(tasks, c.task.id, c.children) && (t == c.task || t in Flatten(c.children))
    requires d.task in Children(tasks, a.id) && IsTree(tasks, d.task.id, d.children) && (t == d.task || t in Flatten(d.children))
    ensures c.task == d.task
  {
    if t != c.task { FlattenInTasks(tasks, c.task.id, c.children, t); }
    var ancestors := LineageExists(tasks, rank, t);
    LeadsTo(tasks, rank, c, t, ancestors);
    LeadsTo(tasks, rank, d, t, ancestors);
    ChildIsBelow(tasks, rank, a, c.task);
    ChildIsBelow(tasks, rank, a, d.task);
    OneWayDown(tasks, rank, t, ancestors, a, c.task, d.task);
  }

  /** The report of a task's descendants names each of them exactly once. */
  lemma {:induction false} TreeNoRepeats(tasks: seq<Task>, rank: string -> nat, a: Task, nodes: seq<Node>)
    requires Valid(tasks) && Ranked(tasks, rank) && a in tasks && IsTree(tasks, a.id, nodes)
    ensures NoRepeats(Flatten(nodes))
    decreases nodes, 1
  {
    ChildrenNoRepeats(tasks, a.id);
    assert forall i :: 0 <= i < |nodes| ==> Roots(nodes)[i] in Children(tasks, a.id);
    ForestNoRepeats(tasks, rank, a, nodes);
  }

  // ---------------------------------------------------------------- when the walk ends

  ghost predicate EveryWalkEnds(tasks: seq<Task>) {
    forall t :: t in tasks ==> exists ancestors :: IsLineage(tasks, t, ancestors)
  }

  ghost function Depth(tasks: seq<Task>, id: string): nat {
    if exists t, ancestors :: t in tasks && t.id == id && IsLineage(tasks, t, ancestors) then
      var t, ancestors :| t in tasks && t.id == id && IsLineage(tasks, t, ancestors);
      |ancestors|
    else 0
  }

  lemma DepthIsLength(tasks: seq<Task>, t: Task, ancestors: seq<Task>)
    requires Valid(tasks) && t in tasks && IsLineage(tasks, t, ancestors)
    ensures Depth(tasks, t.id) == |ancestors|
  {
    var t', other :| t' in tasks && t'.id == t.id && IsLineage(tasks, t', other) && Depth(tasks, t.id) == |other|;
    var i :| 0 <= i < |tasks| && tasks[i] == t;
    var j :| 0 <= j < |tasks| && tasks[j] == t';
    assert i == j;
    LineageIsUnique(tasks, t, ancestors, other);
  }

  /** The ancestor walk ends for every task if and only if the parent relation has no cycle. */
  lemma WalksEndIffAcyclic(tasks: seq<Task>)
    requires Valid(tasks)
    ensures EveryWalkEnds(tasks) <==> exists rank :: Ranked(tasks, rank)
  {
    if rank :| Ranked(tasks, rank) {
      forall t | t in tasks ensures exists ancestors :: IsLineage(tasks, t, ancestors) {
        var ancestors := LineageExists(tasks, rank, t);
      }
    }
    if EveryWalkEnds(tasks) {
      var rank := id => Depth(tasks, id);
      forall t | t in tasks && Parent(tasks, t).Some? ensures rank(Parent(tasks, t).value.id) < rank(t.id) {
        var ancestors :| IsLineage(tasks, t, ancestors);
        var p := Parent(tasks, t).value;
        DepthIsLength(tasks, t, ancestors);
        DepthIsLength(tasks, p, ancestors[..|ancestors| - 1]);
      }
      assert Ranked(tasks, rank);
    }
  }
}
