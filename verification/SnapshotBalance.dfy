/** When the cursors of the zones stay balanced over whole runs, so that every update of the
    snapshot is exact (internal/cache/cache.go, internal/cache/node_tree.go). */
module SnapshotBalance {
  import opened Api
  import opened NodeTrees
  import opened RoundRobin
  import opened Sequences
  import opened CacheModel
  import opened Snapshots
  import opened SnapshotRuns
  import opened SnapshotLists

  /** The tree may take the node: it has it, or the node comes in turn. */
  predicate InTurn(t: TreeView, zone: string, name: string)
    requires forall i :: 0 <= i < |t.zones| ==> t.zones[i] in t.tree
  {
    HasNode(t, zone, name) || KeepsBalance(t, zone)
  }

  lemma AddedInTurnIff(t: TreeView, zone: string, name: string)
    requires TreeValid(t) && Balanced(RowsOf(t))
    ensures TreeValid(AddedNode(t, zone, name))
    ensures Balanced(RowsOf(AddedNode(t, zone, name))) <==> InTurn(t, zone, name)
  {
    if !HasNode(t, zone, name) {
      AddingKeepsBalanceIff(t, zone, name);
    }
  }

  /** The condition on a node event in terms of the tree before it. A change of zone takes the
      node out of the old zone first. */
  ghost predicate ComesInTurn(s: CacheState, op: Op)
    requires TreeValid(s.tree)
  {
    match op
    case NodeAdded(node) => InTurn(s.tree, node.zone, node.name)
    case NodeUpdated(oldNode, newNode) =>
      if oldNode.zone == newNode.zone
      then newNode.name in s.nodes || InTurn(s.tree, newNode.zone, newNode.name)
      else
        RemovedNodeValid(s.tree, oldNode.zone, oldNode.name);
        InTurn(RemovedNode(s.tree, oldNode.zone, oldNode.name), newNode.zone, newNode.name)
    case _ => true
  }

  lemma WithoutAppend<T>(s: seq<T>, x: T, y: T)
    requires x in s
    ensures Without(s + [y], x) == Without(s, x) + [y]
  {
    var i := IndexOf(s, x, 0);
    IndexOfAppend(s, x, y, 0);
    assert (s + [y])[..i] == s[..i] && (s + [y])[i + 1..] == s[i + 1..] + [y];
  }

  lemma {:induction false} IndexOfAppend<T>(s: seq<T>, x: T, y: T, from: nat)
    requires from <= |s| && x in s[from..]
    ensures IndexOf(s + [y], x, from) == IndexOf(s, x, from) < |s|
    decreases |s| - from
  {
    if s[from] != x {
      IndexOfAppend(s, x, y, from + 1);
    }
  }

  /** Edits of different zones commute. */
  lemma EditsCommute(t: TreeView, a: string, x: string, b: string, y: string)
    requires TreeShape(t) && a != b && HasNode(t, a, x) && !HasNode(t, b, y)
    ensures RemovedNode(AddedNode(t, b, y), a, x) == AddedNode(RemovedNode(t, a, x), b, y)
  {
    var left := Without(t.tree[a].nodes, x);
    if b in t.tree {
      var w := t.tree[b].(nodes := t.tree[b].nodes + [y]);
      assert AddedNode(t, b, y).tree == t.tree[b := w];
      assert t.tree[b := w] - {a} == (t.tree - {a})[b := w];
      assert t.tree[b := w][a := t.tree[a].(nodes := left)] == t.tree[a := t.tree[a].(nodes := left)][b := w];
    } else {
      var w := ZoneView([y], 0);
      assert t.tree[b := w] - {a} == (t.tree - {a})[b := w];
      assert t.tree[b := w][a := t.tree[a].(nodes := left)] == t.tree[a := t.tree[a].(nodes := left)][b := w];
      WithoutAppend(t.zones, a, b);
    }
  }

  /** That an unknown node is added before the other is taken out makes no difference. */
  lemma RezonedIs(t: TreeView, known: bool, oldNode: Node, newNode: Node)
    requires TreeShape(t) && oldNode.zone != newNode.zone
    ensures Rezoned(t, known, oldNode, newNode)
      == AddedNode(RemovedNode(t, oldNode.zone, oldNode.name), newNode.zone, newNode.name)
  {
    if !known && HasNode(t, oldNode.zone, oldNode.name) && !HasNode(t, newNode.zone, newNode.name) {
      EditsCommute(t, oldNode.zone, oldNode.name, newNode.zone, newNode.name);
    }
    AddedTwice(RemovedNode(t, oldNode.zone, oldNode.name), newNode.zone, newNode.name);
    AddedTwice(t, newNode.zone, newNode.name);
  }

  lemma AddedTwice(t: TreeView, zone: string, name: string)
    ensures HasNode(AddedNode(t, zone, name), zone, name)
    ensures HasNode(t, zone, name) ==> AddedNode(t, zone, name) == t
  {
  }

  lemma RezonedBalanceIff(s: CacheState, oldNode: Node, newNode: Node)
    requires TreeValid(s.tree) && Balanced(RowsOf(s.tree))
    ensures var t := Rezoned(s.tree, newNode.name in s.nodes, oldNode, newNode);
            TreeValid(t) && (Balanced(RowsOf(t)) <==> ComesInTurn(s, NodeUpdated(oldNode, newNode)))
  {
    if oldNode.zone == newNode.zone {
      AddedInTurnIff(s.tree, newNode.zone, newNode.name);
    } else {
      RezonedIs(s.tree, newNode.name in s.nodes, oldNode, newNode);
      RemovingKeepsBalance(s.tree, oldNode.zone, oldNode.name);
      AddedInTurnIff(RemovedNode(s.tree, oldNode.zone, oldNode.name), newNode.zone, newNode.name);
    }
  }

  /** An operation keeps balanced cursors balanced if and only if the node that it may add
      comes in turn. */
  lemma StepBalanceIff(s: CacheState, op: Op, ttl: int)
    requires TreeValid(s.tree) && Balanced(RowsOf(s.tree))
    ensures TreeValid(CacheModel.Step(s, op, ttl).0.tree)
    ensures Balanced(RowsOf(CacheModel.Step(s, op, ttl).0.tree)) <==> ComesInTurn(s, op)
  {
    match op {
      case NodeAdded(node) =>
        AddedInTurnIff(s.tree, node.zone, node.name);
      case NodeUpdated(oldNode, newNode) =>
        RezonedBalanceIff(s, oldNode, newNode);
      case NodeRemoved(node) =>
        RemovingKeepsBalance(s.tree, node.zone, node.name);
      case _ =>
        PodStepNodes(s, op, ttl);
    }
  }

  // ---- whole runs ----

  /** An admissible event that keeps the tree in step and adds nodes in turn; a snapshot is
      taken when no entry is a placeholder. */
  ghost predicate Tidy(y: System, e: Event)
    requires TreeValid(y.cache.tree)
  {
    && Admissible(y, e)
    && match e
       case CacheStep(op) => NodeEventOk(y.cache, op) && ComesInTurn(y.cache, op)
       case SnapshotTaken(deleted) => AllBacked(y.cache)
  }

  ghost predicate AllTidy(events: seq<Event>, n: nat, ttl: int)
    requires n <= |events|
  {
    n > 0 ==>
      && AllTidy(events, n - 1, ttl)
      && TreeValid(SystemRun(events, n - 1, ttl).cache.tree)
      && Tidy(SystemRun(events, n - 1, ttl), events[n - 1])
  }

  /** What a tidy run keeps. */
  ghost predicate InStep(y: System) { ExactOk(y) && Balanced(RowsOf(y.cache.tree)) }

  lemma TidyReact(y: System, e: Event, ttl: int)
    requires InStep(y) && Tidy(y, e)
    ensures Orderly(y, e) && InStep(React(y, e, ttl))
  {
    ReactExact(y, e, ttl);
    match e {
      case CacheStep(op) => StepBalanceIff(y.cache, op, ttl);
      case SnapshotTaken(deleted) => UpdateIsExact(y.cache, y.snap, deleted);
    }
  }

  /** If nodes are only added in turn the cursors are balanced whenever a snapshot is taken,
      so each update is exact. */
  lemma {:induction false} TidyIsOrderly(events: seq<Event>, n: nat, ttl: int)
    requires n <= |events| && AllTidy(events, n, ttl)
    ensures AllOrderly(events, n, ttl) && InStep(SystemRun(events, n, ttl))
  {
    if n == 0 {
      RunExact(events, 0, ttl);
      assert RowsOf(SystemRun(events, 0, ttl).cache.tree) == [];
    } else {
      TidyIsOrderly(events, n - 1, ttl);
      TidyReact(SystemRun(events, n - 1, ttl), events[n - 1], ttl);
    }
  }

  /** In every tidy run each update reports no error and leaves the snapshot equal to the
      cache. */
  lemma EveryTidyUpdateIsExact(events: seq<Event>, n: nat, ttl: int)
    requires 0 < n <= |events| && AllTidy(events, n, ttl) && events[n - 1].SnapshotTaken?
    ensures var y := SystemRun(events, n - 1, ttl);
            UpdateSnapshot(y.cache, y.snap, events[n - 1].deleted).2
    ensures Equals(SystemRun(events, n, ttl).cache, SystemRun(events, n, ttl).snap)
  {
    TidyIsOrderly(events, n, ttl);
    EveryUpdateIsExact(events, n, ttl);
  }
}
