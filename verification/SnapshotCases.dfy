/** Runs in which a placeholder hides a removed node from the snapshot, or keeps a node out of
    the zone tree (internal/cache/cache.go). */
module SnapshotCases {
  import opened Api
  import opened NodeTrees
  import opened Sequences
  import opened CacheModel
  import opened Snapshots
  import opened SnapshotRuns
  import opened CacheCases
  import opened SnapshotLists
  import CacheInvariants

  /** A node is added, a snapshot taken, the node removed and a pod assumed on another name
      before the next snapshot. */
  predicate HidingRun(events: seq<Event>, node: Node, q: Pod) {
    && |events| == 5 && events[0] == CacheStep(NodeAdded(node)) && events[1] == SnapshotTaken({})
    && events[2] == CacheStep(NodeRemoved(node)) && events[3] == CacheStep(Assume(q)) && events[4] == SnapshotTaken({})
  }

  lemma FirstUpdate(y: System, node: Node)
    requires SystemOk(y) && y.snap.infos == map[] && y.cache.nodes.Keys == {node.name} && Backed(y.cache, node.name)
    ensures Deletable(y.cache, NewerWalk(y.cache, y.snap).infos, {})
    ensures UpdateSnapshot(y.cache, y.snap, {}).1.infos.Keys == {node.name}
    ensures UpdateSnapshot(y.cache, y.snap, {}).0.nodes == y.cache.nodes
    ensures UpdateSnapshot(y.cache, y.snap, {}).0.podStates == y.cache.podStates
  {
    var w := NewerWalk(y.cache, y.snap).infos;
    WalkKeys(y.cache, y.snap);
    assert NamedNodes(y.cache) == {node.name};
    assert w.Keys == {node.name} && |w| == |w.Keys|;
    assert |y.cache.nodes| == |y.cache.nodes.Keys|;
    UpdatedKeys(y.cache, y.snap, {});
    UpdateMap(y.cache, y.snap, {});
  }

  /** With one placeholder and one name too many the sizes agree, and nothing is deleted. */
  lemma SecondUpdate(y: System, name: string, other: string)
    requires SystemOk(y) && y.snap.infos.Keys == {name} && y.cache.nodes.Keys == {other} && !Backed(y.cache, other)
    ensures Deletable(y.cache, NewerWalk(y.cache, y.snap).infos, {})
    ensures UpdateSnapshot(y.cache, y.snap, {}).1.infos.Keys == {name}
  {
    var w := NewerWalk(y.cache, y.snap).infos;
    WalkKeys(y.cache, y.snap);
    assert NamedNodes(y.cache) == {};
    assert w.Keys == {name} && |w| == |w.Keys|;
    assert |y.cache.nodes| == |y.cache.nodes.Keys|;
    UpdatedKeys(y.cache, y.snap, {});
  }

  lemma RunStepIs(events: seq<Event>, n: nat, ttl: int)
    requires n < |events|
    ensures SystemRun(events, n + 1, ttl) == React(SystemRun(events, n, ttl), events[n], ttl)
    ensures Legal(events, n, ttl) && Admissible(SystemRun(events, n, ttl), events[n]) ==> Legal(events, n + 1, ttl)
  {
  }

  lemma Started(events: seq<Event>, node: Node, q: Pod, ttl: int)
    requires HidingRun(events, node, q)
    ensures Legal(events, 1, ttl)
    ensures var y := SystemRun(events, 1, ttl);
            y.snap.infos == map[] && y.cache.nodes.Keys == {node.name} && Backed(y.cache, node.name) &&
              y.cache.podStates == map[]
  {
    var n := 0;
    assert Legal(events, n, ttl);
    RunStepIs(events, n, ttl);
    NodeAddedLeaves(SystemRun(events, n, ttl).cache, node);
  }

  lemma Snapped(events: seq<Event>, node: Node, q: Pod, ttl: int)
    requires HidingRun(events, node, q)
    ensures Legal(events, 2, ttl)
    ensures var y := SystemRun(events, 2, ttl);
            y.snap.infos.Keys == {node.name} && y.cache.nodes.Keys == {node.name} && y.cache.podStates == map[]
  {
    Started(events, node, q, ttl);
    RunOk(events, 1, ttl);
    FirstUpdate(SystemRun(events, 1, ttl), node);
    RunStepIs(events, 1, ttl);
  }

  lemma ReplacedStates(s: CacheState, t: CacheState, u: CacheState, node: Node, q: Pod)
    requires s.nodes.Keys == {node.name} && s.podStates == map[] && q.uid != "" && q.nodeName != node.name
    requires t == RemoveNode(s, node).0 && u == AssumePod(t, q).0
    ensures u.nodes.Keys == {q.nodeName} && !Backed(u, q.nodeName)
  {
    NodeRemovedLeaves(s, node);
    AssumeLeaves(t, q);
    assert t.nodes.Keys == {};
  }

  lemma CacheStepIs(events: seq<Event>, n: nat, ttl: int, op: Op)
    requires n < |events| && events[n] == CacheStep(op)
    ensures SystemRun(events, n + 1, ttl) ==
            SystemRun(events, n, ttl).(cache := Step(SystemRun(events, n, ttl).cache, op, ttl).0)
  {
    RunStepIs(events, n, ttl);
  }

  lemma RemoveStepIs(events: seq<Event>, n: nat, ttl: int, node: Node)
    requires n < |events| && events[n] == CacheStep(NodeRemoved(node))
    ensures SystemRun(events, n + 1, ttl).cache == RemoveNode(SystemRun(events, n, ttl).cache, node).0
    ensures SystemRun(events, n + 1, ttl).snap == SystemRun(events, n, ttl).snap
  {
    CacheStepIs(events, n, ttl, NodeRemoved(node));
  }

  lemma AssumeStepIs(events: seq<Event>, n: nat, ttl: int, q: Pod)
    requires n < |events| && events[n] == CacheStep(Assume(q))
    ensures SystemRun(events, n + 1, ttl).cache == AssumePod(SystemRun(events, n, ttl).cache, q).0
    ensures SystemRun(events, n + 1, ttl).snap == SystemRun(events, n, ttl).snap
  {
    CacheStepIs(events, n, ttl, Assume(q));
  }

  lemma ReplacedLegal(events: seq<Event>, node: Node, q: Pod, ttl: int)
    requires HidingRun(events, node, q) && Legal(events, 2, ttl)
    ensures Legal(events, 4, ttl)
  {
    RunStepIs(events, 2, ttl);
    RunStepIs(events, 3, ttl);
  }

  lemma Replaced(events: seq<Event>, node: Node, q: Pod, ttl: int)
    requires HidingRun(events, node, q) && q.uid != "" && q.nodeName != node.name
    ensures Legal(events, 4, ttl)
    ensures var y := SystemRun(events, 4, ttl);
            y.snap.infos.Keys == {node.name} && y.cache.nodes.Keys == {q.nodeName} && !Backed(y.cache, q.nodeName)
  {
    Snapped(events, node, q, ttl);
    ReplacedLegal(events, node, q, ttl);
    RemoveStepIs(events, 2, ttl, node);
    AssumeStepIs(events, 3, ttl, q);
    var x, y, z := SystemRun(events, 2, ttl), SystemRun(events, 3, ttl), SystemRun(events, 4, ttl);
    ReplacedStates(x.cache, y.cache, z.cache, node, q);
  }

  /** The snapshot keeps the removed node, although every event is admissible. */
  lemma RemovedNodeStays(events: seq<Event>, node: Node, q: Pod, ttl: int)
    requires HidingRun(events, node, q) && q == SmallPod(q.uid, q.nodeName) && q.uid != "" && q.nodeName != node.name
    ensures Legal(events, 5, ttl)
    ensures node.name in SystemRun(events, 5, ttl).snap.infos && node.name !in SystemRun(events, 5, ttl).cache.nodes
  {
    Replaced(events, node, q, ttl);
    RunOk(events, 4, ttl);
    var y := SystemRun(events, 4, ttl);
    SecondUpdate(y, node.name, q.nodeName);
    RunStepIs(events, 4, ttl);
    UpdateMap(y.cache, y.snap, {});
    assert node.name in UpdateSnapshot(y.cache, y.snap, {}).1.infos.Keys;
  }

  // ---- a node that never joins the tree ----

  /** The cache has the node and the tree has it in no zone. */
  ghost predicate LeftOut(s: CacheState, n: string) { Backed(s, n) && forall z :: !HasNode(s.tree, z, n) }

  /** An operation other than an addition or a removal of the node, or an update of it that
      changes its zone. */
  predicate Bypasses(op: Op, n: string) {
    match op
    case NodeAdded(node) => node.name != n
    case NodeUpdated(oldNode, newNode) => newNode.name != n || oldNode.zone == newNode.zone
    case NodeRemoved(node) => node.name != n
    case _ => true
  }

  lemma AddedOther(t: TreeView, zone: string, name: string, z: string, n: string)
    requires name != n && !HasNode(t, z, n)
    ensures !HasNode(AddedNode(t, zone, name), z, n)
  {
  }

  lemma RemovedOther(t: TreeView, zone: string, name: string, z: string, n: string)
    requires !HasNode(t, z, n)
    ensures !HasNode(RemovedNode(t, zone, name), z, n)
  {
    if HasNode(t, zone, name) {
      var nodes := t.tree[zone].nodes;
      assert forall x :: x in Without(nodes, name) ==> x in nodes;
    }
  }

  lemma UpdateLeavesOut(s: CacheState, oldNode: Node, newNode: Node, n: string)
    requires LeftOut(s, n) && Bypasses(NodeUpdated(oldNode, newNode), n)
    ensures LeftOut(UpdateNode(s, oldNode, newNode).0, n)
  {
    NodeSetNodes(s, newNode, n);
    var t := Rezoned(s.tree, newNode.name in s.nodes, oldNode, newNode);
    if newNode.name != n {
      forall z
        ensures !HasNode(t, z, n)
      {
        AddedOther(s.tree, newNode.zone, newNode.name, z, n);
        var u := if newNode.name in s.nodes then s.tree else AddedNode(s.tree, newNode.zone, newNode.name);
        RemovedOther(u, oldNode.zone, oldNode.name, z, n);
        AddedOther(RemovedNode(u, oldNode.zone, oldNode.name), newNode.zone, newNode.name, z, n);
      }
    }
  }

  lemma StepLeavesOut(s: CacheState, op: Op, ttl: int, n: string)
    requires LeftOut(s, n) && Bypasses(op, n)
    ensures LeftOut(Step(s, op, ttl).0, n)
  {
    match op {
      case NodeAdded(node) =>
        NodeSetNodes(s, node, n);
        forall z {
          AddedOther(s.tree, node.zone, node.name, z, n);
        }
      case NodeUpdated(oldNode, newNode) =>
        UpdateLeavesOut(s, oldNode, newNode, n);
      case NodeRemoved(node) =>
        forall z {
          RemovedOther(s.tree, node.zone, node.name, z, n);
        }
      case _ =>
        PodStepNodes(s, op, ttl);
    }
  }

  lemma {:induction false} RunLeavesOut(ops: seq<Op>, a: nat, b: nat, ttl: int, n: string)
    requires a <= b <= |ops| && LeftOut(Run(ops, a, ttl), n)
    requires forall k :: a <= k < b ==> Bypasses(ops[k], n)
    ensures LeftOut(Run(ops, b, ttl), n)
  {
    if a < b {
      RunLeavesOut(ops, a, b - 1, ttl, n);
      StepLeavesOut(Run(ops, b - 1, ttl), ops[b - 1], ttl, n);
    }
  }

  /** A pod comes before its node, and the node is first seen by an update that keeps the
      zone: it is cached but in no zone of the tree, and stays so however often it is updated
      in its zone. */
  lemma PlaceholderNeverJoins(ops: seq<Op>, pod: Pod, node: Node, b: nat, ttl: int)
    requires pod.uid != "" && pod.nodeName == node.name && 2 <= b <= |ops|
    requires ops[0] == Assume(pod) && ops[1] == NodeUpdated(node, node)
    requires forall k :: 2 <= k < b ==> Bypasses(ops[k], node.name)
    ensures LeftOut(Run(ops, b, ttl), node.name)
  {
    var ss := RunStates(ops, ttl);
    StatesStart(ops, ttl, ss);
    StatesStep(ops, ttl, ss, 0);
    StatesStep(ops, ttl, ss, 1);
    AssumeLeaves(ss[0], pod);
    PodStepNodes(ss[0], ops[0], ttl);
    CacheInvariants.RunTreeValid(ops, 0, ttl);
    NodeSetNodes(ss[1], node, node.name);
    assert ss[2] == UpdateNode(ss[1], node, node).0;
    RunLeavesOut(ops, 2, b, ttl, node.name);
  }
}
