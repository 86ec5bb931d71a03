/** When the zone tree agrees with the cached nodes, and when the node list of a snapshot
    holds every node exactly once (internal/cache/cache.go, internal/cache/node_tree.go). */
module SnapshotLists {
  import opened Api
  import opened NodeInfos
  import opened NodeTrees
  import opened Sequences
  import opened CacheModel
  import opened Snapshots
  import opened SnapshotRuns

  /** The cached nodes with their zones. */
  ghost function Located(s: CacheState): set<(string, string)> {
    set n | n in s.nodes && Backed(s, n) :: (s.nodes[n].node.value.zone, n)
  }

  /** The tree holds exactly the cached nodes, each under its zone. */
  ghost predicate TreeMatches(s: CacheState) { TreeValid(s.tree) && Members(s.tree) == Located(s) }

  // ---- which events keep the tree in step ----

  /** A node event names the cached zone of the node. An update of an entry that has no
      node yet has to change the zone, for otherwise the tree is not told. */
  predicate NodeEventOk(s: CacheState, op: Op) {
    match op
    case NodeAdded(node) => Backed(s, node.name) ==> s.nodes[node.name].node.value.zone == node.zone
    case NodeRemoved(node) => Backed(s, node.name) ==> s.nodes[node.name].node.value.zone == node.zone
    case NodeUpdated(oldNode, newNode) =>
      && oldNode.name == newNode.name
      && (Backed(s, newNode.name) ==> s.nodes[newNode.name].node.value.zone == oldNode.zone)
      && (newNode.name in s.nodes && !Backed(s, newNode.name) ==> oldNode.zone != newNode.zone)
    case _ => true
  }

  lemma LocatedIs(s: CacheState, zone: string, n: string)
    ensures (zone, n) in Located(s) <==> Backed(s, n) && s.nodes[n].node.value.zone == zone
  {
  }

  /** Entries keep their nodes. */
  ghost predicate SameNodes(s: CacheState, t: CacheState) {
    && t.tree == s.tree
    && (forall n :: Backed(t, n) <==> Backed(s, n))
    && (forall n :: Backed(t, n) && Backed(s, n) ==> t.nodes[n].node == s.nodes[n].node)
  }

  lemma SameNodesMatch(s: CacheState, t: CacheState)
    requires TreeMatches(s) && SameNodes(s, t)
    ensures TreeMatches(t)
  {
    assert Located(t) == Located(s);
  }

  lemma PodAddedNodes(s: CacheState, pod: Pod)
    ensures SameNodes(s, PodAdded(s, pod))
  {
    AddKeepsNode(EntryOf(s, pod.nodeName), pod, EntryGeneration(s, pod.nodeName) + 1);
    AddedIsTouch(s, pod);
  }

  lemma PodRemovedNodes(s: CacheState, pod: Pod)
    ensures SameNodes(s, PodRemoved(s, pod).0)
  {
    if pod.nodeName in s.nodes {
      RemoveKeepsNode(s.nodes[pod.nodeName], pod, s.generation + 1);
    }
  }

  lemma PodMovedNodes(s: CacheState, held: Pod, pod: Pod)
    ensures SameNodes(s, PodMoved(s, held, pod).0) && SameNodes(s, PodReplaced(s, held, pod).0)
  {
    PodRemovedNodes(s, held);
    PodAddedNodes(PodRemoved(s, held).0, pod);
  }

  lemma ExpireNodes(s: CacheState, key: string, now: int)
    ensures SameNodes(s, Expire(s, key, now).0)
  {
    if key in s.podStates {
      PodRemovedNodes(s, s.podStates[key].pod);
    }
  }

  lemma {:induction false} CleanupNodes(s: CacheState, now: int, keys: seq<string>, n: nat)
    requires n <= |keys|
    ensures SameNodes(s, Cleanup(s, now, keys, n).0)
  {
    if n > 0 {
      CleanupNodes(s, now, keys, n - 1);
      ExpireNodes(Cleanup(s, now, keys, n - 1).0, keys[n - 1], now);
    }
  }

  lemma NodeSetNodes(s: CacheState, node: Node, n: string)
    ensures NodeSet(s, node).tree == s.tree
    ensures Backed(NodeSet(s, node), n) <==> n == node.name || Backed(s, n)
    ensures Backed(NodeSet(s, node), n) ==>
      NodeSet(s, node).nodes[n].node == if n == node.name then Some(node) else s.nodes[n].node
  {
  }

  lemma NodeSetLocated(s: CacheState, node: Node)
    ensures Located(NodeSet(s, node)) == (set m | m in Located(s) && m.1 != node.name) + {(node.zone, node.name)}
  {
    forall z, n
      ensures (z, n) in Located(NodeSet(s, node)) <==>
        (n == node.name && z == node.zone) || (n != node.name && (z, n) in Located(s))
    {
      NodeSetNodes(s, node, n);
      LocatedIs(s, z, n);
      LocatedIs(NodeSet(s, node), z, n);
    }
  }

  /** Leaving out a name leaves out its one pair. */
  lemma OtherNames<Z, N>(l: set<(Z, N)>, z: Z, n: N)
    requires forall m :: m in l && m.1 == n ==> m.0 == z
    ensures (set m | m in l && m.1 != n) == l - {(z, n)}
  {
  }

  lemma ZoneOf(s: CacheState, zone: string, n: string)
    requires Backed(s, n) ==> s.nodes[n].node.value.zone == zone
    ensures forall m :: m in Located(s) && m.1 == n ==> m.0 == zone
    ensures Backed(s, n) <==> (zone, n) in Located(s)
  {
    LocatedIs(s, zone, n);
  }

  lemma NodeAddedMatches(s: CacheState, node: Node)
    requires TreeMatches(s) && NodeEventOk(s, NodeAdded(node))
    ensures TreeMatches(AddNode(s, node).0)
  {
    var t, l, m := AddNode(s, node).0, Located(s), (node.zone, node.name);
    ZoneOf(s, node.zone, node.name);
    OtherNames(l, node.zone, node.name);
    NodeSetLocated(s, node);
    assert Located(t) == l - {m} + {m} by {
      assert Located(t) == Located(NodeSet(s, node));
    }
    AddBack(l, m);
    AddedNodeValid(s.tree, node.zone, node.name);
  }

  lemma AddBack<T>(l: set<T>, x: T)
    ensures (l - {x}) + {x} == l + {x}
  {
  }

  lemma NodeRemovedMatches(s: CacheState, node: Node)
    requires TreeMatches(s) && NodeEventOk(s, NodeRemoved(node))
    ensures TreeMatches(RemoveNode(s, node).0)
  {
    if node.name in s.nodes {
      RemovedNodeValid(s.tree, node.zone, node.name);
      NodeRemovedLocated(s, RemoveNode(s, node).0, node);
    }
  }

  lemma NodeRemovedLocated(s: CacheState, t: CacheState, node: Node)
    requires NodeEventOk(s, NodeRemoved(node)) && t.nodes == s.nodes - {node.name}
    ensures Located(t) == Located(s) - {(node.zone, node.name)}
  {
    forall z, n
      ensures (z, n) in Located(t) <==> (z, n) in Located(s) && (z, n) != (node.zone, node.name)
    {
      LocatedIs(s, z, n);
      LocatedIs(t, z, n);
    }
  }

  /** A change of zone moves the node in the tree. */
  lemma RezonedMoves(t: TreeView, known: bool, oldNode: Node, newNode: Node)
    requires TreeValid(t) && oldNode.name == newNode.name && oldNode.zone != newNode.zone
    ensures TreeValid(Rezoned(t, known, oldNode, newNode))
    ensures Members(Rezoned(t, known, oldNode, newNode)) ==
            Members(t) - {(oldNode.zone, oldNode.name)} + {(newNode.zone, newNode.name)}
  {
    var a, b := (oldNode.zone, oldNode.name), (newNode.zone, newNode.name);
    AddedNodeValid(t, newNode.zone, newNode.name);
    var u := if known then t else AddedNode(t, newNode.zone, newNode.name);
    RemovedNodeValid(u, oldNode.zone, oldNode.name);
    AddedNodeValid(RemovedNode(u, oldNode.zone, oldNode.name), newNode.zone, newNode.name);
    AddTwice(Members(t), a, b);
  }

  lemma AddTwice<T>(l: set<T>, a: T, b: T)
    ensures a != b ==> (l + {b}) - {a} + {b} == l - {a} + {b}
  {
  }

  lemma RezonedStays(t: TreeView, known: bool, oldNode: Node, newNode: Node)
    requires TreeValid(t) && oldNode.name == newNode.name && oldNode.zone == newNode.zone
    ensures TreeValid(Rezoned(t, known, oldNode, newNode))
    ensures Members(Rezoned(t, known, oldNode, newNode)) ==
            if known then Members(t) else Members(t) + {(newNode.zone, newNode.name)}
  {
    AddedNodeValid(t, newNode.zone, newNode.name);
  }

  lemma NodeUpdatedMatches(s: CacheState, oldNode: Node, newNode: Node)
    requires TreeMatches(s) && NodeEventOk(s, NodeUpdated(oldNode, newNode))
    ensures TreeMatches(UpdateNode(s, oldNode, newNode).0)
  {
    var t, n, l := UpdateNode(s, oldNode, newNode).0, newNode.name, Located(s);
    var known := n in s.nodes;
    ZoneOf(s, oldNode.zone, n);
    OtherNames(l, oldNode.zone, n);
    NodeSetLocated(s, newNode);
    assert Located(t) == l - {(oldNode.zone, n)} + {(newNode.zone, n)} by {
      assert Located(t) == Located(NodeSet(s, newNode));
    }
    if oldNode.zone == newNode.zone {
      RezonedStays(s.tree, known, oldNode, newNode);
      AddBack(l, (newNode.zone, n));
      assert known ==> l + {(newNode.zone, n)} == l;
    } else {
      RezonedMoves(s.tree, known, oldNode, newNode);
    }
  }

  /** An update that gives an entry its first node without a change of zone is the one that
      leaves the tree behind. */
  lemma PlaceholderUpdateIff(s: CacheState, oldNode: Node, newNode: Node)
    requires TreeMatches(s) && oldNode.name == newNode.name
    requires newNode.name in s.nodes && !Backed(s, newNode.name)
    ensures TreeMatches(UpdateNode(s, oldNode, newNode).0) <==> oldNode.zone != newNode.zone
  {
    if oldNode.zone != newNode.zone {
      NodeUpdatedMatches(s, oldNode, newNode);
    } else {
      var t, n := UpdateNode(s, oldNode, newNode).0, newNode.name;
      RezonedStays(s.tree, true, oldNode, newNode);
      NodeSetNodes(s, newNode, n);
      LocatedIs(t, newNode.zone, n);
      LocatedIs(s, newNode.zone, n);
    }
  }

  /** Every step whose node events are in order keeps the tree in step with the nodes. */
  lemma StepMatches(s: CacheState, op: Op, ttl: int)
    requires TreeMatches(s) && NodeEventOk(s, op)
    ensures TreeMatches(Step(s, op, ttl).0)
  {
    match op {
      case NodeAdded(node) => NodeAddedMatches(s, node);
      case NodeUpdated(oldNode, newNode) => NodeUpdatedMatches(s, oldNode, newNode);
      case NodeRemoved(node) => NodeRemovedMatches(s, node);
      case _ =>
        PodStepNodes(s, op, ttl);
        SameNodesMatch(s, Step(s, op, ttl).0);
    }
  }

  lemma ConfirmNodes(s: CacheState, pod: Pod)
    ensures SameNodes(s, AddPod(s, pod).0)
  {
    if Assumed(s, pod.uid) {
      PodMovedNodes(s, s.podStates[pod.uid].pod, pod);
    } else {
      PodAddedNodes(s, pod);
    }
  }

  lemma DeleteNodes(s: CacheState, pod: Pod)
    ensures SameNodes(s, RemovePod(s, pod).0)
  {
    if pod.uid in s.podStates {
      PodRemovedNodes(s, s.podStates[pod.uid].pod);
    }
  }

  lemma ForgetNodes(s: CacheState, pod: Pod)
    ensures SameNodes(s, ForgetPod(s, pod).0)
  {
    PodRemovedNodes(s, pod);
  }

  lemma UpdateNodes(s: CacheState, oldPod: Pod, newPod: Pod)
    ensures SameNodes(s, UpdatePod(s, oldPod, newPod).0)
  {
    PodMovedNodes(s, oldPod, newPod);
  }

  lemma PodStepNodes(s: CacheState, op: Op, ttl: int)
    requires !op.NodeAdded? && !op.NodeUpdated? && !op.NodeRemoved?
    ensures SameNodes(s, Step(s, op, ttl).0)
  {
    match op {
      case Assume(pod) => PodAddedNodes(s, pod);
      case Finish(pod, now) =>
      case Forget(pod) => ForgetNodes(s, pod);
      case Confirm(pod) => ConfirmNodes(s, pod);
      case Update(oldPod, newPod) => UpdateNodes(s, oldPod, newPod);
      case Delete(pod) => DeleteNodes(s, pod);
      case CleanupAt(now, visit) => CleanupNodes(s, now, visit, |visit|);
      case GenerationTaken =>
    }
  }

  // ---- the node list ----

  lemma {:induction false} SizeOfDistinct<T>(s: seq<T>)
    requires NoDuplicates(s)
    ensures |set x | x in s| == |s|
  {
    if s != [] {
      var n := |s| - 1;
      SizeOfDistinct(s[..n]);
      assert s == s[..n] + [s[n]];
      assert (set x | x in s) == (set x | x in s[..n]) + {s[n]};
    }
  }

  lemma {:induction false} PresentAll(infos: map<string, NodeView>, names: seq<string>, k: nat)
    requires k <= |names| && forall i :: 0 <= i < k ==> names[i] in infos
    ensures Present(infos, names, k) == names[..k]
  {
    if k > 0 {
      PresentAll(infos, names, k - 1);
      assert names[..k] == names[..k - 1] + [names[k - 1]];
    }
  }

  /** Every name that the cursor deals out is a name of the tree. */
  lemma DealtNames(t: TreeView)
    requires TreeValid(t)
    ensures |Dealt(t)| == t.numNodes && forall i :: 0 <= i < |Dealt(t)| ==> Dealt(t)[i] in Names(t)
  {
    CountsPositions(t);
    if t.zones == [] {
      assert Members(t) == {};
    }
    forall i | 0 <= i < |Dealt(t)|
      ensures Dealt(t)[i] in Names(t)
    {
      NameIsVisit(t, i);
      NamesOfPositions(t);
    }
  }

  lemma MatchedNames(s: CacheState)
    requires TreeMatches(s)
    ensures PlacedOnce(s.tree) && Names(s.tree) == NamedNodes(s)
  {
    forall n | n in NamedNodes(s)
      ensures n in Names(s.tree)
    {
      assert (s.nodes[n].node.value.zone, n) in Members(s.tree);
    }
  }

  /** No entry is a placeholder. */
  ghost predicate AllBacked(s: CacheState) { NamedNodes(s) == s.nodes.Keys }

  lemma RelistedAll(s: CacheState, q: SnapState)
    requires TreeMatches(s) && NamedNodes(s) <= q.infos.Keys
    ensures Relisted(s.tree, q).list == Dealt(s.tree) && |Dealt(s.tree)| == s.tree.numNodes
  {
    MatchedNames(s);
    DealtNames(s.tree);
    PresentAll(q.infos, Dealt(s.tree), |Dealt(s.tree)|);
    assert Dealt(s.tree)[..|Dealt(s.tree)|] == Dealt(s.tree);
  }

  /** When an update makes the node list anew there is no error, and the list has every
      node exactly once if and only if the cursors of the zones were balanced. */
  lemma NewListIff(s: CacheState, p: SnapState, deleted: set<string>)
    requires Ordered(s) && Faithful(s, p) && TreeMatches(s)
    requires Deletable(s, NewerWalk(s, p).infos, deleted) && UpdateAll(s, p)
    ensures var (t, q, ok) := UpdateSnapshot(s, p, deleted);
            && ok && t.tree == Turned(s.tree)
            && (EachOnce(q.list, NamedNodes(s)) <==> RoundRobin.Balanced(RowsOf(s.tree)))
  {
    NewListCovers(s, p, deleted);
    RelistedAll(s, Remapped(s, p, deleted));
    TurnedSame(s.tree);
    NewListIs(s, p, deleted);
    MatchedNames(s);
    FullPassIsExactIffBalanced(s.tree);
  }

  lemma NewListCovers(s: CacheState, p: SnapState, deleted: set<string>)
    requires Ordered(s) && Faithful(s, p) && Deletable(s, NewerWalk(s, p).infos, deleted)
    ensures NamedNodes(s) <= Remapped(s, p, deleted).infos.Keys
  {
    WalkKeys(s, p);
  }

  lemma NewListIs(s: CacheState, p: SnapState, deleted: set<string>)
    requires UpdateAll(s, p)
    requires |Relisted(s.tree, Remapped(s, p, deleted)).list| == Turned(s.tree).numNodes
    ensures UpdateSnapshot(s, p, deleted) ==
            (s.(tree := Turned(s.tree)), Relisted(s.tree, Remapped(s, p, deleted)), true)
  {
  }

  lemma TurnedSame(t: TreeView)
    requires TreeValid(t)
    ensures SameTree(t, Turned(t)) && Turned(t).numNodes == t.numNodes
  {
    CountsPositions(t);
    if t.zones != [] {
      RunIsRun(t, t.numNodes);
    }
  }

  lemma TurnedMatches(s: CacheState)
    requires TreeMatches(s) && RoundRobin.Balanced(RowsOf(s.tree))
    ensures TreeMatches(s.(tree := Turned(s.tree))) && RoundRobin.Balanced(RowsOf(Turned(s.tree)))
  {
    FullPassKeepsBalance(s.tree);
    SameTreeValid(s.tree, Turned(s.tree));
    assert Located(s.(tree := Turned(s.tree))) == Located(s);
  }

  /** The node list of the snapshot has every entry of its map exactly once. */
  ghost predicate ListExact(p: SnapState) { EachOnce(p.list, p.infos.Keys) }

  lemma BalancedCount(s: CacheState)
    requires TreeMatches(s) && RoundRobin.Balanced(RowsOf(s.tree))
    ensures s.tree.numNodes == |NamedNodes(s)|
  {
    MatchedNames(s);
    FullPassIsExactIffBalanced(s.tree);
    SizeOfDistinct(NamesAfter(s.tree, s.tree.numNodes));
  }

  lemma OldListExact(s: CacheState, p: SnapState, deleted: set<string>)
    requires Ordered(s) && Faithful(s, p) && TreeMatches(s) && AllBacked(s) && ListExact(p)
    requires Deletable(s, NewerWalk(s, p).infos, deleted) && !UpdateAll(s, p)
    requires RoundRobin.Balanced(RowsOf(s.tree))
    ensures var (t, q, ok) := UpdateSnapshot(s, p, deleted); ok && t == s && q.list == p.list
    ensures p.infos.Keys == NamedNodes(s)
  {
    WalkFlags(s, p.infos, Newer(s, p.generation, 0));
    WalkKeys(s, p);
    assert p.infos.Keys == NewerWalk(s, p).infos.Keys;
    SubsetSize(NamedNodes(s), p.infos.Keys);
    BalancedCount(s);
    SizeOfDistinct(p.list);
  }

  /** With no placeholder and balanced cursors an update reports no error, and the snapshot
      has exactly the cached nodes, each once in the node list. */
  lemma UpdateIsExact(s: CacheState, p: SnapState, deleted: set<string>)
    requires Ordered(s) && Faithful(s, p) && TreeMatches(s) && AllBacked(s) && ListExact(p)
    requires Deletable(s, NewerWalk(s, p).infos, deleted) && RoundRobin.Balanced(RowsOf(s.tree))
    ensures var (t, q, ok) := UpdateSnapshot(s, p, deleted);
            && ok && q.infos.Keys == NamedNodes(s) && ListExact(q)
            && TreeMatches(t) && RoundRobin.Balanced(RowsOf(t.tree))
  {
    UpdateKeysIff(s, p, deleted);
    UpdateMap(s, p, deleted);
    if UpdateAll(s, p) {
      NewListIff(s, p, deleted);
      TurnedMatches(s);
    } else {
      OldListExact(s, p, deleted);
    }
  }

  // ---- whole runs ----

  /** An admissible event that also keeps the tree in step; a snapshot is taken when no
      entry is a placeholder and the cursors are balanced. */
  ghost predicate Orderly(y: System, e: Event) {
    && Admissible(y, e)
    && match e
       case CacheStep(op) => NodeEventOk(y.cache, op)
       case SnapshotTaken(deleted) =>
         AllBacked(y.cache) && TreeValid(y.cache.tree) && RoundRobin.Balanced(RowsOf(y.cache.tree))
  }

  ghost predicate AllOrderly(events: seq<Event>, n: nat, ttl: int)
    requires n <= |events|
  {
    n > 0 ==> AllOrderly(events, n - 1, ttl) && Orderly(SystemRun(events, n - 1, ttl), events[n - 1])
  }

  ghost predicate ExactOk(y: System) { SystemOk(y) && TreeMatches(y.cache) && ListExact(y.snap) }

  lemma ReactExact(y: System, e: Event, ttl: int)
    requires ExactOk(y) && Orderly(y, e)
    ensures ExactOk(React(y, e, ttl))
  {
    ReactOk(y, e, ttl);
    match e {
      case CacheStep(op) => StepMatches(y.cache, op, ttl);
      case SnapshotTaken(deleted) => UpdateIsExact(y.cache, y.snap, deleted);
    }
  }

  lemma {:induction false} RunExact(events: seq<Event>, n: nat, ttl: int)
    requires n <= |events| && AllOrderly(events, n, ttl)
    ensures ExactOk(SystemRun(events, n, ttl))
  {
    if n == 0 {
      var y := SystemRun(events, 0, ttl);
      assert Members(y.cache.tree) == {} && Located(y.cache) == {};
    } else {
      RunExact(events, n - 1, ttl);
      ReactExact(SystemRun(events, n - 1, ttl), events[n - 1], ttl);
    }
  }

  /** The snapshot equals the cache: the same nodes, each as it is, each once in the node
      list, and in the affinity list those that hold pods with affinity. */
  ghost predicate Equals(s: CacheState, p: SnapState) {
    && p.infos == s.nodes
    && EachOnce(p.list, s.nodes.Keys)
    && p.affinityList == WithAffinity(s.nodes, p.list, |p.list|)
  }

  lemma CompleteEquals(s: CacheState, p: SnapState)
    requires AllBacked(s) && UpToDate(s, p) && ListsOk(p) && ListExact(p) && p.infos.Keys == NamedNodes(s)
    ensures Equals(s, p)
  {
    assert p.infos == s.nodes by {
      forall n | n in s.nodes
        ensures n in p.infos && p.infos[n] == s.nodes[n]
      {
        assert n in NamedNodes(s);
      }
    }
  }

  lemma UpdateEquals(y: System, e: Event, ttl: int)
    requires ExactOk(y) && e.SnapshotTaken? && Orderly(y, e)
    ensures UpdateSnapshot(y.cache, y.snap, e.deleted).2
    ensures Equals(React(y, e, ttl).cache, React(y, e, ttl).snap)
  {
    var (t, q, ok) := UpdateSnapshot(y.cache, y.snap, e.deleted);
    UpdateIsExact(y.cache, y.snap, e.deleted);
    UpdateIsComplete(y.cache, y.snap, e.deleted);
    UpdateKeepsLists(y.cache, y.snap, e.deleted);
    UpdateMap(y.cache, y.snap, e.deleted);
    CompleteEquals(y.cache, q);
  }

  lemma OrderlyAt(events: seq<Event>, n: nat, ttl: int)
    requires 0 < n <= |events| && AllOrderly(events, n, ttl)
    ensures AllOrderly(events, n - 1, ttl) && Orderly(SystemRun(events, n - 1, ttl), events[n - 1])
  {
  }

  /** In every orderly run each update reports no error and leaves the snapshot equal to
      the cache. */
  lemma EveryUpdateIsExact(events: seq<Event>, n: nat, ttl: int)
    requires 0 < n <= |events| && AllOrderly(events, n, ttl) && events[n - 1].SnapshotTaken?
    ensures var y := SystemRun(events, n - 1, ttl);
            UpdateSnapshot(y.cache, y.snap, events[n - 1].deleted).2
    ensures Equals(SystemRun(events, n, ttl).cache, SystemRun(events, n, ttl).snap)
  {
    OrderlyAt(events, n, ttl);
    RunExact(events, n - 1, ttl);
    UpdateEquals(SystemRun(events, n - 1, ttl), events[n - 1], ttl);
  }
}
