/** The scheduler cache as an object: its maps, list, tree and counter change in place, and
    every public operation moves its value as the state machine of CacheModel says
    (internal/cache/cache.go). */
module SchedulerCaches {
  import opened Api
  import opened NodeInfos
  import opened NodeTrees
  import opened Sequences
  import opened CacheModel
  import opened CacheEntries
  import opened NodeTreeObjects

  class SchedulerCache {
    const ttl: int
    /** nodes and headNode */
    const entries: NodeEntries<string, NodeView>
    const nodeTree: NodeTree
    /** the package-level generation number */
    var generation: int
    var assumedPods: set<string>
    var podStates: map<string, PodState>

    constructor (ttl: int)
      ensures Valid() && State() == Run([], 0, ttl) && this.ttl == ttl && fresh(Cells())
    {
      this.ttl := ttl;
      generation := 0;
      entries := new NodeEntries();
      nodeTree := new NodeTree();
      assumedPods, podStates := {}, map[];
    }

    ghost function Cells(): set<object>
      reads this, entries, nodeTree
    {
      {this, entries, entries.list, nodeTree} + entries.held + nodeTree.arrays
    }

    ghost predicate Valid()
      reads entries, entries.list, entries.list.items, entries.held, nodeTree, nodeTree.arrays
    {
      entries.Valid() && nodeTree.Valid()
    }

    /** The value of the cache. */
    ghost function State(): CacheState
      reads this, entries, nodeTree
    {
      CacheState(entries.views, entries.order, assumedPods, podStates, nodeTree.view, generation)
    }

    /** An entry takes a new value, which carries the latest generation. */
    method Store(name: string, v: NodeView)
      requires Valid()
      modifies this`generation, entries, entries.list, entries.held
      ensures Valid() && fresh(entries.held - old(entries.held))
      ensures name in old(entries.nodes) ==> (entries.nodes, entries.held) == old((entries.nodes, entries.held))
      ensures State() == Touch(old(State()), name, v)
    {
      assert nodeTree.arrays !! entries.held;
      entries.Put(name, v);
      generation := v.generation;
    }

    /** The entry of the pod's node, a new one for an unknown node, with the pod added. */
    method WithPod(pod: Pod) returns (w: NodeView)
      requires Valid()
      ensures PodAdded(State(), pod) == Touch(State(), pod.nodeName, w)
    {
      if pod.nodeName in entries.nodes {
        w := AddPodTo(entries.nodes[pod.nodeName].info, pod, generation + 1);
        AddedToEntry(State(), pod);
      } else {
        w := AddPodTo(Blank(generation + 1), pod, generation + 2);
        AddedToBlank(State(), pod);
      }
    }

    /** addPod. */
    method PutPod(pod: Pod)
      requires Valid()
      modifies this`generation, entries, entries.list, entries.held
      ensures Valid() && fresh(entries.held - old(entries.held))
      ensures State() == PodAdded(old(State()), pod)
    {
      var w := WithPod(pod);
      Store(pod.nodeName, w);
    }

    /** An edit under the old generation, as a failed removal leaves it. */
    method Amend(name: string, v: NodeView)
      requires Valid() && name in entries.nodes
      modifies entries, entries.list, entries.held
      ensures Valid() && (entries.nodes, entries.held) == old((entries.nodes, entries.held))
      ensures State() == old(State()).(nodes := old(State()).nodes[name := v])
    {
      entries.Edit(name, v);
    }

    /** removePod. */
    method TakePod(pod: Pod) returns (r: Outcome)
      requires Valid()
      modifies this`generation, entries, entries.list, entries.held
      ensures Valid() && (entries.nodes, entries.held) == old((entries.nodes, entries.held))
      ensures State() == PodRemoved(old(State()), pod).0
      ensures r == PodRemoved(old(State()), pod).1
    {
      var name := pod.nodeName;
      if name !in entries.nodes {
        return Ok;
      }
      var v := entries.nodes[name].info;
      var outcome := RemoveOutcomeOf(v, pod);
      if outcome.Removed? {
        Taken(name, pod, outcome);
      } else {
        Untaken(name, pod, outcome);
      }
      r := match outcome
        case Removed => Ok
        case NoKey => Failed(EmptyUID)
        case NotFound => Failed(PodNotOnNode)
        case NilNodePanic => Crashed;
    }

    method Taken(name: string, pod: Pod, outcome: RemoveOutcome)
      requires Valid() && name == pod.nodeName && name in entries.nodes
      requires outcome == RemoveOutcomeOf(entries.nodes[name].info, pod) && outcome.Removed?
      modifies this`generation, entries, entries.list, entries.held
      ensures Valid() && (entries.nodes, entries.held) == old((entries.nodes, entries.held))
      ensures State() == PodRemoved(old(State()), pod).0
    {
      ghost var s := State();
      var w := RemovePodFrom(entries.nodes[name].info, pod, generation + 1);
      TakenIsTouch(s, pod, w);
      Store(name, w);
    }

    method Untaken(name: string, pod: Pod, outcome: RemoveOutcome)
      requires Valid() && name == pod.nodeName && name in entries.nodes
      requires outcome == RemoveOutcomeOf(entries.nodes[name].info, pod) && !outcome.Removed?
      modifies entries, entries.list, entries.held
      ensures Valid() && (entries.nodes, entries.held) == old((entries.nodes, entries.held))
      ensures State() == PodRemoved(old(State()), pod).0
    {
      if !outcome.NoKey? {
        Amend(name, RemovePodFrom(entries.nodes[name].info, pod, generation + 1));
      }
    }

    /** nextGeneration, as other entries than those of the cache take it. */
    method TakeGeneration()
      requires Valid()
      modifies this`generation
      ensures Valid() && State() == old(State()).(generation := old(generation) + 1)
    {
      generation := generation + 1;
    }

    // ---- the pod states ----

    /** podStates[key] and assumedPods[key] are set. */
    method SetPod(key: string, state: PodState, assumed: bool)
      requires Valid()
      modifies this`podStates, this`assumedPods
      ensures Valid()
      ensures State() == old(State()).(podStates := old(podStates)[key := state],
        assumedPods := if assumed then old(assumedPods) + {key} else old(assumedPods) - {key})
    {
      podStates := podStates[key := state];
      assumedPods := if assumed then assumedPods + {key} else assumedPods - {key};
    }

    /** podStates[key] is set. */
    method Restate(key: string, state: PodState)
      requires Valid()
      modifies this`podStates
      ensures Valid() && State() == old(State()).(podStates := old(podStates)[key := state])
    {
      podStates := podStates[key := state];
    }

    method Unstate(key: string)
      requires Valid()
      modifies this`podStates
      ensures Valid() && State() == old(State()).(podStates := old(podStates) - {key})
    {
      podStates := podStates - {key};
    }

    /** The key is deleted from both maps. */
    method Drop(key: string)
      requires Valid()
      modifies this`podStates, this`assumedPods
      ensures Valid() && State() == Dropped(old(State()), key)
    {
      podStates := podStates - {key};
      assumedPods := assumedPods - {key};
    }

    // ---- pod operations ----

    method AssumePod(pod: Pod) returns (r: Outcome)
      requires Valid()
      modifies Cells()
      ensures Valid() && fresh(Cells() - old(Cells()))
      ensures State() == CacheModel.AssumePod(old(State()), pod).0
      ensures r == CacheModel.AssumePod(old(State()), pod).1
      ensures r == Ok ==> pod.uid in podStates && podStates[pod.uid].pod == pod && pod.uid in assumedPods
    {
      if pod.uid == "" {
        return Failed(EmptyUID);
      }
      if pod.uid in podStates {
        return Failed(PodInCache);
      }
      PutPod(pod);
      SetPod(pod.uid, PodState(pod, None, false), true);
      r := Ok;
    }

    method FinishBinding(pod: Pod, now: int) returns (r: Outcome)
      requires Valid()
      modifies Cells()
      ensures Valid() && fresh(Cells() - old(Cells()))
      ensures State() == CacheModel.FinishBinding(old(State()), pod, now, ttl).0
      ensures r == CacheModel.FinishBinding(old(State()), pod, now, ttl).1
      ensures r == Ok && pod.uid in old(podStates) && pod.uid in old(assumedPods) ==>
        pod.uid in podStates && podStates[pod.uid] == PodState(old(podStates)[pod.uid].pod, Some(now + ttl), true)
    {
      if pod.uid == "" {
        return Failed(EmptyUID);
      }
      if pod.uid in podStates && pod.uid in assumedPods {
        Restate(pod.uid, PodState(podStates[pod.uid].pod, Some(now + ttl), true));
      }
      r := Ok;
    }

    method ForgetPod(pod: Pod) returns (r: Outcome)
      requires Valid()
      modifies Cells()
      ensures Valid() && fresh(Cells() - old(Cells()))
      ensures State() == CacheModel.ForgetPod(old(State()), pod).0
      ensures r == CacheModel.ForgetPod(old(State()), pod).1
      ensures r == Ok ==> pod.uid !in podStates && pod.uid !in assumedPods
    {
      if pod.uid == "" {
        return Failed(EmptyUID);
      }
      if pod.uid in podStates && podStates[pod.uid].pod.nodeName != pod.nodeName {
        return Failed(AssignedElsewhere);
      }
      if pod.uid in podStates && pod.uid in assumedPods {
        r := TakePod(pod);
        if r.Ok? {
          Drop(pod.uid);
        }
      } else {
        r := Failed(NotAssumed);
      }
    }

    /** A pod confirmed on another node than it was assumed on: an error of the removal is
        only logged. */
    method MovePod(held: Pod, pod: Pod) returns (r: Outcome)
      requires Valid()
      modifies this`generation, entries, entries.list, entries.held
      ensures Valid() && fresh(entries.held - old(entries.held))
      ensures State() == PodMoved(old(State()), held, pod).0
      ensures r == PodMoved(old(State()), held, pod).1
    {
      r := TakePod(held);
      if !r.Crashed? {
        PutPod(pod);
        r := Ok;
      }
    }

    method AddPod(pod: Pod) returns (r: Outcome)
      requires Valid()
      modifies Cells()
      ensures Valid() && fresh(Cells() - old(Cells()))
      ensures State() == CacheModel.AddPod(old(State()), pod).0
      ensures r == CacheModel.AddPod(old(State()), pod).1
      ensures r == Ok ==> pod.uid in podStates && podStates[pod.uid].pod == pod && podStates[pod.uid].deadline == None
      ensures r == Ok && pod.uid in old(podStates) ==> pod.uid !in assumedPods
    {
      if pod.uid == "" {
        return Failed(EmptyUID);
      }
      if pod.uid in podStates && pod.uid in assumedPods {
        var held := podStates[pod.uid];
        r := Ok;
        if held.pod.nodeName != pod.nodeName {
          r := MovePod(held.pod, pod);
        }
        if r.Ok? {
          SetPod(pod.uid, PodState(pod, None, held.bindingFinished), false);
        }
      } else if pod.uid !in podStates {
        PutPod(pod);
        Restate(pod.uid, PodState(pod, None, false));
        r := Ok;
      } else {
        r := Failed(AlreadyAdded);
      }
    }

    /** updatePod. */
    method ReplacePod(oldPod: Pod, newPod: Pod) returns (r: Outcome)
      requires Valid()
      modifies this`generation, entries, entries.list, entries.held
      ensures Valid() && fresh(entries.held - old(entries.held))
      ensures State() == PodReplaced(old(State()), oldPod, newPod).0
      ensures r == PodReplaced(old(State()), oldPod, newPod).1
    {
      if newPod.nodeName !in entries.nodes {
        return Ok;
      }
      r := TakePod(oldPod);
      if r.Ok? {
        PutPod(newPod);
      }
    }

    method UpdatePod(oldPod: Pod, newPod: Pod) returns (r: Outcome)
      requires Valid()
      modifies Cells()
      ensures Valid() && fresh(Cells() - old(Cells()))
      ensures State() == CacheModel.UpdatePod(old(State()), oldPod, newPod).0
      ensures r == CacheModel.UpdatePod(old(State()), oldPod, newPod).1
      ensures r == Ok ==> oldPod.uid in podStates && podStates[oldPod.uid].pod == newPod
    {
      var key := oldPod.uid;
      if key == "" {
        return Failed(EmptyUID);
      }
      if key in podStates && key !in assumedPods {
        r := ReplacePod(oldPod, newPod);
        if r.Ok? {
          Restate(key, podStates[key].(pod := newPod));
        }
      } else {
        r := Failed(NotAdded);
      }
    }

    method RemovePod(pod: Pod) returns (r: Outcome)
      requires Valid()
      modifies Cells()
      ensures Valid() && fresh(Cells() - old(Cells()))
      ensures State() == CacheModel.RemovePod(old(State()), pod).0
      ensures r == CacheModel.RemovePod(old(State()), pod).1
      ensures r == Ok ==> pod.uid !in podStates
    {
      if pod.uid == "" {
        return Failed(EmptyUID);
      }
      if pod.uid in podStates && pod.uid !in assumedPods {
        var held := podStates[pod.uid].pod;
        if held.nodeName != pod.nodeName {
          return Crashed;
        }
        r := TakePod(held);
        if r.Ok? {
          Unstate(pod.uid);
        }
      } else {
        r := Failed(NotAdded);
      }
    }

    // ---- node operations ----

    /** The entry of the node, a new one for an unknown name, with the node set. */
    method WithNode(node: Node) returns (w: NodeView)
      requires Valid()
      ensures NodeSet(State(), node) == Touch(State(), node.name, w)
    {
      if node.name in entries.nodes {
        w := SetNodeOf(entries.nodes[node.name].info, node, generation + 1);
        SetOnEntry(State(), node);
      } else {
        w := SetNodeOf(Blank(generation + 1), node, generation + 2);
        SetOnBlank(State(), node);
      }
    }

    method PutNode(node: Node)
      requires Valid()
      modifies this`generation, entries, entries.list, entries.held
      ensures Valid() && fresh(entries.held - old(entries.held)) && nodeTree.arrays == old(nodeTree.arrays)
      ensures State() == NodeSet(old(State()), node)
    {
      var w := WithNode(node);
      Store(node.name, w);
    }

    method GrowTree(zone: string, name: string)
      requires Valid()
      modifies nodeTree, nodeTree.arrays
      ensures Valid() && fresh(nodeTree.arrays - old(nodeTree.arrays)) && entries.held == old(entries.held)
      ensures State() == old(State()).(tree := AddedNode(old(State()).tree, zone, name))
    {
      assert nodeTree.arrays !! entries.held;
      nodeTree.AddNode(zone, name);
    }

    method PutAndGrow(node: Node)
      requires Valid()
      modifies Cells()
      ensures Valid() && fresh(entries.held - old(entries.held)) && fresh(nodeTree.arrays - old(nodeTree.arrays))
      ensures var t := NodeSet(old(State()), node); State() == t.(tree := AddedNode(t.tree, node.zone, node.name))
    {
      PutNode(node);
      GrowTree(node.zone, node.name);
    }

    method AddNode(node: Node) returns (r: Outcome)
      requires Valid()
      modifies Cells()
      ensures Valid() && fresh(Cells() - old(Cells()))
      ensures State() == CacheModel.AddNode(old(State()), node).0
      ensures r == CacheModel.AddNode(old(State()), node).1
    {
      NodeAddedIs(State(), node, NodeSet(State(), node));
      PutAndGrow(node);
      r := Ok;
    }

    /** What UpdateNode does to the tree. */
    method RezoneTree(known: bool, oldNode: Node, newNode: Node)
      requires Valid()
      modifies nodeTree, nodeTree.arrays
      ensures Valid() && fresh(nodeTree.arrays - old(nodeTree.arrays))
      ensures State() == old(State()).(tree := Rezoned(old(State()).tree, known, oldNode, newNode))
    {
      if !known {
        GrowTree(newNode.zone, newNode.name);
      }
      assert nodeTree.arrays !! entries.held;
      nodeTree.UpdateNode(oldNode, newNode);
    }

    method UpdateNode(oldNode: Node, newNode: Node) returns (r: Outcome)
      requires Valid()
      modifies Cells()
      ensures Valid() && fresh(Cells() - old(Cells()))
      ensures State() == CacheModel.UpdateNode(old(State()), oldNode, newNode).0
      ensures r == CacheModel.UpdateNode(old(State()), oldNode, newNode).1
    {
      ghost var s := State();
      RezoneTree(newNode.name in entries.nodes, oldNode, newNode);
      PutNode(newNode);
      NodeSetTree(s, State().tree, newNode);
      r := Ok;
    }

    method ShrinkTree(zone: string, name: string) returns (found: bool)
      requires Valid()
      modifies nodeTree, nodeTree.arrays
      ensures Valid() && (entries.held, nodeTree.arrays) == old((entries.held, nodeTree.arrays))
      ensures found == HasNode(old(State()).tree, zone, name)
      ensures State() == old(State()).(tree := RemovedNode(old(State()).tree, zone, name))
    {
      found := nodeTree.RemoveNode(zone, name);
    }

    method Unlist(name: string)
      requires Valid() && name in entries.order && NoDuplicates(entries.order)
      modifies entries, entries.list, entries.held
      ensures Valid() && (entries.held, nodeTree.arrays) == old((entries.held, nodeTree.arrays))
      ensures State() == old(State()).(nodes := old(State()).nodes - {name}, order := Without(old(State()).order, name))
    {
      assert nodeTree.arrays !! entries.held;
      entries.RemoveNodeInfoFromList(name);
    }

    /** The list is in order, as every operation leaves it. */
    method RemoveNode(node: Node) returns (r: Outcome)
      requires Valid() && Ordered(State())
      modifies Cells()
      ensures Valid() && fresh(Cells() - old(Cells()))
      ensures State() == CacheModel.RemoveNode(old(State()), node).0
      ensures r == CacheModel.RemoveNode(old(State()), node).1
    {
      if node.name !in entries.nodes {
        return Failed(NodeUnknown);
      }
      OrderedListed(State(), node.name);
      Unlist(node.name);
      var found := ShrinkTree(node.zone, node.name);
      r := if found then Ok else Failed(NodeNotInTree);
    }

    // ---- expiry ----

    /** expirePod. */
    method ExpirePod(key: string, pod: Pod) returns (r: Outcome)
      requires Valid()
      modifies this, entries, entries.list, entries.held
      ensures Valid() && (entries.nodes, entries.held) == old((entries.nodes, entries.held))
      ensures State() == Expired(old(State()), key, pod).0
      ensures r == Expired(old(State()), key, pod).1
    {
      r := TakePod(pod);
      if r.Ok? {
        Drop(key);
      }
    }

    /** One turn of the cleanup loop. */
    method CleanupKey(key: string, now: int) returns (r: Outcome)
      requires Valid()
      modifies this, entries, entries.list, entries.held
      ensures Valid() && (entries.nodes, entries.held) == old((entries.nodes, entries.held))
      ensures State() == Expire(old(State()), key, now).0
      ensures r == Expire(old(State()), key, now).1
    {
      if key !in assumedPods {
        return Ok;
      }
      if key !in podStates {
        return Crashed;
      }
      var held := podStates[key];
      if !held.bindingFinished {
        return Ok;
      }
      if held.deadline.None? {
        return Crashed;
      }
      r := Ok;
      if now > held.deadline.value {
        r := ExpirePod(key, held.pod);
        r := if r.Crashed? then r else Ok;
      }
    }

    /** The cleanup loop; the order in which the map yields its keys is not determined, and
        the method reports the one it met. */
    method CleanupAssumedPods(now: int) returns (r: Outcome, ghost visit: seq<string>)
      requires Valid()
      modifies Cells()
      ensures Valid() && fresh(Cells() - old(Cells()))
      ensures State() == Cleanup(old(State()), now, visit, |visit|).0
      ensures r == Cleanup(old(State()), now, visit, |visit|).1
      ensures !r.Crashed? ==> forall k :: k in visit <==> k in old(assumedPods)
    {
      r, visit := Ok, [];
      ghost var start := State();
      var rest := assumedPods;
      while rest != {}
        invariant Valid() && (entries.nodes, entries.held) == old((entries.nodes, entries.held))
        invariant nodeTree.arrays == old(nodeTree.arrays)
        invariant State() == Cleanup(start, now, visit, |visit|).0
        invariant r == Cleanup(start, now, visit, |visit|).1 && !r.Crashed?
        invariant forall k :: k in visit || k in rest <==> k in start.assumedPods
        decreases rest
      {
        var key :| key in rest;
        rest := rest - {key};
        ghost var seen := visit;
        visit := seen + [key];
        CleanupNext(start, now, seen, key);
        r := CleanupKey(key, now);
        if r.Crashed? {
          return;
        }
      }
    }
  }

  lemma AddedToEntry(s: CacheState, pod: Pod)
    requires pod.nodeName in s.nodes
    ensures PodAdded(s, pod) == Touch(s, pod.nodeName, AddPodTo(s.nodes[pod.nodeName], pod, s.generation + 1))
  {
    AddedIsTouch(s, pod);
  }

  lemma AddedToBlank(s: CacheState, pod: Pod)
    requires pod.nodeName !in s.nodes
    ensures PodAdded(s, pod) == Touch(s, pod.nodeName, AddPodTo(Blank(s.generation + 1), pod, s.generation + 2))
  {
    AddedIsTouch(s, pod);
  }

  lemma SetOnEntry(s: CacheState, node: Node)
    requires node.name in s.nodes
    ensures NodeSet(s, node) == Touch(s, node.name, SetNodeOf(s.nodes[node.name], node, s.generation + 1))
  {
  }

  lemma SetOnBlank(s: CacheState, node: Node)
    requires node.name !in s.nodes
    ensures NodeSet(s, node) == Touch(s, node.name, SetNodeOf(Blank(s.generation + 1), node, s.generation + 2))
  {
  }

  lemma NodeAddedIs(s: CacheState, node: Node, t: CacheState)
    requires t == NodeSet(s, node)
    ensures CacheModel.AddNode(s, node) == (t.(tree := AddedNode(t.tree, node.zone, node.name)), Ok)
  {
  }

  lemma OrderedListed(s: CacheState, name: string)
    requires Ordered(s) && name in s.nodes
    ensures name in s.order && NoDuplicates(s.order)
  {
    assert name in Generations(s.nodes);
  }

  /** Setting a node does not look at the tree. */
  lemma NodeSetTree(s: CacheState, tree: TreeView, node: Node)
    ensures NodeSet(s.(tree := tree), node) == NodeSet(s, node).(tree := tree)
  {
  }

  lemma {:induction false} CleanupPrefix(s: CacheState, now: int, a: seq<string>, b: seq<string>, n: nat)
    requires n <= |a| && n <= |b| && forall i :: 0 <= i < n ==> a[i] == b[i]
    ensures Cleanup(s, now, a, n) == Cleanup(s, now, b, n)
  {
    if n > 0 {
      CleanupPrefix(s, now, a, b, n - 1);
    }
  }

  lemma CleanupNext(s: CacheState, now: int, seen: seq<string>, key: string)
    requires !Cleanup(s, now, seen, |seen|).1.Crashed?
    ensures Cleanup(s, now, seen + [key], |seen + [key]|) == Expire(Cleanup(s, now, seen, |seen|).0, key, now)
  {
    CleanupPrefix(s, now, seen, seen + [key], |seen|);
  }
}
