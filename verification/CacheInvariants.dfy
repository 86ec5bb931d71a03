/** What the pod operations of the cache keep: the states of pods, their expiry, and
    the conservation of the per-node totals. */
module CacheInvariants {
  import opened Api
  import opened NodeInfos
  import opened NodeTrees
  import opened CacheModel

  // ---- the states of pods ----

  /** Every assumed key has a state, and one whose binding finished has a deadline. */
  ghost predicate Machine(s: CacheState) {
    forall k :: k in s.assumedPods ==>
      k in s.podStates && (s.podStates[k].bindingFinished ==> s.podStates[k].deadline.Some?)
  }

  lemma PodRemovedKeepsStates(s: CacheState, pod: Pod)
    ensures PodRemoved(s, pod).0.podStates == s.podStates
    ensures PodRemoved(s, pod).0.assumedPods == s.assumedPods
    ensures PodRemoved(s, pod).0.tree == s.tree
  {
  }

  /** What the first n turns of a cleanup do to one key: nothing, or it is dropped because
      it was assumed, its binding finished and its deadline passed. */
  ghost predicate KeptOrExpired(s: CacheState, t: CacheState, now: int, k: string)
    requires k in s.podStates
  {
    || (k in t.podStates && t.podStates[k] == s.podStates[k] && (k in t.assumedPods <==> k in s.assumedPods))
    || (k !in t.podStates && k !in t.assumedPods && k in s.assumedPods && s.podStates[k].bindingFinished &&
        s.podStates[k].deadline.Some? && now > s.podStates[k].deadline.value)
  }

  lemma {:induction false} CleanupKey(s: CacheState, now: int, keys: seq<string>, n: nat, k: string)
    requires n <= |keys| && k in s.podStates
    ensures KeptOrExpired(s, Cleanup(s, now, keys, n).0, now, k)
  {
    if n > 0 {
      CleanupKey(s, now, keys, n - 1, k);
      var (t, r) := Cleanup(s, now, keys, n - 1);
      var key := keys[n - 1];
      if !r.Crashed? && key in t.podStates {
        PodRemovedKeepsStates(t, t.podStates[key].pod);
      }
    }
  }

  lemma {:induction false} CleanupAddsNothing(s: CacheState, now: int, keys: seq<string>, n: nat)
    requires n <= |keys|
    ensures var t := Cleanup(s, now, keys, n).0;
            t.podStates.Keys <= s.podStates.Keys && t.assumedPods <= s.assumedPods
  {
    if n > 0 {
      CleanupAddsNothing(s, now, keys, n - 1);
      var (t, r) := Cleanup(s, now, keys, n - 1);
      var key := keys[n - 1];
      if !r.Crashed? && key in t.podStates {
        PodRemovedKeepsStates(t, t.podStates[key].pod);
      }
    }
  }

  /** The state of a key that is assumed and finished after a step: it was set by this
      step, or it was the same before. */
  ghost predicate FinishedBy(s: CacheState, op: Op, ttl: int, t: CacheState, k: string)
    requires k in t.podStates
  {
    || (op.Finish? && op.pod.uid == k && t.podStates[k].deadline == Some(op.now + ttl))
    || (k in s.assumedPods && k in s.podStates && t.podStates[k] == s.podStates[k])
  }

  lemma AssumedAfterAdd(s: CacheState, pod: Pod, k: string)
    requires Machine(s)
    requires k in AddPod(s, pod).0.assumedPods && k in AddPod(s, pod).0.podStates
    ensures k in s.assumedPods && k in s.podStates && AddPod(s, pod).0.podStates[k] == s.podStates[k]
  {
    if Assumed(s, pod.uid) {
      PodRemovedKeepsStates(s, s.podStates[pod.uid].pod);
    }
  }

  lemma AssumedAfterUpdate(s: CacheState, oldPod: Pod, newPod: Pod, k: string)
    requires k in UpdatePod(s, oldPod, newPod).0.assumedPods && k in UpdatePod(s, oldPod, newPod).0.podStates
    ensures k in s.assumedPods && k in s.podStates && UpdatePod(s, oldPod, newPod).0.podStates[k] == s.podStates[k]
  {
    PodRemovedKeepsStates(s, oldPod);
  }

  lemma AssumedAfterRemove(s: CacheState, pod: Pod, k: string)
    requires k in RemovePod(s, pod).0.assumedPods && k in RemovePod(s, pod).0.podStates
    ensures k in s.assumedPods && k in s.podStates && RemovePod(s, pod).0.podStates[k] == s.podStates[k]
  {
    if pod.uid in s.podStates {
      PodRemovedKeepsStates(s, s.podStates[pod.uid].pod);
    }
  }

  lemma StepFinished(s: CacheState, op: Op, ttl: int, k: string)
    requires Machine(s)
    requires k in Step(s, op, ttl).0.assumedPods && k in Step(s, op, ttl).0.podStates
    requires Step(s, op, ttl).0.podStates[k].bindingFinished
    ensures FinishedBy(s, op, ttl, Step(s, op, ttl).0, k)
  {
    match op {
      case Assume(pod) =>
      case Finish(pod, now) =>
      case Forget(pod) => PodRemovedKeepsStates(s, pod);
      case Confirm(pod) => AssumedAfterAdd(s, pod, k);
      case Update(oldPod, newPod) => AssumedAfterUpdate(s, oldPod, newPod, k);
      case Delete(pod) => AssumedAfterRemove(s, pod, k);
      case NodeAdded(node) =>
      case NodeUpdated(oldNode, newNode) =>
      case NodeRemoved(node) =>
      case CleanupAt(now, visit) =>
        CleanupAddsNothing(s, now, visit, |visit|);
        CleanupKey(s, now, visit, |visit|, k);
      case GenerationTaken =>
    }
  }

  lemma AddAssumedHasState(s: CacheState, pod: Pod, k: string)
    requires Machine(s) && k in AddPod(s, pod).0.assumedPods
    ensures k in AddPod(s, pod).0.podStates
  {
    if Assumed(s, pod.uid) {
      PodRemovedKeepsStates(s, s.podStates[pod.uid].pod);
    }
  }

  lemma RemoveAssumedHasState(s: CacheState, pod: Pod, k: string)
    requires Machine(s) && k in RemovePod(s, pod).0.assumedPods
    ensures k in RemovePod(s, pod).0.podStates
  {
    if pod.uid in s.podStates {
      PodRemovedKeepsStates(s, s.podStates[pod.uid].pod);
    }
  }

  lemma StepAssumedHasState(s: CacheState, op: Op, ttl: int, k: string)
    requires Machine(s) && k in Step(s, op, ttl).0.assumedPods
    ensures k in Step(s, op, ttl).0.podStates
  {
    match op {
      case Forget(pod) => PodRemovedKeepsStates(s, pod);
      case Confirm(pod) => AddAssumedHasState(s, pod, k);
      case Update(oldPod, newPod) => PodRemovedKeepsStates(s, oldPod);
      case Delete(pod) => RemoveAssumedHasState(s, pod, k);
      case CleanupAt(now, visit) =>
        CleanupAddsNothing(s, now, visit, |visit|);
        CleanupKey(s, now, visit, |visit|, k);
      case _ =>
    }
  }

  /** Every step, whatever its arguments, keeps the pod state machine in order. */
  lemma StepMachine(s: CacheState, op: Op, ttl: int)
    requires Machine(s)
    ensures Machine(Step(s, op, ttl).0)
  {
    var t := Step(s, op, ttl).0;
    forall k | k in t.assumedPods
      ensures k in t.podStates && (t.podStates[k].bindingFinished ==> t.podStates[k].deadline.Some?)
    {
      StepAssumedHasState(s, op, ttl, k);
      if t.podStates[k].bindingFinished {
        StepFinished(s, op, ttl, k);
      }
    }
  }

  lemma {:induction false} RunMachine(ops: seq<Op>, n: nat, ttl: int)
    requires n <= |ops|
    ensures Machine(Run(ops, n, ttl))
  {
    if n > 0 {
      RunMachine(ops, n - 1, ttl);
      StepMachine(Run(ops, n - 1, ttl), ops[n - 1], ttl);
    }
  }

  /** In every run, the deadline of an assumed pod is the time of an earlier finish of its
      binding plus the time to live. */
  lemma {:induction false} RunDeadline(ops: seq<Op>, n: nat, ttl: int, k: string) returns (j: nat)
    requires n <= |ops|
    requires k in Run(ops, n, ttl).assumedPods && k in Run(ops, n, ttl).podStates
    requires Run(ops, n, ttl).podStates[k].bindingFinished
    ensures j < n && ops[j].Finish? && ops[j].pod.uid == k
    ensures Run(ops, n, ttl).podStates[k].deadline == Some(ops[j].now + ttl)
  {
    var s, op := Run(ops, n - 1, ttl), ops[n - 1];
    RunMachine(ops, n - 1, ttl);
    StepFinished(s, op, ttl, k);
    if op.Finish? && op.pod.uid == k && Run(ops, n, ttl).podStates[k].deadline == Some(op.now + ttl) {
      j := n - 1;
    } else {
      j := RunDeadline(ops, n - 1, ttl, k);
    }
  }

  /** A pod that a cleanup takes out of the cache was assumed and not confirmed, and its
      binding finished more than the time to live before. */
  lemma ExpiryIsLate(ops: seq<Op>, n: nat, ttl: int, k: string) returns (j: nat)
    requires n < |ops| && ops[n].CleanupAt?
    requires k in Run(ops, n, ttl).podStates && k !in Run(ops, n + 1, ttl).podStates
    ensures k in Run(ops, n, ttl).assumedPods
    ensures j < n && ops[j].Finish? && ops[j].pod.uid == k && ops[n].now > ops[j].now + ttl
  {
    var s := Run(ops, n, ttl);
    CleanupKey(s, ops[n].now, ops[n].visit, |ops[n].visit|, k);
    assert Run(ops, n + 1, ttl) == Cleanup(s, ops[n].now, ops[n].visit, |ops[n].visit|).0;
    j := RunDeadline(ops, n, ttl, k);
  }

  /** The pod is assumed and past its deadline, and is looked up in an entry that has no node
      and does not hold it. */
  ghost predicate Doomed(s: CacheState, key: string, now: int)
    requires Machine(s)
  {
    && key in s.assumedPods
    && s.podStates[key].bindingFinished && now > s.podStates[key].deadline.value
    && var p := s.podStates[key].pod;
       && p.uid != "" && p.nodeName in s.nodes
       && s.nodes[p.nodeName].node.None? && !NodeInfos.Holds(s.nodes[p.nodeName].pods, p.uid)
  }

  /** With the machine in order, a turn of the cleanup cannot meet a missing state or a
      missing deadline. It crashes exactly when an expired pod is looked up in an entry
      that has no node and does not hold it. */
  lemma ExpireCrashesIff(s: CacheState, key: string, now: int)
    requires Machine(s)
    ensures Expire(s, key, now).1.Crashed? <==> Doomed(s, key, now)
  {
    if key in s.assumedPods && s.podStates[key].pod.nodeName in s.nodes {
      RemovePodPanicsIff(s.nodes[s.podStates[key].pod.nodeName], s.podStates[key].pod);
    }
  }

  // ---- the zone tree ----

  lemma {:induction false} CleanupKeepsTree(s: CacheState, now: int, keys: seq<string>, n: nat)
    requires n <= |keys|
    ensures Cleanup(s, now, keys, n).0.tree == s.tree
  {
    if n > 0 {
      CleanupKeepsTree(s, now, keys, n - 1);
      var t := Cleanup(s, now, keys, n - 1).0;
      if keys[n - 1] in t.podStates {
        PodRemovedKeepsStates(t, t.podStates[keys[n - 1]].pod);
      }
    }
  }

  lemma RezonedValid(t: TreeView, known: bool, oldNode: Node, newNode: Node)
    requires TreeValid(t)
    ensures TreeValid(Rezoned(t, known, oldNode, newNode))
  {
    AddedNodeValid(t, newNode.zone, newNode.name);
    var u := if known then t else AddedNode(t, newNode.zone, newNode.name);
    UpdatedNodeValid(u, oldNode.zone, newNode.zone, oldNode.name, newNode.name);
  }

  lemma PodStepKeepsTree(s: CacheState, op: Op, ttl: int)
    requires !op.NodeAdded? && !op.NodeUpdated? && !op.NodeRemoved?
    ensures Step(s, op, ttl).0.tree == s.tree
  {
    match op {
      case Forget(pod) => PodRemovedKeepsStates(s, pod);
      case Confirm(pod) =>
        if pod.uid in s.podStates {
          PodRemovedKeepsStates(s, s.podStates[pod.uid].pod);
        }
      case Update(oldPod, newPod) => PodRemovedKeepsStates(s, oldPod);
      case Delete(pod) =>
        if pod.uid in s.podStates {
          PodRemovedKeepsStates(s, s.podStates[pod.uid].pod);
        }
      case CleanupAt(now, visit) => CleanupKeepsTree(s, now, visit, |visit|);
      case _ =>
    }
  }

  /** Every step, whatever its arguments, keeps the zone tree valid. */
  lemma StepTreeValid(s: CacheState, op: Op, ttl: int)
    requires TreeValid(s.tree)
    ensures TreeValid(Step(s, op, ttl).0.tree)
  {
    match op {
      case NodeAdded(node) => AddedNodeValid(s.tree, node.zone, node.name);
      case NodeUpdated(oldNode, newNode) => RezonedValid(s.tree, newNode.name in s.nodes, oldNode, newNode);
      case NodeRemoved(node) => RemovedNodeValid(s.tree, node.zone, node.name);
      case _ => PodStepKeepsTree(s, op, ttl);
    }
  }

  lemma {:induction false} RunTreeValid(ops: seq<Op>, n: nat, ttl: int)
    requires n <= |ops|
    ensures TreeValid(Run(ops, n, ttl).tree)
  {
    if n == 0 {
      assert Members(Run(ops, 0, ttl).tree) == {};
    } else {
      RunTreeValid(ops, n - 1, ttl);
      StepTreeValid(Run(ops, n - 1, ttl), ops[n - 1], ttl);
    }
  }
}
