/** Runs of the cache in which an event that its callers can send does harm
    (internal/cache/cache.go). */
module CacheCases {
  import opened Api
  import Sequences
  import opened Resources
  import opened NodeInfos
  import opened CacheModel
  import opened CacheConservation

  /** A pod that asks for nothing. */
  function SmallPod(uid: string, nodeName: string): Pod {
    Pod(uid, uid, uid, nodeName, map[], [], [], map[], Affinity(None, None))
  }

  // ---- what single steps leave ----

  lemma AssumeLeaves(s: CacheState, pod: Pod)
    requires pod.uid != "" && pod.uid !in s.podStates
    ensures var t := AssumePod(s, pod).0;
            && t.podStates == s.podStates[pod.uid := PodState(pod, None, false)]
            && t.assumedPods == s.assumedPods + {pod.uid}
            && t.nodes.Keys == s.nodes.Keys + {pod.nodeName}
            && t.nodes[pod.nodeName].pods
              == (if pod.nodeName in s.nodes then s.nodes[pod.nodeName].pods else []) + [pod]
            && t.nodes[pod.nodeName].node == if pod.nodeName in s.nodes then s.nodes[pod.nodeName].node else None
  {
  }

  lemma ConfirmLeaves(s: CacheState, pod: Pod)
    requires pod.uid != "" && pod.uid !in s.podStates
    ensures var t := AddPod(s, pod).0;
            && t.podStates == s.podStates[pod.uid := PodState(pod, None, false)]
            && t.assumedPods == s.assumedPods
            && t.nodes.Keys == s.nodes.Keys + {pod.nodeName}
            && t.nodes[pod.nodeName].pods
              == (if pod.nodeName in s.nodes then s.nodes[pod.nodeName].pods else []) + [pod]
  {
  }

  lemma FinishLeaves(s: CacheState, pod: Pod, now: int, ttl: int)
    requires pod.uid != "" && Assumed(s, pod.uid)
    ensures var t := FinishBinding(s, pod, now, ttl).0;
            && t.podStates == s.podStates[pod.uid := PodState(s.podStates[pod.uid].pod, Some(now + ttl), true)]
            && t.assumedPods == s.assumedPods && t.nodes == s.nodes
  {
  }

  lemma NodeAddedLeaves(s: CacheState, node: Node)
    ensures var t := AddNode(s, node).0;
            && t.podStates == s.podStates && t.assumedPods == s.assumedPods
            && t.nodes.Keys == s.nodes.Keys + {node.name} && t.nodes[node.name].node == Some(node)
  {
  }

  lemma NodeRemovedLeaves(s: CacheState, node: Node)
    ensures var t := RemoveNode(s, node).0;
            t.podStates == s.podStates && t.assumedPods == s.assumedPods && t.nodes == s.nodes - {node.name}
  {
  }

  /** The states of a run, one after the other. */
  ghost predicate States(ops: seq<Op>, ttl: int, ss: seq<CacheState>) {
    |ss| == |ops| + 1 && forall k :: 0 <= k <= |ops| ==> ss[k] == Run(ops, k, ttl)
  }

  ghost function RunStates(ops: seq<Op>, ttl: int): (ss: seq<CacheState>)
    ensures States(ops, ttl, ss)
  {
    seq(|ops| + 1, k requires 0 <= k <= |ops| => Run(ops, k, ttl))
  }

  lemma StatesStep(ops: seq<Op>, ttl: int, ss: seq<CacheState>, n: nat)
    requires States(ops, ttl, ss) && n < |ops|
    ensures ss[n + 1] == Step(ss[n], ops[n], ttl).0
  {
  }

  lemma StatesStart(ops: seq<Op>, ttl: int, ss: seq<CacheState>)
    requires States(ops, ttl, ss)
    ensures ss[0].nodes == map[] && ss[0].podStates == map[] && ss[0].assumedPods == {}
  {
  }

  // ---- the cleanup panics ----

  /** A bound pod is left without its node, and another is assumed on the same name. */
  lemma OrphanLeft(s0: CacheState, s1: CacheState, s2: CacheState, s3: CacheState, p: Pod, node: Node, ttl: int)
    requires p.nodeName == node.name && p.uid != "" && s0.podStates == map[]
    requires s1 == AddNode(s0, node).0 && s2 == AssumePod(s1, p).0 && s3 == FinishBinding(s2, p, 0, ttl).0
    ensures s3.podStates == map[p.uid := PodState(p, Some(ttl), true)] && p.uid in s3.assumedPods
  {
    NodeAddedLeaves(s0, node);
    AssumeLeaves(s1, p);
    FinishLeaves(s2, p, 0, ttl);
  }

  lemma PlaceholderLeft(s3: CacheState, s4: CacheState, s5: CacheState, q: Pod, node: Node)
    requires q.nodeName == node.name && q.uid != "" && q.uid !in s3.podStates
    requires s4 == RemoveNode(s3, node).0 && s5 == AssumePod(s4, q).0
    ensures s5.podStates == s3.podStates[q.uid := PodState(q, None, false)] && s3.assumedPods <= s5.assumedPods
    ensures node.name in s5.nodes && s5.nodes[node.name].node.None? && s5.nodes[node.name].pods == [q]
  {
    NodeRemovedLeaves(s3, node);
    AssumeLeaves(s4, q);
  }

  /** A bound pod whose node is removed, another pod assumed on the name, and a cleanup. */
  predicate OrphanRun(ops: seq<Op>, p: Pod, q: Pod, node: Node, ttl: int) {
    && |ops| == 6 && ops[0] == NodeAdded(node) && ops[1] == Assume(p) && ops[2] == Finish(p, 0)
    && ops[3] == NodeRemoved(node) && ops[4] == Assume(q) && ops[5] == CleanupAt(ttl + 1, [p.uid])
  }

  lemma OrphanSteps(ops: seq<Op>, p: Pod, q: Pod, node: Node, ttl: int, ss: seq<CacheState>)
    requires OrphanRun(ops, p, q, node, ttl) && States(ops, ttl, ss)
    ensures ss[1] == AddNode(ss[0], node).0 && ss[2] == AssumePod(ss[1], p).0
    ensures ss[3] == FinishBinding(ss[2], p, 0, ttl).0
    ensures ss[4] == RemoveNode(ss[3], node).0 && ss[5] == AssumePod(ss[4], q).0
  {
    StatesStep(ops, ttl, ss, 0);
    StatesStep(ops, ttl, ss, 1);
    StatesStep(ops, ttl, ss, 2);
    OrphanStepsBehind(ops, p, q, node, ttl, ss);
  }

  lemma OrphanStepsBehind(ops: seq<Op>, p: Pod, q: Pod, node: Node, ttl: int, ss: seq<CacheState>)
    requires OrphanRun(ops, p, q, node, ttl) && States(ops, ttl, ss)
    ensures ss[4] == RemoveNode(ss[3], node).0 && ss[5] == AssumePod(ss[4], q).0
  {
    StatesStep(ops, ttl, ss, 3);
    StatesStep(ops, ttl, ss, 4);
  }

  /** The cleanup looks for the first pod in the placeholder and panics, although every event
      is well-formed. */
  lemma CleanupPanics(ops: seq<Op>, p: Pod, q: Pod, node: Node, ttl: int)
    requires p == SmallPod(p.uid, node.name) && q == SmallPod(q.uid, node.name)
    requires p.uid != "" && q.uid != "" && p.uid != q.uid
    requires OrphanRun(ops, p, q, node, ttl)
    ensures forall k :: 0 <= k < 6 ==> WellFormed(Run(ops, k, ttl), ops[k])
    ensures Step(Run(ops, 5, ttl), ops[5], ttl).1.Crashed?
  {
    var ss := RunStates(ops, ttl);
    forall k | 0 <= k < 6
      ensures WellFormed(Run(ops, k, ttl), ops[k])
    {
      AlwaysWellFormed(Run(ops, k, ttl), ops[k]);
    }
    CacheInvariants.RunMachine(ops, 5, ttl);
    OrphanPanics(ops, p, q, node, ttl, ss, ss[5]);
  }

  /** Nothing is asked of these operations. */
  lemma AlwaysWellFormed(s: CacheState, op: Op)
    requires !op.Forget? && !op.Confirm? && !op.Update?
    ensures WellFormed(s, op)
  {
  }

  lemma OrphanPanics(ops: seq<Op>, p: Pod, q: Pod, node: Node, ttl: int, ss: seq<CacheState>, s: CacheState)
    requires p.nodeName == node.name && q.nodeName == node.name && p.uid != "" && q.uid != "" && p.uid != q.uid
    requires OrphanRun(ops, p, q, node, ttl) && States(ops, ttl, ss) && s == ss[5] && CacheInvariants.Machine(s)
    ensures Step(s, ops[5], ttl).1.Crashed?
  {
    PanicStates(ops, p, q, node, ttl, ss);
    CleanupOfOne(s, p, q, ttl);
  }

  lemma PanicStates(ops: seq<Op>, p: Pod, q: Pod, node: Node, ttl: int, ss: seq<CacheState>)
    requires p.nodeName == node.name && q.nodeName == node.name && p.uid != "" && q.uid != "" && p.uid != q.uid
    requires OrphanRun(ops, p, q, node, ttl) && States(ops, ttl, ss)
    ensures p.uid in ss[5].assumedPods && p.uid in ss[5].podStates &&
      ss[5].podStates[p.uid] == PodState(p, Some(ttl), true)
    ensures node.name in ss[5].nodes && ss[5].nodes[node.name].node.None? && ss[5].nodes[node.name].pods == [q]
  {
    StatesStart(ops, ttl, ss);
    OrphanSteps(ops, p, q, node, ttl, ss);
    OrphanLeft(ss[0], ss[1], ss[2], ss[3], p, node, ttl);
    PlaceholderLeft(ss[3], ss[4], ss[5], q, node);
  }

  lemma CleanupOfOne(s: CacheState, p: Pod, q: Pod, ttl: int)
    requires CacheInvariants.Machine(s) && p.uid != "" && p.uid != q.uid
    requires p.uid in s.assumedPods && p.uid in s.podStates && s.podStates[p.uid] == PodState(p, Some(ttl), true)
    requires p.nodeName in s.nodes && s.nodes[p.nodeName].node.None? && s.nodes[p.nodeName].pods == [q]
    ensures Step(s, CleanupAt(ttl + 1, [p.uid]), ttl).1.Crashed?
  {
    CacheInvariants.ExpireCrashesIff(s, p.uid, ttl + 1);
    var keys, n := [p.uid], 0;
    assert Cleanup(s, ttl + 1, keys, n) == (s, Ok);
    assert Cleanup(s, ttl + 1, keys, n + 1) == Expire(s, keys[n], ttl + 1);
  }

  // ---- an update towards an unknown node ----

  predicate StrayRun(ops: seq<Op>, p: Pod, node: Node, other: string) {
    |ops| == 3 && ops[0] == NodeAdded(node) && ops[1] == Confirm(p) && ops[2] == Update(p, p.(nodeName := other))
  }

  lemma StraySteps(ops: seq<Op>, p: Pod, node: Node, other: string, ttl: int, ss: seq<CacheState>)
    requires StrayRun(ops, p, node, other) && States(ops, ttl, ss)
    ensures ss[1] == AddNode(ss[0], node).0 && ss[2] == AddPod(ss[1], p).0
    ensures ss[3] == UpdatePod(ss[2], p, p.(nodeName := other)).0
  {
    StatesStep(ops, ttl, ss, 0);
    StatesStep(ops, ttl, ss, 1);
    StatesStep(ops, ttl, ss, 2);
  }

  lemma StrayStates(s0: CacheState, s1: CacheState, s2: CacheState, p: Pod, node: Node)
    requires s0.nodes == map[] && s0.podStates == map[] && s0.assumedPods == {}
    requires p.uid != "" && p.nodeName == node.name
    requires s1 == AddNode(s0, node).0 && s2 == AddPod(s1, p).0
    ensures s2.podStates == map[p.uid := PodState(p, None, false)] && s2.assumedPods == {}
    ensures s2.nodes.Keys == {node.name} && Held(s2, node.name, p.uid)
  {
    NodeAddedLeaves(s0, node);
    ConfirmLeaves(s1, p);
    var pods := s2.nodes[node.name].pods;
    assert pods[|pods| - 1] == p;
  }

  /** A pod whose update names a node without an entry stays where it was, while its state
      moves on: the entry holds a pod that its state does not place there. */
  lemma UpdateStrays(ops: seq<Op>, p: Pod, node: Node, other: string, ttl: int)
    requires p == SmallPod(p.uid, node.name) && p.uid != "" && other != node.name && StrayRun(ops, p, node, other)
    ensures Conserving(Run(ops, 2, ttl)) && !Conserving(Run(ops, 3, ttl))
  {
    var ss := RunStates(ops, ttl);
    StatesStart(ops, ttl, ss);
    StraySteps(ops, p, node, other, ttl, ss);
    StrayStates(ss[0], ss[1], ss[2], p, node);
    RunConserving(ops, 2, ttl);
    StrayMoves(ss[2], ss[3], p, node, other);
  }

  lemma StrayMoves(s: CacheState, t: CacheState, p: Pod, node: Node, other: string)
    requires Conserving(s) && p.uid in s.podStates && s.podStates[p.uid].pod == p && p.uid !in s.assumedPods
    requires other !in s.nodes && p.nodeName == node.name && Held(s, node.name, p.uid)
    requires t == UpdatePod(s, p, p.(nodeName := other)).0
    ensures !Conserving(t)
  {
    UpdateToUnknownNodeIff(s, p, p.(nodeName := other));
  }

  // ---- a removal by a heavier object ----

  predicate HeavierRun(ops: seq<Op>, p: Pod, q: Pod) { |ops| == 2 && ops[0] == Assume(p) && ops[1] == Forget(q) }

  lemma RequestIsOverhead(q: Pod, x: int)
    requires q == SmallPod(q.uid, q.nodeName).(overhead := map[Cpu := x])
    ensures Weight(RequestOf(Cpu), q) == x
  {
    var none: seq<Container> := [];
    assert q.containers == none && q.initContainers == none;
  }

  lemma HeavierRemoved(v: NodeView, p: Pod, q: Pod, g: int)
    requires Conserved(v) && v.pods == [p] && p == SmallPod(p.uid, p.nodeName) && p.uid != ""
    requires q == p.(overhead := map[Cpu := 1])
    ensures var w := RemovePodFrom(v, q, g);
            RemoveOutcomeOf(v, q).Removed? && w.pods == [] && Quantity(w.requested, Cpu) == -1 && !Conserved(w)
  {
    var i, m := 0, RequestOf(Cpu);
    RemovePodConservesIff(v, q, i, g);
    RequestIsOverhead(q, 1);
    SmallWeight(p);
    RemovePodRecorded(v, q, g, m);
    TotalOfOne(m, p);
    assert Recorded(v, m) == NodeInfos.Total(m, v.pods);
  }

  lemma SmallWeight(p: Pod)
    requires p == SmallPod(p.uid, p.nodeName)
    ensures Weight(RequestOf(Cpu), p) == 0
  {
    var none: seq<Container> := [];
    assert p.containers == none && p.initContainers == none;
  }

  lemma TotalOfOne(m: Measure, p: Pod)
    ensures NodeInfos.Total(m, [p]) == Weight(m, p)
  {
    var pods, n := [p], 0;
    assert Sequences.Sum(Weigher(m), pods, n) == 0;
    assert Sequences.Sum(Weigher(m), pods, n + 1) == 0 + Weigher(m)(pods[n]);
  }

  /** A pod that is forgotten through an object with the same key that asks for one unit more:
      the entry is left without pods and with a request below zero. */
  lemma HeavierForgotten(ops: seq<Op>, p: Pod, q: Pod, ttl: int)
    requires p == SmallPod(p.uid, p.nodeName) && p.uid != "" && q == p.(overhead := map[Cpu := 1])
    requires HeavierRun(ops, p, q)
    ensures var s := Run(ops, 2, ttl);
            && p.nodeName in s.nodes && s.nodes[p.nodeName].pods == []
            && Quantity(s.nodes[p.nodeName].requested, Cpu) == -1 && !Conserving(s)
  {
    var ss := RunStates(ops, ttl);
    StatesStart(ops, ttl, ss);
    StatesStep(ops, ttl, ss, 0);
    StatesStep(ops, ttl, ss, 1);
    AssumeLeaves(ss[0], p);
    RunConserving(ops, 1, ttl);
    ForgottenByOther(ss[1], ss[2], p, q);
  }

  lemma ForgottenByOther(s: CacheState, t: CacheState, p: Pod, q: Pod)
    requires p == SmallPod(p.uid, p.nodeName) && p.uid != "" && q == p.(overhead := map[Cpu := 1])
    requires Conserving(s) && Assumed(s, p.uid) && s.podStates[p.uid].pod == p
    requires p.nodeName in s.nodes && s.nodes[p.nodeName].pods == [p] && t == ForgetPod(s, q).0
    ensures p.nodeName in t.nodes && t.nodes[p.nodeName].pods == []
    ensures Quantity(t.nodes[p.nodeName].requested, Cpu) == -1 && !Conserving(t)
  {
    var v, g := s.nodes[p.nodeName], s.generation + 1;
    HeavierRemoved(v, p, q, g);
    var w := RemovePodFrom(v, q, g);
    TakenIsTouch(s, q, w);
    assert t.nodes[p.nodeName] == w;
  }
}
