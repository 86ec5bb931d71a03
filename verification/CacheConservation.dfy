/** Conservation over whole runs of the cache: where each pod key sits and what the
    per-node totals add up to (internal/cache/cache.go with framework/v1alpha1/types.go). */
module CacheConservation {
  import opened Api
  import opened NodeInfos
  import opened HostPorts
  import opened CacheModel
  import CacheInvariants

  type States = map<string, PodState>

  /** A pod on an entry has a state that names this entry and stands for a pod of the
      same weights. */
  ghost predicate Legit(n: string, p: Pod, states: States) {
    && p.nodeName == n && p.uid in states
    && states[p.uid].pod.nodeName == n && SameWeights(states[p.uid].pod, p)
  }

  ghost predicate EntryOk(n: string, v: NodeView, states: States) {
    Conserved(v) && Allotted(v) && NoEmptyIP(v.usedPorts) && forall p :: p in v.pods ==> Legit(n, p, states)
  }

  ghost predicate Keyed(states: States) {
    forall k :: k in states ==> k != "" && states[k].pod.uid == k
  }

  ghost predicate Conserving(s: CacheState) {
    Keyed(s.podStates) && forall n :: n in s.nodes ==> EntryOk(n, s.nodes[n], s.podStates)
  }

  predicate Held(s: CacheState, n: string, key: string) { n in s.nodes && NodeInfos.Holds(s.nodes[n].pods, key) }

  // ---- what the invariant says ----

  /** Each pod key sits on at most one entry and there at most once, under the node its
      state names. */
  lemma OnePlacePerKey(s: CacheState, n: string, i: nat, m: string, j: nat)
    requires Conserving(s) && n in s.nodes && m in s.nodes
    requires i < |s.nodes[n].pods| && j < |s.nodes[m].pods|
    requires s.nodes[n].pods[i].uid == s.nodes[m].pods[j].uid
    ensures n == m && i == j && s.nodes[n].pods[i].uid in s.podStates
    ensures s.podStates[s.nodes[n].pods[i].uid].pod.nodeName == n
  {
    assert Legit(n, s.nodes[n].pods[i], s.podStates) && Legit(m, s.nodes[m].pods[j], s.podStates);
    assert DistinctKeys(s.nodes[n].pods);
  }

  lemma HeldWhereNamed(s: CacheState, n: string, key: string)
    requires Conserving(s) && Held(s, n, key)
    ensures key in s.podStates && s.podStates[key].pod.nodeName == n
  {
    var i :| 0 <= i < |s.nodes[n].pods| && s.nodes[n].pods[i].uid == key;
    assert s.nodes[n].pods[i] in s.nodes[n].pods;
  }

  // ---- entries ----

  /** States that agree on the pods an entry holds are as good for it. */
  lemma EntryFrame(n: string, v: NodeView, a: States, b: States)
    requires EntryOk(n, v, a)
    requires forall p :: p in v.pods ==> p.uid in b && b[p.uid] == a[p.uid]
    ensures EntryOk(n, v, b)
  {
  }

  lemma EntryAdd(n: string, v: NodeView, pod: Pod, g: int, states: States)
    requires EntryOk(n, v, states) && pod.uid != "" && !NodeInfos.Holds(v.pods, pod.uid) && Legit(n, pod, states)
    ensures EntryOk(n, AddPodTo(v, pod, g), states)
  {
    AddPodConserves(v, pod, g);
    AddContainersTaken(v.usedPorts, pod.containers, |pod.containers|);
  }

  lemma RemoveKeyPods(pods: seq<Pod>, i: nat)
    requires DistinctKeys(pods) && i < |pods|
    ensures !NodeInfos.Holds(RemoveKey(pods, pods[i].uid), pods[i].uid)
    ensures forall p :: p in RemoveKey(pods, pods[i].uid) ==> p in pods
  {
    PositionUnique(pods, i);
    SwapDeleteDistinct(pods, i);
  }

  lemma EntryRemove(n: string, v: NodeView, pod: Pod, g: int, states: States)
    requires EntryOk(n, v, states) && pod.uid in states && SameWeights(pod, states[pod.uid].pod)
    requires RemoveOutcomeOf(v, pod).Removed?
    ensures EntryOk(n, RemovePodFrom(v, pod, g), states)
    ensures !NodeInfos.Holds(RemovePodFrom(v, pod, g).pods, pod.uid)
  {
    var i := Position(v.pods, pod.uid, 0);
    assert Legit(n, v.pods[i], states);
    RemovePodConservesIff(v, pod, i, g);
    RemoveKeyPods(v.pods, i);
    RemoveContainersTaken(v.usedPorts, pod.containers, |pod.containers|);
  }

  /** A removal that fails leaves a conserved entry as it was. */
  lemma EntryRemoveFails(v: NodeView, pod: Pod, g: int)
    requires Conserved(v) && !RemoveOutcomeOf(v, pod).Removed?
    ensures RemovePodFrom(v, pod, g) == v
  {
    if pod.uid != "" {
      RemoveKeyKeepsAffinity(v, pod.uid);
    }
  }

  lemma BlankOk(n: string, g: int, states: States)
    ensures EntryOk(n, Blank(g), states)
  {
    forall m | Measured(m)
      ensures Recorded(Blank(g), m) == Total(m, Blank(g).pods)
    {
    }
  }

  lemma EntrySetNode(n: string, v: NodeView, node: Node, g: int, states: States)
    requires EntryOk(n, v, states)
    ensures EntryOk(n, SetNodeOf(v, node, g), states)
  {
    var w := SetNodeOf(v, node, g);
    forall m | Measured(m)
      ensures Recorded(w, m) == Total(m, w.pods)
    {
      assert Recorded(w, m) == Recorded(v, m);
    }
  }

  // ---- states ----

  /** Changing the state of a key is harmless when no entry holds it, or when the new
      state stands for the pod held just as well. */
  lemma StateReplaced(s: CacheState, t: CacheState, key: string, state: PodState)
    requires Conserving(s) && key != "" && state.pod.uid == key
    requires t.nodes == s.nodes && t.podStates == s.podStates[key := state]
    requires forall n :: Held(s, n, key) ==>
      (key in s.podStates && state.pod.nodeName == n && SameWeights(state.pod, s.podStates[key].pod))
    ensures Conserving(t)
  {
    forall n | n in t.nodes
      ensures EntryOk(n, t.nodes[n], t.podStates)
    {
      forall p | p in t.nodes[n].pods
        ensures Legit(n, p, t.podStates)
      {
        assert Legit(n, p, s.podStates);
        if p.uid == key {
          assert Held(s, n, key);
        }
      }
    }
  }

  lemma StateDropped(s: CacheState, t: CacheState, key: string)
    requires Conserving(s) && forall n :: !Held(s, n, key)
    requires t.nodes == s.nodes && t.podStates == s.podStates - {key}
    ensures Conserving(t)
  {
    forall n | n in t.nodes
      ensures EntryOk(n, t.nodes[n], t.podStates)
    {
      forall p | p in t.nodes[n].pods
        ensures p.uid in t.podStates
      {
        assert Legit(n, p, s.podStates);
        assert !Held(s, n, key);
        assert p.uid != key;
      }
      EntryFrame(n, t.nodes[n], s.podStates, t.podStates);
    }
  }

  // ---- addPod and removePod ----

  lemma PodAddedConserving(s: CacheState, pod: Pod)
    requires Conserving(s) && pod.uid != "" && (forall n :: !Held(s, n, pod.uid))
    requires pod.uid in s.podStates && Legit(pod.nodeName, pod, s.podStates)
    ensures Conserving(PodAdded(s, pod))
  {
    var v, g := EntryOf(s, pod.nodeName), EntryGeneration(s, pod.nodeName) + 1;
    assert EntryOk(pod.nodeName, v, s.podStates) by {
      BlankOk(pod.nodeName, s.generation + 1, s.podStates);
    }
    assert !Held(s, pod.nodeName, pod.uid);
    EntryAdd(pod.nodeName, v, pod, g, s.podStates);
    AddedIsTouch(s, pod);
    TouchConserving(s, pod.nodeName, AddPodTo(v, pod, g));
  }

  lemma TouchConserving(s: CacheState, n: string, v: NodeView)
    requires Conserving(s) && EntryOk(n, v, s.podStates)
    ensures Conserving(Touch(s, n, v))
  {
  }

  lemma HeldNowhere(s: CacheState, t: CacheState, n: string, key: string)
    requires Conserving(s) && key in s.podStates && s.podStates[key].pod.nodeName == n
    requires !Held(t, n, key) && forall m :: m in t.nodes && m != n ==> m in s.nodes && t.nodes[m] == s.nodes[m]
    ensures forall m :: !Held(t, m, key)
  {
    forall m | Held(t, m, key)
      ensures m == n
    {
      if m != n {
        assert Held(s, m, key);
        HeldWhereNamed(s, m, key);
      }
    }
  }

  lemma NotRemoved(v: NodeView, pod: Pod)
    requires pod.uid != "" && !RemoveOutcomeOf(v, pod).Removed?
    ensures !NodeInfos.Holds(v.pods, pod.uid)
  {
  }

  lemma PodRemovedSucceeds(s: CacheState, pod: Pod)
    requires Conserving(s) && pod.uid in s.podStates && pod.nodeName in s.nodes
    requires s.podStates[pod.uid].pod.nodeName == pod.nodeName && SameWeights(pod, s.podStates[pod.uid].pod)
    requires RemoveOutcomeOf(s.nodes[pod.nodeName], pod).Removed?
    ensures Conserving(PodRemoved(s, pod).0)
    ensures forall n :: !Held(PodRemoved(s, pod).0, n, pod.uid)
  {
    var n := pod.nodeName;
    var w := RemovePodFrom(s.nodes[n], pod, s.generation + 1);
    EntryRemove(n, s.nodes[n], pod, s.generation + 1, s.podStates);
    TakenIsTouch(s, pod, w);
    TouchedWithout(s, Touch(s, n, w), n, w, pod.uid);
  }

  /** The entry of a stored pod takes a sound value that does not hold it. */
  lemma TouchedWithout(s: CacheState, t: CacheState, n: string, w: NodeView, key: string)
    requires Conserving(s) && key in s.podStates && s.podStates[key].pod.nodeName == n
    requires EntryOk(n, w, s.podStates) && !NodeInfos.Holds(w.pods, key) && t == Touch(s, n, w)
    ensures Conserving(t) && forall m :: !Held(t, m, key)
  {
    TouchConserving(s, n, w);
    HeldNowhere(s, t, n, key);
  }

  lemma PodRemovedFails(s: CacheState, pod: Pod)
    requires Conserving(s) && pod.nodeName in s.nodes && !RemoveOutcomeOf(s.nodes[pod.nodeName], pod).Removed?
    ensures PodRemoved(s, pod).0 == s
  {
    EntryRemoveFails(s.nodes[pod.nodeName], pod, s.generation + 1);
    assert s.nodes[pod.nodeName := s.nodes[pod.nodeName]] == s.nodes;
  }

  /** removePod with the weights of the stored pod: afterwards no entry holds the key, and
      a failure changes nothing. */
  lemma PodRemovedConserving(s: CacheState, pod: Pod)
    requires Conserving(s) && pod.uid in s.podStates
    requires s.podStates[pod.uid].pod.nodeName == pod.nodeName && SameWeights(pod, s.podStates[pod.uid].pod)
    ensures Conserving(PodRemoved(s, pod).0)
    ensures forall n :: !Held(PodRemoved(s, pod).0, n, pod.uid)
    ensures !PodRemoved(s, pod).1.Ok? ==> PodRemoved(s, pod).0 == s
  {
    var n := pod.nodeName;
    if n in s.nodes && RemoveOutcomeOf(s.nodes[n], pod).Removed? {
      PodRemovedSucceeds(s, pod);
    } else {
      if n in s.nodes {
        PodRemovedFails(s, pod);
        NotRemoved(s.nodes[n], pod);
      }
      HeldNowhere(s, s, n, pod.uid);
    }
  }

  // ---- well-formed events ----

  /** What the callers have to supply: a pod that stands in for the stored one weighs the
      same, an update names the stored pod and a node the cache knows. */
  ghost predicate WellFormed(s: CacheState, op: Op) {
    match op
    case Forget(pod) =>
      Assumed(s, pod.uid) ==> SameWeights(pod, s.podStates[pod.uid].pod)
    case Confirm(pod) =>
      Assumed(s, pod.uid) && s.podStates[pod.uid].pod.nodeName == pod.nodeName ==>
        SameWeights(pod, s.podStates[pod.uid].pod)
    case Update(oldPod, newPod) =>
      oldPod.uid in s.podStates ==>
        && newPod.uid == oldPod.uid
        && s.podStates[oldPod.uid].pod.nodeName == oldPod.nodeName
        && SameWeights(oldPod, s.podStates[oldPod.uid].pod)
        && (newPod.nodeName == oldPod.nodeName || newPod.nodeName in s.nodes)
    case _ => true
  }

  lemma NotHeldWithoutState(s: CacheState, key: string)
    requires Conserving(s) && key !in s.podStates
    ensures forall n :: !Held(s, n, key)
  {
    forall n | Held(s, n, key)
      ensures false
    {
      HeldWhereNamed(s, n, key);
    }
  }

  lemma PodAddedNodes(s: CacheState, u: CacheState, pod: Pod)
    requires u.nodes == s.nodes && u.generation == s.generation
    ensures PodAdded(u, pod).nodes == PodAdded(s, pod).nodes
  {
    var v, g := EntryOf(s, pod.nodeName), EntryGeneration(s, pod.nodeName) + 1;
    assert v == EntryOf(u, pod.nodeName) && g == EntryGeneration(u, pod.nodeName) + 1;
    var w := AddPodTo(v, pod, g);
    assert PodAdded(s, pod).nodes == s.nodes[pod.nodeName := w];
  }

  /** Putting a pod whose key no entry holds on its node, with a state of its own. */
  lemma PodPlaced(s: CacheState, t: CacheState, pod: Pod, state: PodState)
    requires Conserving(s) && pod.uid != "" && (forall n :: !Held(s, n, pod.uid)) && state.pod == pod
    requires t.nodes == PodAdded(s, pod).nodes && t.podStates == s.podStates[pod.uid := state]
    ensures Conserving(t)
  {
    var u := s.(podStates := s.podStates[pod.uid := state]);
    StateReplaced(s, u, pod.uid, state);
    assert forall n :: Held(u, n, pod.uid) <==> Held(s, n, pod.uid);
    PodAddedConserving(u, pod);
    PodAddedNodes(s, u, pod);
  }

  lemma AssumeConserving(s: CacheState, pod: Pod)
    requires Conserving(s)
    ensures Conserving(AssumePod(s, pod).0)
  {
    if pod.uid != "" && pod.uid !in s.podStates {
      NotHeldWithoutState(s, pod.uid);
      PodPlaced(s, AssumePod(s, pod).0, pod, PodState(pod, None, false));
    }
  }

  lemma FinishConserving(s: CacheState, pod: Pod, now: int, ttl: int)
    requires Conserving(s)
    ensures Conserving(FinishBinding(s, pod, now, ttl).0)
  {
    if Assumed(s, pod.uid) {
      var state := PodState(s.podStates[pod.uid].pod, Some(now + ttl), true);
      forall n | Held(s, n, pod.uid)
        ensures state.pod.nodeName == n
      {
        HeldWhereNamed(s, n, pod.uid);
      }
      if pod.uid != "" {
        StateReplaced(s, FinishBinding(s, pod, now, ttl).0, pod.uid, state);
      }
    }
  }

  lemma ForgetConserving(s: CacheState, pod: Pod)
    requires Conserving(s) && WellFormed(s, Forget(pod))
    ensures Conserving(ForgetPod(s, pod).0)
  {
    if Assumed(s, pod.uid) && s.podStates[pod.uid].pod.nodeName == pod.nodeName {
      PodRemovedConserving(s, pod);
      var t := PodRemoved(s, pod).0;
      CacheInvariants.PodRemovedKeepsStates(s, pod);
      StateDropped(t, Dropped(t, pod.uid), pod.uid);
    }
  }

  lemma ConfirmConserving(s: CacheState, pod: Pod)
    requires Conserving(s) && WellFormed(s, Confirm(pod))
    ensures Conserving(AddPod(s, pod).0)
  {
    if pod.uid == "" {
    } else if Assumed(s, pod.uid) {
      var held := s.podStates[pod.uid];
      var state := PodState(pod, None, held.bindingFinished);
      if held.pod.nodeName != pod.nodeName {
        PodRemovedConserving(s, held.pod);
        CacheInvariants.PodRemovedKeepsStates(s, held.pod);
        var (t, r) := PodRemoved(s, held.pod);
        if !r.Crashed? {
          PodPlaced(t, AddPod(s, pod).0, pod, state);
        }
      } else {
        forall n | Held(s, n, pod.uid)
          ensures state.pod.nodeName == n
        {
          HeldWhereNamed(s, n, pod.uid);
        }
        StateReplaced(s, AddPod(s, pod).0, pod.uid, state);
      }
    } else if pod.uid !in s.podStates {
      NotHeldWithoutState(s, pod.uid);
      PodPlaced(s, AddPod(s, pod).0, pod, PodState(pod, None, false));
    }
  }

  lemma UpdateConserving(s: CacheState, oldPod: Pod, newPod: Pod)
    requires Conserving(s) && WellFormed(s, Update(oldPod, newPod))
    ensures Conserving(UpdatePod(s, oldPod, newPod).0)
  {
    if oldPod.uid != "" && oldPod.uid in s.podStates && oldPod.uid !in s.assumedPods {
      var key := oldPod.uid;
      var state := s.podStates[key].(pod := newPod);
      var u := UpdatePod(s, oldPod, newPod).0;
      if newPod.nodeName !in s.nodes {
        forall n | Held(s, n, key)
          ensures false
        {
          HeldWhereNamed(s, n, key);
        }
        StateReplaced(s, u, key, state);
      } else {
        PodRemovedConserving(s, oldPod);
        CacheInvariants.PodRemovedKeepsStates(s, oldPod);
        var (t, r) := PodRemoved(s, oldPod);
        if r.Ok? {
          PodPlaced(t, u, newPod, state);
        }
      }
    }
  }

  lemma DeleteConserving(s: CacheState, pod: Pod)
    requires Conserving(s)
    ensures Conserving(RemovePod(s, pod).0)
  {
    if pod.uid in s.podStates {
      var held := s.podStates[pod.uid].pod;
      PodRemovedConserving(s, held);
      CacheInvariants.PodRemovedKeepsStates(s, held);
      var t := PodRemoved(s, held).0;
      StateDropped(t, t.(podStates := t.podStates - {pod.uid}), pod.uid);
    }
  }

  lemma NodeSetConserving(s: CacheState, node: Node)
    requires Conserving(s)
    ensures Conserving(NodeSet(s, node))
  {
    var v, g := EntryOf(s, node.name), EntryGeneration(s, node.name) + 1;
    assert EntryOk(node.name, v, s.podStates) by {
      BlankOk(node.name, s.generation + 1, s.podStates);
    }
    EntrySetNode(node.name, v, node, g, s.podStates);
    TouchConserving(s, node.name, SetNodeOf(v, node, g));
  }

  lemma ExpireConserving(s: CacheState, key: string, now: int)
    requires Conserving(s)
    ensures Conserving(Expire(s, key, now).0)
  {
    if key in s.podStates {
      var held := s.podStates[key].pod;
      PodRemovedConserving(s, held);
      CacheInvariants.PodRemovedKeepsStates(s, held);
      var t := PodRemoved(s, held).0;
      StateDropped(t, Dropped(t, key), key);
    }
  }

  lemma {:induction false} CleanupConserving(s: CacheState, now: int, keys: seq<string>, n: nat)
    requires Conserving(s) && n <= |keys|
    ensures Conserving(Cleanup(s, now, keys, n).0)
  {
    if n > 0 {
      CleanupConserving(s, now, keys, n - 1);
      ExpireConserving(Cleanup(s, now, keys, n - 1).0, keys[n - 1], now);
    }
  }

  /** Every well-formed step keeps each key in one place and each total a sum. */
  lemma StepConserving(s: CacheState, op: Op, ttl: int)
    requires Conserving(s) && WellFormed(s, op)
    ensures Conserving(Step(s, op, ttl).0)
  {
    match op {
      case Assume(pod) => AssumeConserving(s, pod);
      case Finish(pod, now) => FinishConserving(s, pod, now, ttl);
      case Forget(pod) => ForgetConserving(s, pod);
      case Confirm(pod) => ConfirmConserving(s, pod);
      case Update(oldPod, newPod) => UpdateConserving(s, oldPod, newPod);
      case Delete(pod) => DeleteConserving(s, pod);
      case NodeAdded(node) => NodeSetConserving(s, node);
      case NodeUpdated(oldNode, newNode) => NodeSetConserving(s, newNode);
      case NodeRemoved(node) =>
      case CleanupAt(now, visit) => CleanupConserving(s, now, visit, |visit|);
      case GenerationTaken =>
    }
  }

  /** In every run of well-formed events. */
  lemma {:induction false} RunConserving(ops: seq<Op>, n: nat, ttl: int)
    requires n <= |ops|
    requires forall k :: 0 <= k < n ==> WellFormed(Run(ops, k, ttl), ops[k])
    ensures Conserving(Run(ops, n, ttl))
  {
    if n > 0 {
      RunConserving(ops, n - 1, ttl);
      StepConserving(Run(ops, n - 1, ttl), ops[n - 1], ttl);
    }
  }

  /** An update towards a node the cache does not know leaves a pod that is held where it
      is: the invariant survives exactly when no entry holds it, or its node stays. */
  lemma UpdateToUnknownNodeIff(s: CacheState, oldPod: Pod, newPod: Pod)
    requires Conserving(s) && oldPod.uid in s.podStates && oldPod.uid !in s.assumedPods
    requires newPod.uid == oldPod.uid && newPod.nodeName !in s.nodes
    ensures Conserving(UpdatePod(s, oldPod, newPod).0) <==> !Held(s, s.podStates[oldPod.uid].pod.nodeName, oldPod.uid)
  {
    var key, t := oldPod.uid, UpdatePod(s, oldPod, newPod).0;
    var home := s.podStates[key].pod.nodeName;
    if Held(s, home, key) {
      if Conserving(t) {
        HeldWhereNamed(t, home, key);
      }
    } else {
      HeldNowhere(s, s, home, key);
      StateReplaced(s, t, key, s.podStates[key].(pod := newPod));
    }
  }
}
