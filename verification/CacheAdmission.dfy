/** No overcommitment and exact host ports for the entries of the cache, over its whole runs
    (internal/cache/cache.go, framework/plugins/noderesources/fit.go). */
module CacheAdmission {
  import opened Api
  import opened NodeInfos
  import opened Sequences
  import opened CacheModel
  import opened CacheConservation
  import opened Admission
  import CacheInvariants
  import CacheCleanups

  /** The entry of the name, if there is one, is not overcommitted and has its ports right. */
  ghost predicate Fit(s: CacheState, n: string, ignored: set<string>) {
    n in s.nodes ==> Sound(s.nodes[n], ignored)
  }

  /** What the states hold for a pod of the entry is the object that the entry holds, except
      for some keys. */
  ghost predicate OneObject(s: CacheState, n: string, except: set<string>) {
    forall k :: k in s.podStates && k !in except && s.podStates[k].pod.nodeName == n && Held(s, n, k) ==>
      s.podStates[k].pod in s.nodes[n].pods
  }

  /** A pod comes to the entry only if it is admitted there. */
  ghost predicate MayCome(s: CacheState, pod: Pod, n: string, now: int, ignored: set<string>) {
    pod.nodeName == n ==>
      n in s.nodes && Proper(s.nodes[n], Place(pod, now)) && Admitted(s.nodes[n], pod, now, ignored)
  }

  /** A pod leaves the entry as the object that it came as. */
  ghost predicate MayGo(s: CacheState, pod: Pod, n: string) {
    pod.nodeName == n && Held(s, n, pod.uid) ==> pod in s.nodes[n].pods
  }

  /** Neither the generation nor the order of the affinity slice matters. */
  lemma SoundElsewhere(v: NodeView, w: NodeView, ignored: set<string>)
    requires w == v.(generation := w.generation, podsWithAffinity := w.podsWithAffinity)
    ensures Sound(w, ignored) <==> Sound(v, ignored)
  {
  }

  lemma EntryTakes(v: NodeView, pod: Pod, now: int, g: int, ignored: set<string>)
    requires Sound(v, ignored) && Proper(v, Place(pod, now)) && Admitted(v, pod, now, ignored)
    ensures Sound(AddPodTo(v, pod, g), ignored)
  {
    PlaceSound(v, pod, now, ignored);
    SoundElsewhere(AddPodTo(v, pod, v.generation + 1), AddPodTo(v, pod, g), ignored);
  }

  lemma EntryGives(v: NodeView, pod: Pod, g: int, ignored: set<string>)
    requires Sound(v, ignored) && pod in v.pods
    ensures Sound(RemovePodFrom(v, pod, g), ignored)
  {
    var i :| 0 <= i < |v.pods| && v.pods[i] == pod;
    UnplaceSound(v, i, ignored);
    SoundElsewhere(RemovePodFrom(v, pod, v.generation + 1), RemovePodFrom(v, pod, g), ignored);
  }

  lemma ComingFits(s: CacheState, pod: Pod, n: string, now: int, ignored: set<string>)
    requires Fit(s, n, ignored) && MayCome(s, pod, n, now, ignored)
    ensures Fit(PodAdded(s, pod), n, ignored)
  {
    AddedIsTouch(s, pod);
    if pod.nodeName == n {
      EntryTakes(s.nodes[n], pod, now, EntryGeneration(s, n) + 1, ignored);
    }
  }

  lemma GoingFits(s: CacheState, pod: Pod, n: string, ignored: set<string>)
    requires Conserving(s) && Fit(s, n, ignored) && MayGo(s, pod, n)
    ensures Fit(PodRemoved(s, pod).0, n, ignored)
  {
    if pod.nodeName == n && n in s.nodes {
      if RemoveOutcomeOf(s.nodes[n], pod).Removed? {
        TakenIsTouch(s, pod, RemovePodFrom(s.nodes[n], pod, s.generation + 1));
        assert Held(s, n, pod.uid);
        EntryGives(s.nodes[n], pod, s.generation + 1, ignored);
      } else {
        PodRemovedFails(s, pod);
      }
    }
  }

  // ---- the objects that the states hold ----

  lemma ComingKeepsObjects(s: CacheState, pod: Pod, n: string, except: set<string>)
    requires OneObject(s, n, except)
    ensures OneObject(PodAdded(s, pod), n, except + {pod.uid})
    ensures pod.nodeName == n ==> n in PodAdded(s, pod).nodes && pod in PodAdded(s, pod).nodes[n].pods
  {
    var t := PodAdded(s, pod);
    AddedIsTouch(s, pod);
    if pod.nodeName == n {
      var pods := EntryOf(s, n).pods;
      assert t.nodes[n].pods == pods + [pod] && t.podStates == s.podStates;
      forall k | k != pod.uid && Held(t, n, k)
        ensures Held(s, n, k)
      {
        var i :| 0 <= i < |t.nodes[n].pods| && t.nodes[n].pods[i].uid == k;
        assert pods[i].uid == k;
      }
    }
  }

  lemma GoingKeepsObjects(s: CacheState, pod: Pod, n: string, except: set<string>)
    requires Conserving(s) && OneObject(s, n, except)
    ensures OneObject(PodRemoved(s, pod).0, n, except + {pod.uid})
  {
    var t := PodRemoved(s, pod).0;
    CacheInvariants.PodRemovedKeepsStates(s, pod);
    if pod.nodeName == n && n in s.nodes && RemoveOutcomeOf(s.nodes[n], pod).Removed? {
      TakenIsTouch(s, pod, RemovePodFrom(s.nodes[n], pod, s.generation + 1));
      var v, w := s.nodes[n], t.nodes[n];
      var i := Position(v.pods, pod.uid, 0);
      SwapDeleteMultiset(v.pods, i);
      forall k | k in t.podStates && k !in except && k != pod.uid && t.podStates[k].pod.nodeName == n && Held(t, n, k)
        ensures t.podStates[k].pod in w.pods
      {
        CacheCleanups.SwapKeepsKeys(v.pods, i, k);
        assert t.podStates[k].pod in multiset(v.pods);
        assert t.podStates[k].pod in multiset(w.pods);
      }
    } else if pod.nodeName in s.nodes {
      if RemoveOutcomeOf(s.nodes[pod.nodeName], pod).Removed? {
        TakenIsTouch(s, pod, RemovePodFrom(s.nodes[pod.nodeName], pod, s.generation + 1));
      } else {
        PodRemovedFails(s, pod);
      }
    }
  }

  /** The state of a key is set to an object that its entry holds, or to one of another node. */
  lemma StatedObject(s: CacheState, t: CacheState, n: string, key: string, state: PodState)
    requires OneObject(s, n, {key}) && t.nodes == s.nodes && t.podStates == s.podStates[key := state]
    requires state.pod.nodeName == n && Held(s, n, key) ==> state.pod in s.nodes[n].pods
    ensures OneObject(t, n, {})
  {
  }

  lemma UnstatedObject(s: CacheState, t: CacheState, n: string, key: string)
    requires OneObject(s, n, {key}) && t.nodes == s.nodes && t.podStates == s.podStates - {key}
    ensures OneObject(t, n, {})
  {
  }

  // ---- steps ----

  /** What holds of an entry in every run. */
  ghost predicate Good(s: CacheState, n: string, ignored: set<string>) {
    Fit(s, n, ignored) && OneObject(s, n, {})
  }

  lemma StoredMayGo(s: CacheState, key: string, n: string)
    requires Conserving(s) && OneObject(s, n, {}) && key in s.podStates
    ensures MayGo(s, s.podStates[key].pod, n)
  {
  }

  /** A new pod comes, and its state is set. */
  lemma ArrivalGood(s: CacheState, t: CacheState, pod: Pod, state: PodState, n: string, now: int, ignored: set<string>)
    requires Fit(s, n, ignored) && OneObject(s, n, {pod.uid}) && MayCome(s, pod, n, now, ignored)
    requires t.nodes == PodAdded(s, pod).nodes && t.podStates == s.podStates[pod.uid := state] && state.pod == pod
    ensures Good(t, n, ignored)
  {
    ComingFits(s, pod, n, now, ignored);
    ComingKeepsObjects(s, pod, n, {pod.uid});
    AddedIsTouch(s, pod);
    StatedObject(PodAdded(s, pod), t, n, pod.uid, state);
  }

  /** A pod goes, and with it its state. */
  lemma DepartureGood(s: CacheState, t: CacheState, pod: Pod, n: string, ignored: set<string>)
    requires Conserving(s) && Good(s, n, ignored) && MayGo(s, pod, n)
    requires t.nodes == PodRemoved(s, pod).0.nodes && t.podStates == s.podStates - {pod.uid}
    ensures Good(t, n, ignored)
  {
    GoingFits(s, pod, n, ignored);
    GoingKeepsObjects(s, pod, n, {});
    CacheInvariants.PodRemovedKeepsStates(s, pod);
    UnstatedObject(PodRemoved(s, pod).0, t, n, pod.uid);
  }

  /** What the callers supply: pods that come to the entry are admitted, an object that stands
      in for a stored pod of the entry is that pod, and the node fits. */
  ghost predicate Supplied(s: CacheState, op: Op, n: string, now: int, ignored: set<string>) {
    match op
    case Assume(pod) => pod.uid !in s.podStates ==> MayCome(s, pod, n, now, ignored)
    case Forget(pod) => Assumed(s, pod.uid) && pod.nodeName == n ==> pod == s.podStates[pod.uid].pod
    case Confirm(pod) =>
      if Assumed(s, pod.uid) then
        var held := s.podStates[pod.uid].pod;
        if held.nodeName == pod.nodeName then pod.nodeName == n ==> pod == held
        else MayCome(PodRemoved(s, held).0, pod, n, now, ignored)
      else pod.uid !in s.podStates ==> MayCome(s, pod, n, now, ignored)
    case Update(oldPod, newPod) =>
      oldPod.uid in s.podStates ==>
        && (oldPod.nodeName == n ==> oldPod == s.podStates[oldPod.uid].pod)
        && (newPod.nodeName in s.nodes ==> MayCome(PodRemoved(s, oldPod).0, newPod, n, now, ignored))
    case NodeAdded(node) => NodeFits(s, node, n)
    case NodeUpdated(_, newNode) => NodeFits(s, newNode, n)
    case _ => true
  }

  /** A first node has no negative amounts, and a later one no lower amounts. */
  ghost predicate NodeFits(s: CacheState, node: Node, n: string) {
    node.name == n ==>
      if n in s.nodes then Proper(s.nodes[n], Renew(node))
      else forall k :: k in node.allocatable ==> node.allocatable[k] >= 0
  }

  lemma AssumeGood(s: CacheState, pod: Pod, n: string, now: int, ignored: set<string>)
    requires Good(s, n, ignored) && Supplied(s, Assume(pod), n, now, ignored)
    ensures Good(AssumePod(s, pod).0, n, ignored)
  {
    if pod.uid != "" && pod.uid !in s.podStates {
      ArrivalGood(s, AssumePod(s, pod).0, pod, PodState(pod, None, false), n, now, ignored);
    }
  }

  lemma FinishGood(s: CacheState, pod: Pod, at: int, ttl: int, n: string, ignored: set<string>)
    requires Good(s, n, ignored)
    ensures Good(FinishBinding(s, pod, at, ttl).0, n, ignored)
  {
  }

  lemma ForgetGood(s: CacheState, pod: Pod, n: string, now: int, ignored: set<string>)
    requires Conserving(s) && Good(s, n, ignored) && Supplied(s, Forget(pod), n, now, ignored)
    ensures Good(ForgetPod(s, pod).0, n, ignored)
  {
    if Assumed(s, pod.uid) && s.podStates[pod.uid].pod.nodeName == pod.nodeName {
      StoredMayGo(s, pod.uid, n);
      RemovalGood(s, pod, n, ignored);
      if PodRemoved(s, pod).1.Ok? {
        CacheInvariants.PodRemovedKeepsStates(s, pod);
        DepartureGood(s, Dropped(PodRemoved(s, pod).0, pod.uid), pod, n, ignored);
      }
    }
  }

  /** A removal that fails changes nothing. */
  lemma RemovalGood(s: CacheState, pod: Pod, n: string, ignored: set<string>)
    requires Conserving(s) && Good(s, n, ignored)
    ensures !PodRemoved(s, pod).1.Ok? ==> PodRemoved(s, pod).0 == s
  {
    if pod.nodeName in s.nodes && !RemoveOutcomeOf(s.nodes[pod.nodeName], pod).Removed? {
      PodRemovedFails(s, pod);
    }
  }

  lemma DeleteGood(s: CacheState, pod: Pod, n: string, ignored: set<string>)
    requires Conserving(s) && Good(s, n, ignored)
    ensures Good(RemovePod(s, pod).0, n, ignored)
  {
    if pod.uid in s.podStates {
      var held := s.podStates[pod.uid].pod;
      StoredMayGo(s, pod.uid, n);
      RemovalGood(s, held, n, ignored);
      if PodRemoved(s, held).1.Ok? {
        var t := PodRemoved(s, held).0;
        CacheInvariants.PodRemovedKeepsStates(s, held);
        DepartureGood(s, t.(podStates := t.podStates - {pod.uid}), held, n, ignored);
      }
    }
  }

  lemma ExpireGood(s: CacheState, key: string, at: int, n: string, ignored: set<string>)
    requires Conserving(s) && Good(s, n, ignored)
    ensures Good(Expire(s, key, at).0, n, ignored)
  {
    if key in s.podStates {
      var held := s.podStates[key].pod;
      StoredMayGo(s, key, n);
      RemovalGood(s, held, n, ignored);
      if PodRemoved(s, held).1.Ok? {
        CacheInvariants.PodRemovedKeepsStates(s, held);
        DepartureGood(s, Dropped(PodRemoved(s, held).0, key), held, n, ignored);
      }
    }
  }

  lemma {:induction false} CleanupGood(s: CacheState, at: int, keys: seq<string>, i: nat, n: string,
          ignored: set<string>)
    requires Conserving(s) && Good(s, n, ignored) && i <= |keys|
    ensures Good(Cleanup(s, at, keys, i).0, n, ignored)
  {
    if i > 0 {
      CleanupGood(s, at, keys, i - 1, n, ignored);
      CleanupConserving(s, at, keys, i - 1);
      ExpireGood(Cleanup(s, at, keys, i - 1).0, keys[i - 1], at, n, ignored);
    }
  }

  /** A held pod goes and one with its key comes, perhaps on another entry. */
  lemma SwapGood(s: CacheState, t: CacheState, held: Pod, pod: Pod, state: PodState, n: string, now: int,
          ignored: set<string>)
    requires Conserving(s) && Good(s, n, ignored) && MayGo(s, held, n) && held.uid == pod.uid
    requires MayCome(PodRemoved(s, held).0, pod, n, now, ignored)
    requires t.nodes == PodAdded(PodRemoved(s, held).0, pod).nodes
    requires t.podStates == s.podStates[pod.uid := state] && state.pod == pod
    ensures Good(t, n, ignored)
  {
    GoingFits(s, held, n, ignored);
    GoingKeepsObjects(s, held, n, {});
    CacheInvariants.PodRemovedKeepsStates(s, held);
    assert {} + {held.uid} == {pod.uid};
    ArrivalGood(PodRemoved(s, held).0, t, pod, state, n, now, ignored);
  }

  lemma ConfirmAssumedGood(s: CacheState, pod: Pod, n: string, now: int, ignored: set<string>)
    requires Conserving(s) && Good(s, n, ignored) && Supplied(s, Confirm(pod), n, now, ignored)
    requires pod.uid != "" && Assumed(s, pod.uid)
    ensures Good(AddPod(s, pod).0, n, ignored)
  {
    var held, t := s.podStates[pod.uid], AddPod(s, pod).0;
    var state := PodState(pod, None, held.bindingFinished);
    StoredMayGo(s, pod.uid, n);
    if held.pod.nodeName == pod.nodeName {
      StatedObject(s, t, n, pod.uid, state);
    } else {
      RemovalGood(s, held.pod, n, ignored);
      if !PodRemoved(s, held.pod).1.Crashed? {
        CacheInvariants.PodRemovedKeepsStates(s, held.pod);
        AddedIsTouch(PodRemoved(s, held.pod).0, pod);
        SwapGood(s, t, held.pod, pod, state, n, now, ignored);
      }
    }
  }

  lemma ConfirmGood(s: CacheState, pod: Pod, n: string, now: int, ignored: set<string>)
    requires Conserving(s) && Good(s, n, ignored) && Supplied(s, Confirm(pod), n, now, ignored)
    ensures Good(AddPod(s, pod).0, n, ignored)
  {
    if pod.uid != "" {
      if Assumed(s, pod.uid) {
        ConfirmAssumedGood(s, pod, n, now, ignored);
      } else if pod.uid !in s.podStates {
        ArrivalGood(s, AddPod(s, pod).0, pod, PodState(pod, None, false), n, now, ignored);
      }
    }
  }

  lemma UpdateGood(s: CacheState, oldPod: Pod, newPod: Pod, n: string, now: int, ignored: set<string>)
    requires Conserving(s) && Good(s, n, ignored)
    requires WellFormed(s, Update(oldPod, newPod)) && Supplied(s, Update(oldPod, newPod), n, now, ignored)
    ensures Good(UpdatePod(s, oldPod, newPod).0, n, ignored)
  {
    var key := oldPod.uid;
    if key != "" && key in s.podStates && key !in s.assumedPods {
      var t, state := UpdatePod(s, oldPod, newPod).0, s.podStates[key].(pod := newPod);
      StoredMayGo(s, key, n);
      if newPod.nodeName !in s.nodes {
        StatedObject(s, t, n, key, state);
      } else {
        RemovalGood(s, oldPod, n, ignored);
        if PodRemoved(s, oldPod).1.Ok? {
          SwapGood(s, t, oldPod, newPod, state, n, now, ignored);
        }
      }
    }
  }

  lemma NodeSetGood(s: CacheState, t: CacheState, node: Node, n: string, ignored: set<string>)
    requires Good(s, n, ignored) && NodeFits(s, node, n)
    requires t.nodes == NodeSet(s, node).nodes && t.podStates == s.podStates
    ensures Good(t, n, ignored)
  {
    if node.name == n {
      var g := EntryGeneration(s, n) + 1;
      if n in s.nodes {
        var v := s.nodes[n];
        RenewSound(v, node, ignored);
        SoundElsewhere(SetNodeOf(v, node, v.generation + 1), SetNodeOf(v, node, g), ignored);
      } else {
        FreshSound(node, g, ignored);
        SoundElsewhere(SetNodeOf(Blank(g), node, g), SetNodeOf(EntryOf(s, n), node, g), ignored);
      }
      assert t.nodes[n].pods == EntryOf(s, n).pods;
    }
  }

  lemma RenewSound(v: NodeView, node: Node, ignored: set<string>)
    requires Sound(v, ignored) && Proper(v, Renew(node))
    ensures Sound(SetNodeOf(v, node, v.generation + 1), ignored)
  {
  }

  lemma StepGood(s: CacheState, op: Op, ttl: int, n: string, now: int, ignored: set<string>)
    requires Conserving(s) && Good(s, n, ignored) && WellFormed(s, op) && Supplied(s, op, n, now, ignored)
    ensures Good(Step(s, op, ttl).0, n, ignored)
  {
    match op {
      case Assume(pod) => AssumeGood(s, pod, n, now, ignored);
      case Finish(pod, at) => FinishGood(s, pod, at, ttl, n, ignored);
      case Forget(pod) => ForgetGood(s, pod, n, now, ignored);
      case Confirm(pod) => ConfirmGood(s, pod, n, now, ignored);
      case Update(oldPod, newPod) => UpdateGood(s, oldPod, newPod, n, now, ignored);
      case Delete(pod) => DeleteGood(s, pod, n, ignored);
      case NodeAdded(node) => NodeSetGood(s, AddNode(s, node).0, node, n, ignored);
      case NodeUpdated(oldNode, newNode) => NodeSetGood(s, UpdateNode(s, oldNode, newNode).0, newNode, n, ignored);
      case NodeRemoved(node) =>
      case CleanupAt(at, visit) => CleanupGood(s, at, visit, |visit|, n, ignored);
      case GenerationTaken =>
    }
  }

  // ---- runs ----

  /** Each of the first k operations is well-formed and supplied where it happens, at the
      times given. */
  ghost predicate AllSupplied(ops: seq<Op>, nows: seq<int>, k: nat, ttl: int, n: string, ignored: set<string>)
    requires k <= |ops| && k <= |nows|
  {
    k > 0 ==>
      && AllSupplied(ops, nows, k - 1, ttl, n, ignored)
      && WellFormed(Run(ops, k - 1, ttl), ops[k - 1])
      && Supplied(Run(ops, k - 1, ttl), ops[k - 1], n, nows[k - 1], ignored)
  }

  /** If pods only come to a node when the checks admit them, its entry in the cache is never
      overcommitted, and its used ports are exactly those of its pods, whatever else happens
      in the cache. */
  lemma {:induction false} RunFits(ops: seq<Op>, nows: seq<int>, k: nat, ttl: int, n: string, ignored: set<string>)
    requires k <= |ops| && k <= |nows| && AllSupplied(ops, nows, k, ttl, n, ignored)
    ensures Conserving(Run(ops, k, ttl)) && Good(Run(ops, k, ttl), n, ignored)
  {
    if k > 0 {
      RunFits(ops, nows, k - 1, ttl, n, ignored);
      StepConserving(Run(ops, k - 1, ttl), ops[k - 1], ttl);
      StepGood(Run(ops, k - 1, ttl), ops[k - 1], ttl, n, nows[k - 1], ignored);
    }
  }
}
