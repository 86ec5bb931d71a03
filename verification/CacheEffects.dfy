/** What each operation of the cache does, in terms of the pods and nodes that the entries
    hold (internal/cache/cache.go). */
module CacheEffects {
  import opened Api
  import opened NodeInfos
  import opened Sequences
  import Resources
  import NodeTrees
  import opened CacheModel
  import opened CacheInvariants
  import opened CacheConservation
  import CacheCleanups

  /** The pods on the entry of a node, none when there is no entry. */
  ghost function PodsOn(s: CacheState, n: string): multiset<Pod> {
    if n in s.nodes then multiset(s.nodes[n].pods) else multiset{}
  }

  /** The node of an entry; a placeholder has none. */
  function NodeOn(s: CacheState, n: string): Option<Node> { if n in s.nodes then s.nodes[n].node else None }

  /** Every pod with the key has left, the pods that come have joined, and all others are
      still there, each as often. */
  ghost predicate Exchanged(before: multiset<Pod>, after: multiset<Pod>, key: string, come: multiset<Pod>) {
    forall p: Pod :: after[p] == if p.uid == key then come[p] else before[p]
  }

  ghost function Coming(placed: Option<Pod>, n: string): multiset<Pod> {
    if placed.Some? && n == placed.value.nodeName then multiset{placed.value} else multiset{}
  }

  /** On every entry the pods with the key are gone and the pod placed has joined its own; all
      other pods and all nodes are where they were. */
  ghost predicate KeyMoved(s: CacheState, t: CacheState, key: string, placed: Option<Pod>) {
    && (forall n :: Exchanged(PodsOn(s, n), PodsOn(t, n), key, Coming(placed, n)))
    && (forall n :: NodeOn(t, n) == NodeOn(s, n))
    && t.nodes.Keys == s.nodes.Keys + if placed.Some? then {placed.value.nodeName} else {}
  }

  /** A stored pod can be taken out: its entry holds it, or is gone. */
  predicate Removable(s: CacheState, pod: Pod) { pod.nodeName !in s.nodes || Held(s, pod.nodeName, pod.uid) }

  /** What a removal from an entry that does not hold the pod comes to. */
  function Missed(s: CacheState, pod: Pod): Outcome {
    if NodeOn(s, pod.nodeName).Some? then Failed(PodNotOnNode) else Crashed
  }

  // ---- addPod and removePod ----

  lemma NotHeldStays(s: CacheState, n: string, key: string)
    requires !Held(s, n, key)
    ensures Exchanged(PodsOn(s, n), PodsOn(s, n), key, multiset{})
  {
    forall p: Pod | p.uid == key
      ensures PodsOn(s, n)[p] == 0
    {
      assert n in s.nodes && p in s.nodes[n].pods ==> Held(s, n, key);
    }
  }

  /** A swap-deletion from a list without repeated keys. */
  lemma TakenExchanged(pods: seq<Pod>, i: nat)
    requires DistinctKeys(pods) && i < |pods|
    ensures Exchanged(multiset(pods), multiset(SwapDelete(pods, i)), pods[i].uid, multiset{})
  {
    SwapDeleteMultiset(pods, i);
    SwapDeleteDistinct(pods, i);
    forall p: Pod | p.uid == pods[i].uid
      ensures multiset(SwapDelete(pods, i))[p] == 0
    {
      assert p !in SwapDelete(pods, i);
    }
  }

  lemma PutExchanged(pods: seq<Pod>, pod: Pod)
    requires !NodeInfos.Holds(pods, pod.uid)
    ensures Exchanged(multiset(pods), multiset(pods + [pod]), pod.uid, multiset{pod})
  {
    forall p: Pod | p.uid == pod.uid
      ensures multiset(pods)[p] == 0
    {
      assert p !in pods;
    }
  }

  /** Only entry n changes. */
  ghost predicate SameElsewhere(s: CacheState, t: CacheState, n: string) {
    forall m :: m != n ==> (m in t.nodes <==> m in s.nodes) && (m in s.nodes ==> t.nodes[m] == s.nodes[m])
  }

  lemma StaysElsewhere(s: CacheState, t: CacheState, n: string, m: string, key: string)
    requires SameElsewhere(s, t, n) && m != n && !Held(s, m, key)
    ensures NodeOn(t, m) == NodeOn(s, m) && Exchanged(PodsOn(s, m), PodsOn(t, m), key, multiset{})
  {
    NotHeldStays(s, m, key);
    assert PodsOn(t, m) == PodsOn(s, m);
  }

  /** Only entry n changes, and no other one holds the key. */
  lemma OneEntryMoves(s: CacheState, t: CacheState, n: string, key: string, placed: Option<Pod>)
    requires placed.Some? ==> placed.value.nodeName == n
    requires t.nodes.Keys == s.nodes.Keys + if placed.Some? then {n} else {}
    requires SameElsewhere(s, t, n) && forall m :: m != n ==> !Held(s, m, key)
    requires NodeOn(t, n) == NodeOn(s, n) && Exchanged(PodsOn(s, n), PodsOn(t, n), key, Coming(placed, n))
    ensures KeyMoved(s, t, key, placed)
  {
    forall m | m != n
      ensures Exchanged(PodsOn(s, m), PodsOn(t, m), key, Coming(placed, m)) && NodeOn(t, m) == NodeOn(s, m)
    {
      StaysElsewhere(s, t, n, m, key);
    }
  }

  lemma HeldOnlyAt(s: CacheState, n: string, key: string)
    requires Conserving(s) && key in s.podStates && s.podStates[key].pod.nodeName == n
    ensures forall m :: m != n ==> !Held(s, m, key)
  {
    forall m | Held(s, m, key)
      ensures m == n
    {
      HeldWhereNamed(s, m, key);
    }
  }

  /** removePod of a stored pod that can be taken out. */
  lemma PodTaken(s: CacheState, pod: Pod)
    requires Conserving(s) && pod.uid in s.podStates && s.podStates[pod.uid].pod.nodeName == pod.nodeName
    requires Removable(s, pod)
    ensures PodRemoved(s, pod).1 == Ok && KeyMoved(s, PodRemoved(s, pod).0, pod.uid, None)
  {
    var n := pod.nodeName;
    HeldOnlyAt(s, n, pod.uid);
    if n in s.nodes {
      PodTakenFrom(s, pod, s.nodes[n]);
    } else {
      NotHeldStays(s, n, pod.uid);
    }
    OneEntryMoves(s, PodRemoved(s, pod).0, n, pod.uid, None);
  }

  lemma PodTakenFrom(s: CacheState, pod: Pod, v: NodeView)
    requires pod.uid != "" && pod.nodeName in s.nodes && v == s.nodes[pod.nodeName] && DistinctKeys(v.pods)
    requires NodeInfos.Holds(v.pods, pod.uid)
    ensures PodRemoved(s, pod).1 == Ok
    ensures var n, t := pod.nodeName, PodRemoved(s, pod).0;
            && t.nodes == s.nodes[n := t.nodes[n]] && t.nodes[n].node == v.node
            && Exchanged(multiset(v.pods), multiset(t.nodes[n].pods), pod.uid, multiset{})
  {
    var w, i := RemovePodFrom(v, pod, s.generation + 1), Position(v.pods, pod.uid, 0);
    RemoveKeepsNode(v, pod, s.generation + 1);
    TakenIsTouch(s, pod, w);
    TakenExchanged(v.pods, i);
  }

  /** removePod of a pod that its entry does not hold. */
  lemma PodMissed(s: CacheState, pod: Pod)
    requires Conserving(s) && pod.uid != "" && !Removable(s, pod)
    ensures PodRemoved(s, pod) == (s, Missed(s, pod))
  {
    PodRemovedFails(s, pod);
  }

  /** addPod of a pod that no entry holds. */
  lemma PodPut(s: CacheState, pod: Pod)
    requires forall n :: !Held(s, n, pod.uid)
    ensures KeyMoved(s, PodAdded(s, pod), pod.uid, Some(pod))
  {
    var n := pod.nodeName;
    var v := EntryOf(s, n);
    AddedIsTouch(s, pod);
    AddKeepsNode(v, pod, EntryGeneration(s, n) + 1);
    assert !Held(s, n, pod.uid);
    PutExchanged(v.pods, pod);
    OneEntryMoves(s, PodAdded(s, pod), n, pod.uid, Some(pod));
  }

  lemma ExchangedTwice(a: multiset<Pod>, b: multiset<Pod>, c: multiset<Pod>, key: string, come: multiset<Pod>)
    requires Exchanged(a, b, key, multiset{}) && Exchanged(b, c, key, come)
    ensures Exchanged(a, c, key, come)
  {
  }

  lemma MovedTwice(s: CacheState, t: CacheState, u: CacheState, key: string, placed: Option<Pod>)
    requires KeyMoved(s, t, key, None) && KeyMoved(t, u, key, placed)
    ensures KeyMoved(s, u, key, placed)
  {
    forall n
      ensures Exchanged(PodsOn(s, n), PodsOn(u, n), key, Coming(placed, n))
    {
      ExchangedTwice(PodsOn(s, n), PodsOn(t, n), PodsOn(u, n), key, Coming(placed, n));
    }
  }

  // ---- the pod operations ----

  /** A new pod joins the entry of its node and is assumed. */
  lemma AssumeAdds(s: CacheState, pod: Pod)
    requires Conserving(s) && pod.uid != "" && pod.uid !in s.podStates
    ensures var (t, r) := AssumePod(s, pod);
            && r == Ok && KeyMoved(s, t, pod.uid, Some(pod))
            && t.podStates == s.podStates[pod.uid := PodState(pod, None, false)]
            && t.assumedPods == s.assumedPods + {pod.uid} && t.tree == s.tree
  {
    NotHeldWithoutState(s, pod.uid);
    PodPut(s, pod);
  }

  /** The only change is that the binding of an assumed pod is marked and its time to live
      starts. */
  lemma FinishStarts(s: CacheState, pod: Pod, now: int, ttl: int)
    requires pod.uid != ""
    ensures var (t, r) := FinishBinding(s, pod, now, ttl);
            && r == Ok && (!Assumed(s, pod.uid) ==> t == s)
            && t == s.(podStates := t.podStates)
            && (Assumed(s, pod.uid) ==>
                  t.podStates == s.podStates[pod.uid := PodState(s.podStates[pod.uid].pod, Some(now + ttl), true)])
  {
  }

  /** A forgotten pod leaves its entry and its state; if its entry does not hold it nothing
      changes. */
  lemma ForgetTakesOut(s: CacheState, pod: Pod)
    requires Conserving(s) && Assumed(s, pod.uid) && s.podStates[pod.uid].pod.nodeName == pod.nodeName
    ensures var (t, r) := ForgetPod(s, pod);
            if Removable(s, pod) then
              && r == Ok && KeyMoved(s, t, pod.uid, None)
              && t.podStates == s.podStates - {pod.uid} && t.assumedPods == s.assumedPods - {pod.uid}
            else (t, r) == (s, Missed(s, pod))
  {
    PodRemovedKeepsStates(s, pod);
    if Removable(s, pod) {
      PodTaken(s, pod);
    } else {
      PodMissed(s, pod);
    }
  }

  /** An assumed pod that is confirmed is no longer assumed and has no deadline, and its state
      has the object confirmed. On the node it was assumed on nothing else changes. */
  lemma ConfirmSettles(s: CacheState, pod: Pod)
    requires pod.uid != "" && Assumed(s, pod.uid) && !AddPod(s, pod).1.Crashed?
    ensures var (t, r) := AddPod(s, pod);
            && r == Ok && t.assumedPods == s.assumedPods - {pod.uid}
            && t.podStates == s.podStates[pod.uid := PodState(pod, None, s.podStates[pod.uid].bindingFinished)]
            && (s.podStates[pod.uid].pod.nodeName == pod.nodeName ==>
                  t.nodes == s.nodes && t.order == s.order && t.generation == s.generation)
  {
    PodRemovedKeepsStates(s, s.podStates[pod.uid].pod);
  }

  lemma NoneHolds(before: multiset<Pod>, pods: seq<Pod>, key: string)
    requires Exchanged(before, multiset(pods), key, multiset{})
    ensures !NodeInfos.Holds(pods, key)
  {
    forall i | 0 <= i < |pods|
      ensures pods[i].uid != key
    {
      assert pods[i] in multiset(pods);
    }
  }

  lemma GoneEverywhere(s: CacheState, t: CacheState, key: string)
    requires KeyMoved(s, t, key, None)
    ensures forall n :: !Held(t, n, key)
  {
    forall n | n in t.nodes
      ensures !Held(t, n, key)
    {
      assert Exchanged(PodsOn(s, n), PodsOn(t, n), key, Coming(None, n));
      NoneHolds(PodsOn(s, n), t.nodes[n].pods, key);
    }
  }

  /** A stored pod is taken out and another object with its key is put in. */
  lemma TakenThenPut(s: CacheState, oldPod: Pod, newPod: Pod, t: CacheState)
    requires Conserving(s) && newPod.uid == oldPod.uid && oldPod.uid in s.podStates
    requires s.podStates[oldPod.uid].pod.nodeName == oldPod.nodeName
    requires Removable(s, oldPod) && t == PodRemoved(s, oldPod).0
    ensures PodRemoved(s, oldPod).1 == Ok && KeyMoved(s, PodAdded(t, newPod), newPod.uid, Some(newPod))
  {
    PodTaken(s, oldPod);
    GoneEverywhere(s, t, newPod.uid);
    PodPut(t, newPod);
    MovedTwice(s, t, PodAdded(t, newPod), newPod.uid, Some(newPod));
  }

  lemma PodMovedMoves(s: CacheState, held: Pod, pod: Pod)
    requires Conserving(s) && pod.uid == held.uid && held.uid in s.podStates && s.podStates[held.uid].pod == held
    ensures var (t, r) := PodMoved(s, held, pod);
            if !Removable(s, held) && NodeOn(s, held.nodeName).None? then (t, r) == (s, Crashed)
            else r == Ok && KeyMoved(s, t, pod.uid, Some(pod))
  {
    if Removable(s, held) {
      TakenThenPut(s, held, pod, PodRemoved(s, held).0);
    } else {
      PodMissed(s, held);
      HeldOnlyAt(s, held.nodeName, pod.uid);
      PodPut(s, pod);
    }
  }

  /** On another node it moves there, whether the entry it was assumed on held it or not. */
  lemma ConfirmMoves(s: CacheState, pod: Pod)
    requires Conserving(s) && Assumed(s, pod.uid) && s.podStates[pod.uid].pod.nodeName != pod.nodeName
    ensures var (held, (t, r)) := (s.podStates[pod.uid].pod, AddPod(s, pod));
            if !Removable(s, held) && NodeOn(s, held.nodeName).None? then (t, r) == (s, Crashed)
            else r == Ok && KeyMoved(s, t, pod.uid, Some(pod))
  {
    var held := s.podStates[pod.uid].pod;
    PodMovedMoves(s, held, pod);
    if PodMoved(s, held, pod).1.Ok? {
      MovedByEntries(s, PodMoved(s, held, pod).0, AddPod(s, pod).0, pod.uid, Some(pod));
    }
  }

  /** The states of pods do not matter to the entries. */
  lemma MovedByEntries(s: CacheState, t: CacheState, u: CacheState, key: string, placed: Option<Pod>)
    requires KeyMoved(s, t, key, placed) && u.nodes == t.nodes
    ensures KeyMoved(s, u, key, placed)
  {
    forall n
      ensures Exchanged(PodsOn(s, n), PodsOn(u, n), key, Coming(placed, n)) && NodeOn(u, n) == NodeOn(s, n)
    {
      assert Exchanged(PodsOn(s, n), PodsOn(t, n), key, Coming(placed, n));
      assert NodeOn(t, n) == NodeOn(s, n);
    }
  }

  /** A pod the cache does not know joins as an added one. */
  lemma ConfirmAdds(s: CacheState, pod: Pod)
    requires Conserving(s) && pod.uid != "" && pod.uid !in s.podStates
    ensures var (t, r) := AddPod(s, pod);
            && r == Ok && KeyMoved(s, t, pod.uid, Some(pod)) && t.assumedPods == s.assumedPods
            && t.podStates == s.podStates[pod.uid := PodState(pod, None, false)]
  {
    NotHeldWithoutState(s, pod.uid);
    PodPut(s, pod);
  }

  /** The new object takes the place of the old one on the entries and in the state. */
  lemma UpdateReplaces(s: CacheState, oldPod: Pod, newPod: Pod)
    requires Conserving(s) && WellFormed(s, Update(oldPod, newPod))
    requires oldPod.uid in s.podStates && oldPod.uid !in s.assumedPods && newPod.nodeName in s.nodes
    ensures var (t, r) := UpdatePod(s, oldPod, newPod);
            if Removable(s, oldPod) then
              && r == Ok && KeyMoved(s, t, newPod.uid, Some(newPod))
              && newPod.nodeName in t.nodes && newPod in t.nodes[newPod.nodeName].pods
            else (t, r) == (s, Missed(s, oldPod))
  {
    if Removable(s, oldPod) {
      var t := PodRemoved(s, oldPod).0;
      TakenThenPut(s, oldPod, newPod, t);
      MovedByEntries(s, PodAdded(t, newPod), UpdatePod(s, oldPod, newPod).0, newPod.uid, Some(newPod));
      PlacedIsThere(s, PodAdded(t, newPod), newPod);
    } else {
      PodMissed(s, oldPod);
    }
  }

  lemma PlacedIsThere(s: CacheState, t: CacheState, pod: Pod)
    requires KeyMoved(s, t, pod.uid, Some(pod))
    ensures pod.nodeName in t.nodes && pod in t.nodes[pod.nodeName].pods
  {
    var n := pod.nodeName;
    assert Exchanged(PodsOn(s, n), PodsOn(t, n), pod.uid, Coming(Some(pod), n));
    assert PodsOn(t, n)[pod] == 1;
  }

  /** What an update that goes through does to the states, whatever the entries are. */
  lemma UpdateRestates(s: CacheState, oldPod: Pod, newPod: Pod)
    requires oldPod.uid != "" && oldPod.uid in s.podStates && oldPod.uid !in s.assumedPods
    ensures var (key, (t, r)) := (oldPod.uid, UpdatePod(s, oldPod, newPod));
            && t.assumedPods == s.assumedPods
            && t.podStates == (if r == Ok then s.podStates[key := PodState(newPod, s.podStates[key].deadline,
                                                                           s.podStates[key].bindingFinished)]
                               else s.podStates)
            && (newPod.nodeName !in s.nodes ==> r == Ok && t.nodes == s.nodes && t.order == s.order)
  {
    PodRemovedKeepsStates(s, oldPod);
  }

  /** A deleted pod leaves its entry and its state; if its entry does not hold it nothing
      changes. */
  lemma DeleteTakesOut(s: CacheState, pod: Pod)
    requires Conserving(s) && pod.uid in s.podStates && pod.uid !in s.assumedPods
    requires s.podStates[pod.uid].pod.nodeName == pod.nodeName
    ensures var (t, r) := RemovePod(s, pod);
            if Removable(s, pod) then
              && r == Ok && KeyMoved(s, t, pod.uid, None)
              && t.podStates == s.podStates - {pod.uid} && t.assumedPods == s.assumedPods
            else (t, r) == (s, Missed(s, pod))
  {
    var held := s.podStates[pod.uid].pod;
    PodRemovedKeepsStates(s, held);
    if Removable(s, pod) {
      PodTaken(s, held);
    } else {
      PodMissed(s, held);
    }
  }

  /** The calls that are refused, each with its error. */
  function Refusal(s: CacheState, op: Op): Option<Outcome> {
    match op
    case Assume(pod) =>
      if pod.uid == "" then Some(Failed(EmptyUID))
      else if pod.uid in s.podStates then Some(Failed(PodInCache)) else None
    case Finish(pod, _) => if pod.uid == "" then Some(Failed(EmptyUID)) else None
    case Forget(pod) =>
      if pod.uid == "" then Some(Failed(EmptyUID))
      else if pod.uid in s.podStates && s.podStates[pod.uid].pod.nodeName != pod.nodeName
      then Some(Failed(AssignedElsewhere))
      else if pod.uid in s.podStates && pod.uid in s.assumedPods then None else Some(Failed(NotAssumed))
    case Confirm(pod) =>
      if pod.uid == "" then Some(Failed(EmptyUID))
      else if pod.uid in s.podStates && pod.uid !in s.assumedPods then Some(Failed(AlreadyAdded)) else None
    case Update(oldPod, _) =>
      if oldPod.uid == "" then Some(Failed(EmptyUID))
      else if oldPod.uid in s.podStates && oldPod.uid !in s.assumedPods then None else Some(Failed(NotAdded))
    case Delete(pod) =>
      if pod.uid == "" then Some(Failed(EmptyUID))
      else if pod.uid !in s.podStates || pod.uid in s.assumedPods then Some(Failed(NotAdded))
      else if s.podStates[pod.uid].pod.nodeName != pod.nodeName then Some(Crashed) else None
    case _ => None
  }

  /** A refused call changes nothing. */
  lemma RefusedLeaves(s: CacheState, op: Op, ttl: int)
    requires Refusal(s, op).Some?
    ensures Step(s, op, ttl) == (s, Refusal(s, op).value)
  {
  }

  // ---- the expiry ----

  /** Assumed, its binding finished, and past its deadline. */
  predicate Due(s: CacheState, key: string, now: int) {
    && key in s.assumedPods && key in s.podStates && s.podStates[key].bindingFinished
    && s.podStates[key].deadline.Some? && now > s.podStates[key].deadline.value
  }

  /** A cleanup at this time takes the pod out if it comes to it. */
  predicate Expires(s: CacheState, key: string, now: int) { Due(s, key, now) && Removable(s, s.podStates[key].pod) }

  /** The key leaves its entry and its state. */
  ghost predicate KeyDropped(s: CacheState, t: CacheState, key: string) {
    && KeyMoved(s, t, key, None)
    && t.podStates == s.podStates - {key} && t.assumedPods == s.assumedPods - {key}
  }

  /** One turn of the cleanup. */
  lemma ExpireDrops(s: CacheState, key: string, now: int)
    requires Machine(s) && Conserving(s)
    ensures var (t, r) := Expire(s, key, now);
            if Expires(s, key, now) then r == Ok && KeyDropped(s, t, key)
            else t == s && (r != Ok <==> Doomed(s, key, now))
  {
    if Due(s, key, now) {
      var held := s.podStates[key].pod;
      PodRemovedKeepsStates(s, held);
      if Removable(s, held) {
        PodTaken(s, held);
      } else {
        PodMissed(s, held);
      }
    }
  }

  /** The pods with other keys stay, each as often. */
  ghost predicate OthersLeft(before: multiset<Pod>, after: multiset<Pod>, keys: set<string>) {
    forall p: Pod :: after[p] == if p.uid in keys then 0 else before[p]
  }

  /** All these keys leave their entries and their states. */
  ghost predicate AllDropped(s: CacheState, t: CacheState, keys: set<string>) {
    && (forall m :: OthersLeft(PodsOn(s, m), PodsOn(t, m), keys))
    && (forall m :: NodeOn(t, m) == NodeOn(s, m)) && t.nodes.Keys == s.nodes.Keys
    && t.podStates == s.podStates - keys && t.assumedPods == s.assumedPods - keys
  }

  lemma OneMoreDropped(s: CacheState, t: CacheState, u: CacheState, keys: set<string>, key: string)
    requires AllDropped(s, t, keys) && KeyDropped(t, u, key)
    ensures AllDropped(s, u, keys + {key})
  {
    forall m
      ensures OthersLeft(PodsOn(s, m), PodsOn(u, m), keys + {key})
    {
      assert OthersLeft(PodsOn(s, m), PodsOn(t, m), keys);
      assert Exchanged(PodsOn(t, m), PodsOn(u, m), key, Coming(None, m));
    }
  }

  lemma OthersHeld(before: seq<Pod>, after: seq<Pod>, keys: set<string>, key: string)
    requires OthersLeft(multiset(before), multiset(after), keys) && key !in keys
    ensures NodeInfos.Holds(before, key) <==> NodeInfos.Holds(after, key)
  {
    if i :| 0 <= i < |before| && before[i].uid == key {
      assert before[i] in multiset(before);
      assert before[i] in multiset(after);
    }
    if i :| 0 <= i < |after| && after[i].uid == key {
      assert after[i] in multiset(after);
      assert after[i] in multiset(before);
    }
  }

  lemma OthersExpire(s: CacheState, t: CacheState, keys: set<string>, key: string, now: int)
    requires Conserving(s) && AllDropped(s, t, keys)
    ensures Expires(t, key, now) <==> Expires(s, key, now) && key !in keys
  {
    if key in s.podStates && key !in keys {
      var n := s.podStates[key].pod.nodeName;
      if n in s.nodes {
        assert OthersLeft(PodsOn(s, n), PodsOn(t, n), keys);
        OthersHeld(s.nodes[n].pods, t.nodes[n].pods, keys, key);
      }
    }
  }

  /** The keys among the first n visited that a cleanup takes out. */
  ghost function Expiring(s: CacheState, now: int, keys: seq<string>, n: nat): set<string>
    requires n <= |keys|
  {
    set k | k in keys[..n] && Expires(s, k, now)
  }

  /** A cleanup that does not crash takes out exactly the pods it visits that are due and can
      be taken out; every other pod stays where it is, with its state. */
  lemma {:induction false} CleanupDrops(s: CacheState, now: int, keys: seq<string>, n: nat)
    requires Machine(s) && Conserving(s) && n <= |keys| && !Cleanup(s, now, keys, n).1.Crashed?
    ensures AllDropped(s, Cleanup(s, now, keys, n).0, Expiring(s, now, keys, n))
  {
    if n > 0 {
      var t, key, gone := Cleanup(s, now, keys, n - 1).0, keys[n - 1], Expiring(s, now, keys, n - 1);
      CleanupDrops(s, now, keys, n - 1);
      CacheCleanups.CleanupCrashesAt(s, now, keys, n - 1);
      ExpireDrops(t, key, now);
      OthersExpire(s, t, gone, key, now);
      assert keys[..n] == keys[..n - 1] + [key];
      if Expires(t, key, now) {
        OneMoreDropped(s, t, Expire(t, key, now).0, gone, key);
        assert Expiring(s, now, keys, n) == gone + {key};
      } else {
        assert Expiring(s, now, keys, n) == gone;
      }
    }
  }

  // ---- the node operations ----

  /** The entry of the node has it now; no pod moves, and no state changes. */
  ghost predicate NodeStands(s: CacheState, t: CacheState, node: Node) {
    && (forall m :: NodeOn(t, m) == if m == node.name then Some(node) else NodeOn(s, m))
    && (forall m :: PodsOn(t, m) == PodsOn(s, m))
    && t.nodes.Keys == s.nodes.Keys + {node.name}
    && t.nodes[node.name].allocatable == Resources.AddList(map[], node.allocatable)
    && t.podStates == s.podStates && t.assumedPods == s.assumedPods
  }

  lemma AddNodeStands(s: CacheState, node: Node)
    ensures AddNode(s, node).1 == Ok && NodeStands(s, AddNode(s, node).0, node)
  {
  }

  lemma UpdateNodeStands(s: CacheState, oldNode: Node, newNode: Node)
    ensures UpdateNode(s, oldNode, newNode).1 == Ok && NodeStands(s, UpdateNode(s, oldNode, newNode).0, newNode)
  {
  }

  /** The entry of a removed node goes with its pods, whose states stay; a name without an
      entry is refused. */
  lemma RemoveNodeDrops(s: CacheState, node: Node)
    ensures var (t, r) := RemoveNode(s, node);
            if node.name in s.nodes then
              && (forall m :: NodeOn(t, m) == if m == node.name then None else NodeOn(s, m))
              && (forall m :: PodsOn(t, m) == if m == node.name then multiset{} else PodsOn(s, m))
              && t.nodes.Keys == s.nodes.Keys - {node.name}
              && t.podStates == s.podStates && t.assumedPods == s.assumedPods
              && r == if (node.zone, node.name) in NodeTrees.Members(s.tree) then Ok else Failed(NodeNotInTree)
            else (t, r) == (s, Failed(NodeUnknown))
  {
  }

  /** What the operations do to the zone tree: a new node joins it, a changed zone moves the
      node, a removed node leaves it, and nothing else touches it. */
  ghost function TreeMembers(s: CacheState, op: Op): set<(string, string)> {
    var members := NodeTrees.Members(s.tree);
    match op
    case NodeAdded(node) => members + {(node.zone, node.name)}
    case NodeUpdated(oldNode, newNode) =>
      var known := if newNode.name in s.nodes then members else members + {(newNode.zone, newNode.name)};
      if oldNode.zone == newNode.zone then known
      else known - {(oldNode.zone, oldNode.name)} + {(newNode.zone, newNode.name)}
    case NodeRemoved(node) => if node.name in s.nodes then members - {(node.zone, node.name)} else members
    case _ => members
  }

  lemma StepMembers(s: CacheState, op: Op, ttl: int)
    requires NodeTrees.TreeValid(s.tree)
    ensures NodeTrees.Members(Step(s, op, ttl).0.tree) == TreeMembers(s, op)
  {
    match op {
      case NodeAdded(node) => NodeTrees.AddedNodeValid(s.tree, node.zone, node.name);
      case NodeUpdated(oldNode, newNode) =>
        NodeTrees.AddedNodeValid(s.tree, newNode.zone, newNode.name);
        var t := if newNode.name in s.nodes then s.tree
          else NodeTrees.AddedNode(s.tree, newNode.zone, newNode.name);
        NodeTrees.UpdatedNodeValid(t, oldNode.zone, newNode.zone, oldNode.name, newNode.name);
      case NodeRemoved(node) => NodeTrees.RemovedNodeValid(s.tree, node.zone, node.name);
      case _ => PodStepKeepsTree(s, op, ttl);
    }
  }

  /** A generation is taken by every change of an entry, and one more by a new entry; the entry
      has the last one. */
  lemma GenerationsTaken(s: CacheState, pod: Pod, node: Node)
    ensures var t := PodAdded(s, pod);
            && t.generation == s.generation + (if pod.nodeName in s.nodes then 1 else 2)
            && t.nodes[pod.nodeName].generation == t.generation
    ensures var t := NodeSet(s, node);
            && t.generation == s.generation + (if node.name in s.nodes then 1 else 2)
            && t.nodes[node.name].generation == t.generation
    ensures var (t, r) := PodRemoved(s, pod);
            t.generation == s.generation + if r == Ok && pod.nodeName in s.nodes then 1 else 0
  {
    AddedIsTouch(s, pod);
  }

  // ---- confirmed pods stay ----

  /** Only AssumePod makes a pod assumed. */
  lemma OnlyAssumeAssumes(s: CacheState, op: Op, ttl: int, k: string)
    requires k !in s.assumedPods && !(op.Assume? && op.pod.uid == k)
    ensures k !in Step(s, op, ttl).0.assumedPods
  {
    match op {
      case Forget(pod) => PodRemovedKeepsStates(s, pod);
      case Confirm(pod) =>
        if pod.uid in s.podStates {
          PodRemovedKeepsStates(s, s.podStates[pod.uid].pod);
        }
      case Update(oldPod, newPod) => PodRemovedKeepsStates(s, oldPod);
      case Delete(pod) =>
        if pod.uid in s.podStates {
          PodRemovedKeepsStates(s, s.podStates[pod.uid].pod);
        }
      case CleanupAt(now, visit) => CleanupAddsNothing(s, now, visit, |visit|);
      case _ =>
    }
  }

  lemma ConfirmedIsNotAssumed(s: CacheState, pod: Pod)
    requires pod.uid != "" && Machine(s) && !AddPod(s, pod).1.Crashed?
    ensures pod.uid in AddPod(s, pod).0.podStates && pod.uid !in AddPod(s, pod).0.assumedPods
  {
    if Assumed(s, pod.uid) {
      ConfirmSettles(s, pod);
    }
  }

  lemma RunGoesOn(ops: seq<Op>, n: nat, ttl: int, s: CacheState)
    requires n < |ops| && s == Run(ops, n, ttl)
    ensures Run(ops, n + 1, ttl) == Step(s, ops[n], ttl).0
  {
  }

  lemma NextOnlyAssumes(ops: seq<Op>, n: nat, ttl: int, k: string)
    requires n < |ops| && k !in Run(ops, n, ttl).assumedPods && !(ops[n].Assume? && ops[n].pod.uid == k)
    ensures k !in Run(ops, n + 1, ttl).assumedPods
  {
    var s := Run(ops, n, ttl);
    RunGoesOn(ops, n, ttl, s);
    OnlyAssumeAssumes(s, ops[n], ttl, k);
  }

  /** A pod that is not assumed is not until it is assumed again. */
  lemma {:induction false} StaysSettled(ops: seq<Op>, m: nat, n: nat, ttl: int, k: string)
    requires m <= n <= |ops| && k !in Run(ops, m, ttl).assumedPods
    requires forall j :: m <= j < n && ops[j].Assume? ==> ops[j].pod.uid != k
    ensures k !in Run(ops, n, ttl).assumedPods
  {
    if m < n {
      StaysSettled(ops, m, n - 1, ttl, k);
      NextOnlyAssumes(ops, n - 1, ttl, k);
    }
  }

  /** Event i is a confirmation of the pod that does not crash. */
  ghost predicate Confirmed(ops: seq<Op>, i: nat, ttl: int, pod: Pod) {
    i < |ops| && ops[i] == Confirm(pod) && pod.uid != "" && !AddPod(Run(ops, i, ttl), pod).1.Crashed?
  }

  lemma ConfirmedInRun(ops: seq<Op>, i: nat, ttl: int, pod: Pod)
    requires Confirmed(ops, i, ttl, pod)
    ensures pod.uid !in Run(ops, i + 1, ttl).assumedPods
  {
    var s := Run(ops, i, ttl);
    RunMachine(ops, i, ttl);
    RunGoesOn(ops, i, ttl, s);
    ConfirmedIsNotAssumed(s, pod);
  }

  lemma CleanupKeepsSettled(s: CacheState, now: int, visit: seq<string>, k: string)
    requires k in s.podStates && k !in s.assumedPods
    ensures var t := Cleanup(s, now, visit, |visit|).0; k in t.podStates && t.podStates[k] == s.podStates[k]
  {
    CleanupKey(s, now, visit, |visit|, k);
  }

  lemma CleanupInRun(ops: seq<Op>, n: nat, ttl: int, k: string)
    requires n < |ops| && ops[n].CleanupAt? && k in Run(ops, n, ttl).podStates && k !in Run(ops, n, ttl).assumedPods
    ensures k in Run(ops, n + 1, ttl).podStates
    ensures Run(ops, n + 1, ttl).podStates[k] == Run(ops, n, ttl).podStates[k]
  {
    var s := Run(ops, n, ttl);
    RunGoesOn(ops, n, ttl, s);
    CleanupKeepsSettled(s, ops[n].now, ops[n].visit, k);
  }

  /** So no cleanup takes a confirmed pod out, whenever it comes and whatever it visits,
      unless the pod is assumed again. */
  lemma ConfirmedNeverExpires(ops: seq<Op>, i: nat, n: nat, ttl: int, pod: Pod)
    requires i < n < |ops| && Confirmed(ops, i, ttl, pod) && ops[n].CleanupAt?
    requires forall j :: i < j < n && ops[j].Assume? ==> ops[j].pod.uid != pod.uid
    requires pod.uid in Run(ops, n, ttl).podStates
    ensures pod.uid in Run(ops, n + 1, ttl).podStates
    ensures Run(ops, n + 1, ttl).podStates[pod.uid] == Run(ops, n, ttl).podStates[pod.uid]
  {
    ConfirmedInRun(ops, i, ttl, pod);
    StaysSettled(ops, i + 1, n, ttl, pod.uid);
    CleanupInRun(ops, n, ttl, pod.uid);
  }

  // ---- without node removals every stored pod is on its entry ----

  ghost predicate AllHeld(s: CacheState) {
    forall k :: k in s.podStates ==> Held(s, s.podStates[k].pod.nodeName, k)
  }

  lemma OthersStillHeld(before: multiset<Pod>, after: seq<Pod>, key: string, come: multiset<Pod>, p: Pod)
    requires Exchanged(before, multiset(after), key, come) && before[p] > 0 && p.uid != key
    ensures NodeInfos.Holds(after, p.uid)
  {
    assert p in multiset(after);
    assert p in after;
  }

  lemma OtherHeld(s: CacheState, t: CacheState, key: string, placed: Option<Pod>, n: string, k: string)
    requires KeyMoved(s, t, key, placed) && k != key && Held(s, n, k)
    ensures Held(t, n, k)
  {
    var i :| 0 <= i < |s.nodes[n].pods| && s.nodes[n].pods[i].uid == k;
    assert n in t.nodes && Exchanged(PodsOn(s, n), PodsOn(t, n), key, Coming(placed, n));
    OthersStillHeld(PodsOn(s, n), t.nodes[n].pods, key, Coming(placed, n), s.nodes[n].pods[i]);
  }

  lemma PlacedAllHeld(s: CacheState, t: CacheState, pod: Pod, state: PodState)
    requires AllHeld(s) && KeyMoved(s, t, pod.uid, Some(pod))
    requires t.podStates == s.podStates[pod.uid := state] && state.pod == pod
    ensures AllHeld(t)
  {
    PlacedIsThere(s, t, pod);
    forall k | k in t.podStates
      ensures Held(t, t.podStates[k].pod.nodeName, k)
    {
      if k != pod.uid {
        OtherHeld(s, t, pod.uid, Some(pod), s.podStates[k].pod.nodeName, k);
      }
    }
  }

  lemma DroppedAllHeld(s: CacheState, t: CacheState, key: string)
    requires AllHeld(s) && KeyMoved(s, t, key, None) && t.podStates == s.podStates - {key}
    ensures AllHeld(t)
  {
    forall k | k in t.podStates
      ensures Held(t, t.podStates[k].pod.nodeName, k)
    {
      OtherHeld(s, t, key, None, s.podStates[k].pod.nodeName, k);
    }
  }

  lemma SameEntriesAllHeld(s: CacheState, t: CacheState)
    requires AllHeld(s) && t.nodes == s.nodes && t.podStates.Keys == s.podStates.Keys
    requires forall k :: k in s.podStates ==> t.podStates[k].pod.nodeName == s.podStates[k].pod.nodeName
    ensures AllHeld(t)
  {
    forall k | k in t.podStates
      ensures Held(t, t.podStates[k].pod.nodeName, k)
    {
      assert Held(s, s.podStates[k].pod.nodeName, k);
    }
  }

  lemma NodeStandsAllHeld(s: CacheState, t: CacheState, node: Node)
    requires AllHeld(s) && NodeStands(s, t, node)
    ensures AllHeld(t)
  {
    forall k | k in t.podStates
      ensures Held(t, t.podStates[k].pod.nodeName, k)
    {
      var n := s.podStates[k].pod.nodeName;
      assert Held(s, n, k) && PodsOn(t, n) == PodsOn(s, n);
      var i :| 0 <= i < |s.nodes[n].pods| && s.nodes[n].pods[i].uid == k;
      assert s.nodes[n].pods[i] in PodsOn(t, n);
      assert s.nodes[n].pods[i] in t.nodes[n].pods;
    }
  }

  lemma ConfirmAllHeld(s: CacheState, pod: Pod, t: CacheState)
    requires Conserving(s) && AllHeld(s) && pod.uid != "" && (pod.uid !in s.podStates || pod.uid in s.assumedPods)
    requires t == AddPod(s, pod).0
    ensures AddPod(s, pod).1 == Ok && AllHeld(t)
  {
    if pod.uid !in s.podStates {
      ConfirmNewAllHeld(s, pod, t);
    } else if s.podStates[pod.uid].pod.nodeName != pod.nodeName {
      MovedAllHeld(s, pod, t);
    } else {
      ConfirmSettles(s, pod);
      SameEntriesAllHeld(s, t);
    }
  }

  lemma ConfirmNewAllHeld(s: CacheState, pod: Pod, t: CacheState)
    requires Conserving(s) && AllHeld(s) && pod.uid != "" && pod.uid !in s.podStates && t == AddPod(s, pod).0
    ensures AddPod(s, pod).1 == Ok && AllHeld(t)
  {
    ConfirmAdds(s, pod);
    PlacedAllHeld(s, t, pod, PodState(pod, None, false));
  }

  lemma MovedAllHeld(s: CacheState, pod: Pod, t: CacheState)
    requires Conserving(s) && AllHeld(s) && Assumed(s, pod.uid) && s.podStates[pod.uid].pod.nodeName != pod.nodeName
    requires t == AddPod(s, pod).0
    ensures AddPod(s, pod).1 == Ok && AllHeld(t)
  {
    assert KeyMoved(s, t, pod.uid, Some(pod)) && AddPod(s, pod).1 == Ok by {
      assert Held(s, s.podStates[pod.uid].pod.nodeName, pod.uid);
      ConfirmMoves(s, pod);
    }
    ConfirmSettles(s, pod);
    PlacedAllHeld(s, t, pod, PodState(pod, None, s.podStates[pod.uid].bindingFinished));
  }

  lemma UpdateGoesThrough(s: CacheState, oldPod: Pod, newPod: Pod)
    requires Conserving(s) && AllHeld(s) && WellFormed(s, Update(oldPod, newPod))
    requires oldPod.uid in s.podStates && oldPod.uid !in s.assumedPods
    ensures UpdatePod(s, oldPod, newPod).1 == Ok
    ensures KeyMoved(s, UpdatePod(s, oldPod, newPod).0, newPod.uid, Some(newPod))
  {
    assert Held(s, oldPod.nodeName, oldPod.uid);
    UpdateReplaces(s, oldPod, newPod);
  }

  lemma UpdateAllHeld(s: CacheState, oldPod: Pod, newPod: Pod, t: CacheState)
    requires Conserving(s) && AllHeld(s) && WellFormed(s, Update(oldPod, newPod))
    requires oldPod.uid in s.podStates && oldPod.uid !in s.assumedPods && t == UpdatePod(s, oldPod, newPod).0
    ensures UpdatePod(s, oldPod, newPod).1 == Ok && AllHeld(t)
  {
    UpdateGoesThrough(s, oldPod, newPod);
    UpdateRestates(s, oldPod, newPod);
    var state := s.podStates[oldPod.uid];
    PlacedAllHeld(s, t, newPod, PodState(newPod, state.deadline, state.bindingFinished));
  }

  lemma {:induction false} CleanupAllHeld(s: CacheState, now: int, keys: seq<string>, n: nat)
    requires Machine(s) && Conserving(s) && AllHeld(s) && n <= |keys|
    ensures var (t, r) := Cleanup(s, now, keys, n); r == Ok && Machine(t) && Conserving(t) && AllHeld(t)
  {
    if n > 0 {
      CleanupAllHeld(s, now, keys, n - 1);
      var t := Cleanup(s, now, keys, n - 1).0;
      ExpireAllHeld(t, keys[n - 1], now);
    }
  }

  lemma ExpireAllHeld(s: CacheState, key: string, now: int)
    requires Machine(s) && Conserving(s) && AllHeld(s)
    ensures var (t, r) := Expire(s, key, now); r == Ok && Machine(t) && Conserving(t) && AllHeld(t)
  {
    ExpireDrops(s, key, now);
    ExpireConserving(s, key, now);
    if Expires(s, key, now) {
      DroppedAllHeld(s, Expire(s, key, now).0, key);
    } else if key in s.podStates {
      assert Held(s, s.podStates[key].pod.nodeName, key);
    }
  }

  lemma AssumeAllHeld(s: CacheState, pod: Pod, t: CacheState)
    requires Conserving(s) && AllHeld(s) && pod.uid != "" && pod.uid !in s.podStates && t == AssumePod(s, pod).0
    ensures AssumePod(s, pod).1 == Ok && AllHeld(t)
  {
    AssumeAdds(s, pod);
    PlacedAllHeld(s, t, pod, PodState(pod, None, false));
  }

  lemma FinishAllHeld(s: CacheState, pod: Pod, now: int, ttl: int)
    requires AllHeld(s) && pod.uid != ""
    ensures FinishBinding(s, pod, now, ttl).1 == Ok && AllHeld(FinishBinding(s, pod, now, ttl).0)
  {
    FinishStarts(s, pod, now, ttl);
    SameEntriesAllHeld(s, FinishBinding(s, pod, now, ttl).0);
  }

  lemma ForgetAllHeld(s: CacheState, pod: Pod)
    requires Conserving(s) && AllHeld(s) && Assumed(s, pod.uid) && s.podStates[pod.uid].pod.nodeName == pod.nodeName
    ensures ForgetPod(s, pod).1 == Ok && AllHeld(ForgetPod(s, pod).0)
  {
    assert Held(s, pod.nodeName, pod.uid);
    ForgetTakesOut(s, pod);
    DroppedAllHeld(s, ForgetPod(s, pod).0, pod.uid);
  }

  lemma DeleteAllHeld(s: CacheState, pod: Pod)
    requires Conserving(s) && AllHeld(s) && pod.uid in s.podStates && pod.uid !in s.assumedPods
    requires s.podStates[pod.uid].pod.nodeName == pod.nodeName
    ensures RemovePod(s, pod).1 == Ok && AllHeld(RemovePod(s, pod).0)
  {
    assert Held(s, pod.nodeName, pod.uid);
    DeleteTakesOut(s, pod);
    DroppedAllHeld(s, RemovePod(s, pod).0, pod.uid);
  }

  lemma NodeStepAllHeld(s: CacheState, op: Op, ttl: int)
    requires AllHeld(s) && (op.NodeAdded? || op.NodeUpdated?)
    ensures Step(s, op, ttl).1 == Ok && AllHeld(Step(s, op, ttl).0)
  {
    match op {
      case NodeAdded(node) => NodeStandsAllHeld(s, AddNode(s, node).0, node);
      case NodeUpdated(oldNode, newNode) => NodeStandsAllHeld(s, UpdateNode(s, oldNode, newNode).0, newNode);
    }
  }

  /** While no node is removed an operation is refused, changing nothing, or goes through, and
      every stored pod stays on its entry. */
  lemma StepAllHeld(s: CacheState, op: Op, ttl: int)
    requires Machine(s) && Conserving(s) && AllHeld(s) && WellFormed(s, op) && !op.NodeRemoved?
    ensures AllHeld(Step(s, op, ttl).0)
    ensures if Refusal(s, op).Some? then Step(s, op, ttl) == (s, Refusal(s, op).value) else Step(s, op, ttl).1 == Ok
  {
    if Refusal(s, op).Some? {
      RefusedLeaves(s, op, ttl);
    } else {
      match op {
        case Assume(pod) => AssumeAllHeld(s, pod, AssumePod(s, pod).0);
        case Finish(pod, now) => FinishAllHeld(s, pod, now, ttl);
        case Forget(pod) => ForgetAllHeld(s, pod);
        case Confirm(pod) => ConfirmAllHeld(s, pod, AddPod(s, pod).0);
        case Update(oldPod, newPod) => UpdateAllHeld(s, oldPod, newPod, UpdatePod(s, oldPod, newPod).0);
        case Delete(pod) => DeleteAllHeld(s, pod);
        case CleanupAt(now, visit) => CleanupAllHeld(s, now, visit, |visit|);
        case GenerationTaken => SameEntriesAllHeld(s, Step(s, op, ttl).0);
        case _ => NodeStepAllHeld(s, op, ttl);
      }
    }
  }

  /** The first n events are well-formed, and none removes a node. */
  ghost predicate KeepsNodes(ops: seq<Op>, n: nat, ttl: int)
    requires n <= |ops|
  {
    n > 0 ==>
      KeepsNodes(ops, n - 1, ttl) && WellFormed(Run(ops, n - 1, ttl), ops[n - 1]) && !ops[n - 1].NodeRemoved?
  }

  ghost predicate Sound(s: CacheState) { Machine(s) && Conserving(s) && AllHeld(s) }

  lemma NextSound(ops: seq<Op>, n: nat, ttl: int)
    requires n < |ops| && Sound(Run(ops, n, ttl))
    requires WellFormed(Run(ops, n, ttl), ops[n]) && !ops[n].NodeRemoved?
    ensures Sound(Run(ops, n + 1, ttl))
  {
    var s := Run(ops, n, ttl);
    RunGoesOn(ops, n, ttl, s);
    StepMachine(s, ops[n], ttl);
    StepConserving(s, ops[n], ttl);
    StepAllHeld(s, ops[n], ttl);
  }

  /** So over every well-formed run without node removals every stored pod is on the entry that
      its state names. */
  lemma {:induction false} RunAllHeld(ops: seq<Op>, n: nat, ttl: int)
    requires n <= |ops| && KeepsNodes(ops, n, ttl)
    ensures Sound(Run(ops, n, ttl))
  {
    if n > 0 {
      RunAllHeld(ops, n - 1, ttl);
      NextSound(ops, n - 1, ttl);
    }
  }

  /** There an entry holds a key if and only if the key has a state that names the entry. */
  lemma HeldIffStored(s: CacheState, n: string, key: string)
    requires Conserving(s) && AllHeld(s)
    ensures Held(s, n, key) <==> key in s.podStates && s.podStates[key].pod.nodeName == n
  {
    if Held(s, n, key) {
      HeldWhereNamed(s, n, key);
    }
  }
}
