/** Runs of the cache together with one snapshot that is updated from time to time
    (internal/cache/cache.go). */
module SnapshotRuns {
  import opened Api
  import opened NodeInfos
  import opened NodeTrees
  import opened CacheModel
  import opened Snapshots
  import CacheConservation
  import CacheInvariants

  datatype System = System(cache: CacheState, snap: SnapState)

  datatype Event = CacheStep(op: Op) | SnapshotTaken(deleted: set<string>)

  ghost function React(y: System, e: Event, ttl: int): System {
    match e
    case CacheStep(op) => y.(cache := Step(y.cache, op, ttl).0)
    case SnapshotTaken(deleted) =>
      var (t, q, ok) := UpdateSnapshot(y.cache, y.snap, deleted);
      System(t, q)
  }

  /** From the empty cache and an empty snapshot. */
  ghost function SystemRun(events: seq<Event>, n: nat, ttl: int): System
    requires n <= |events|
  {
    if n == 0 then System(Run([], 0, ttl), SnapState(map[], [], [], 0))
    else React(SystemRun(events, n - 1, ttl), events[n - 1], ttl)
  }

  /** What the callers supply, and what the deletion loop can do. */
  ghost predicate Admissible(y: System, e: Event) {
    match e
    case CacheStep(op) => CacheConservation.WellFormed(y.cache, op)
    case SnapshotTaken(deleted) => Deletable(y.cache, NewerWalk(y.cache, y.snap).infos, deleted)
  }

  /** Each of the first n events is admissible where it happens. */
  ghost predicate Legal(events: seq<Event>, n: nat, ttl: int)
    requires n <= |events|
  {
    n > 0 ==> Legal(events, n - 1, ttl) && Admissible(SystemRun(events, n - 1, ttl), events[n - 1])
  }

  // ---- generations only grow ----

  /** An entry is as it was, or newer than everything before. */
  ghost predicate Evolves(s: CacheState, t: CacheState) {
    && s.generation <= t.generation
    && forall n :: n in t.nodes ==> (n in s.nodes && t.nodes[n] == s.nodes[n]) || t.nodes[n].generation > s.generation
  }

  lemma EvolvesOn(s: CacheState, t: CacheState, u: CacheState)
    requires Evolves(s, t) && Evolves(t, u)
    ensures Evolves(s, u)
  {
  }

  lemma TouchEvolves(s: CacheState, n: string, v: NodeView)
    requires v.generation > s.generation
    ensures Evolves(s, Touch(s, n, v))
  {
  }

  lemma PodAddedEvolves(s: CacheState, pod: Pod)
    ensures Evolves(s, PodAdded(s, pod))
  {
    var v, g := EntryOf(s, pod.nodeName), EntryGeneration(s, pod.nodeName) + 1;
    AddKeepsNode(v, pod, g);
    AddedIsTouch(s, pod);
    TouchEvolves(s, pod.nodeName, AddPodTo(v, pod, g));
  }

  /** In a conserving state a removal that fails changes nothing. */
  lemma PodRemovedEvolves(s: CacheState, pod: Pod)
    requires CacheConservation.Conserving(s)
    ensures Evolves(s, PodRemoved(s, pod).0)
  {
    var n := pod.nodeName;
    if n in s.nodes {
      var v := s.nodes[n];
      if RemoveOutcomeOf(v, pod).Removed? {
        var w := RemovePodFrom(v, pod, s.generation + 1);
        RemoveKeepsNode(v, pod, s.generation + 1);
        TakenIsTouch(s, pod, w);
        TouchEvolves(s, n, w);
      } else {
        CacheConservation.PodRemovedFails(s, pod);
      }
    }
  }

  lemma PodMovedEvolves(s: CacheState, held: Pod, pod: Pod)
    requires CacheConservation.Conserving(s)
    ensures Evolves(s, PodMoved(s, held, pod).0) && Evolves(s, PodReplaced(s, held, pod).0)
  {
    PodRemovedEvolves(s, held);
    PodAddedEvolves(PodRemoved(s, held).0, pod);
    EvolvesOn(s, PodRemoved(s, held).0, PodAdded(PodRemoved(s, held).0, pod));
  }

  lemma NodeSetEvolves(s: CacheState, node: Node)
    ensures Evolves(s, NodeSet(s, node))
  {
    var w := SetNodeOf(EntryOf(s, node.name), node, EntryGeneration(s, node.name) + 1);
    assert w.generation > s.generation;
    TouchEvolves(s, node.name, w);
  }

  lemma ExpireEvolves(s: CacheState, key: string, now: int)
    requires CacheConservation.Conserving(s)
    ensures Evolves(s, Expire(s, key, now).0)
  {
    if key in s.podStates {
      PodRemovedEvolves(s, s.podStates[key].pod);
    }
  }

  lemma {:induction false} CleanupEvolves(s: CacheState, now: int, keys: seq<string>, n: nat)
    requires CacheConservation.Conserving(s) && n <= |keys|
    ensures Evolves(s, Cleanup(s, now, keys, n).0)
  {
    if n > 0 {
      CleanupEvolves(s, now, keys, n - 1);
      CacheConservation.CleanupConserving(s, now, keys, n - 1);
      var t := Cleanup(s, now, keys, n - 1).0;
      ExpireEvolves(t, keys[n - 1], now);
      EvolvesOn(s, t, Expire(t, keys[n - 1], now).0);
    }
  }

  lemma ConfirmEvolves(s: CacheState, pod: Pod)
    requires CacheConservation.Conserving(s)
    ensures Evolves(s, AddPod(s, pod).0)
  {
    if Assumed(s, pod.uid) {
      PodMovedEvolves(s, s.podStates[pod.uid].pod, pod);
    } else {
      PodAddedEvolves(s, pod);
    }
  }

  lemma DeleteEvolves(s: CacheState, pod: Pod)
    requires CacheConservation.Conserving(s)
    ensures Evolves(s, RemovePod(s, pod).0)
  {
    if pod.uid in s.podStates {
      PodRemovedEvolves(s, s.podStates[pod.uid].pod);
    }
  }

  lemma ForgetEvolves(s: CacheState, pod: Pod)
    requires CacheConservation.Conserving(s)
    ensures Evolves(s, ForgetPod(s, pod).0)
  {
    PodRemovedEvolves(s, pod);
  }

  lemma UpdateEvolves(s: CacheState, oldPod: Pod, newPod: Pod)
    requires CacheConservation.Conserving(s)
    ensures Evolves(s, UpdatePod(s, oldPod, newPod).0)
  {
    PodMovedEvolves(s, oldPod, newPod);
  }

  lemma StepEvolves(s: CacheState, op: Op, ttl: int)
    requires CacheConservation.Conserving(s)
    ensures Evolves(s, Step(s, op, ttl).0)
  {
    match op {
      case Assume(pod) => PodAddedEvolves(s, pod);
      case Finish(pod, now) =>
      case Forget(pod) => ForgetEvolves(s, pod);
      case Confirm(pod) => ConfirmEvolves(s, pod);
      case Update(oldPod, newPod) => UpdateEvolves(s, oldPod, newPod);
      case Delete(pod) => DeleteEvolves(s, pod);
      case CleanupAt(now, visit) => CleanupEvolves(s, now, visit, |visit|);
      case _ => NodeStepEvolves(s, op, ttl);
    }
  }

  lemma NodeStepEvolves(s: CacheState, op: Op, ttl: int)
    requires op.NodeAdded? || op.NodeUpdated? || op.NodeRemoved? || op.GenerationTaken?
    ensures Evolves(s, Step(s, op, ttl).0)
  {
    match op {
      case NodeAdded(node) => NodeSetEvolves(s, node);
      case NodeUpdated(oldNode, newNode) => NodeSetEvolves(s, newNode);
      case NodeRemoved(node) =>
      case GenerationTaken =>
    }
  }

  /** So what a snapshot holds stays faithful while the cache goes on. */
  lemma EvolvesFaithful(s: CacheState, t: CacheState, p: SnapState)
    requires Faithful(s, p) && Evolves(s, t)
    ensures Faithful(t, p)
  {
  }

  // ---- the invariant of every run ----

  ghost predicate SystemOk(y: System) {
    && Ordered(y.cache) && CacheConservation.Conserving(y.cache)
    && Faithful(y.cache, y.snap) && ListsOk(y.snap) && TreeValid(y.cache.tree)
  }

  lemma ReactOk(y: System, e: Event, ttl: int)
    requires SystemOk(y) && Admissible(y, e)
    ensures SystemOk(React(y, e, ttl))
  {
    match e {
      case CacheStep(op) =>
        StepOrdered(y.cache, op, ttl);
        CacheConservation.StepConserving(y.cache, op, ttl);
        StepEvolves(y.cache, op, ttl);
        EvolvesFaithful(y.cache, Step(y.cache, op, ttl).0, y.snap);
        CacheInvariants.StepTreeValid(y.cache, op, ttl);
      case SnapshotTaken(deleted) =>
        UpdateIsComplete(y.cache, y.snap, deleted);
        UpdateKeepsLists(y.cache, y.snap, deleted);
        UpdateMap(y.cache, y.snap, deleted);
        UpdateTreeValid(y.cache, y.snap, deleted);
    }
  }

  lemma {:induction false} RunOk(events: seq<Event>, n: nat, ttl: int)
    requires n <= |events| && Legal(events, n, ttl)
    ensures SystemOk(SystemRun(events, n, ttl))
  {
    if n == 0 {
      CacheInvariants.RunTreeValid([], 0, ttl);
    } else {
      RunOk(events, n - 1, ttl);
      ReactOk(SystemRun(events, n - 1, ttl), events[n - 1], ttl);
    }
  }

  /** Over any run of cache operations and updates of one snapshot, each update leaves in
      it every cached node as it is, although the walk stops at the first old entry. */
  lemma EveryUpdateIsComplete(events: seq<Event>, n: nat, ttl: int)
    requires 0 < n <= |events| && Legal(events, n, ttl) && events[n - 1].SnapshotTaken?
    ensures UpToDate(SystemRun(events, n, ttl).cache, SystemRun(events, n, ttl).snap)
  {
    RunOk(events, n - 1, ttl);
    var y := SystemRun(events, n - 1, ttl);
    UpdateIsComplete(y.cache, y.snap, events[n - 1].deleted);
    UpdateMap(y.cache, y.snap, events[n - 1].deleted);
  }
}
