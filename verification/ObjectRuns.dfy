/** Runs on the objects: a cache and a snapshot that go through any list of calls move as the
    runs on values do, so what is proved of those holds of the objects
    (internal/cache/cache.go). */
module ObjectRuns {
  import opened NodeTrees
  import opened CacheModel
  import opened CacheInvariants
  import opened SchedulerCaches
  import opened Snapshots
  import opened SnapshotRuns
  import opened SnapshotLists
  import opened SnapshotUpdates
  import SnapshotObjects

  /** The same call; in which order a cleanup meets the assumed keys, and which names an
      update deletes, shows only when it has happened. */
  ghost predicate SameOp(asked: Op, done: Op) {
    asked == done || (asked.CleanupAt? && done.CleanupAt? && asked.now == done.now)
  }

  ghost predicate SameEvent(asked: Event, done: Event) {
    match asked
    case CacheStep(op) => done.CacheStep? && SameOp(op, done.op)
    case SnapshotTaken(_) => done.SnapshotTaken?
  }

  method PerformPod(cache: SchedulerCache, op: Op) returns (r: Outcome)
    requires cache.Valid() && (op.Assume? || op.Finish? || op.Forget? || op.Confirm?)
    modifies cache.Cells()
    ensures cache.Valid() && fresh(cache.Cells() - old(cache.Cells()))
    ensures (cache.State(), r) == Step(old(cache.State()), op, cache.ttl)
  {
    match op
    case Assume(pod) => r := cache.AssumePod(pod);
    case Finish(pod, now) => r := cache.FinishBinding(pod, now);
    case Forget(pod) => r := cache.ForgetPod(pod);
    case Confirm(pod) => r := cache.AddPod(pod);
  }

  method PerformEvent(cache: SchedulerCache, op: Op) returns (r: Outcome)
    requires cache.Valid() && (op.Update? || op.Delete?)
    modifies cache.Cells()
    ensures cache.Valid() && fresh(cache.Cells() - old(cache.Cells()))
    ensures (cache.State(), r) == Step(old(cache.State()), op, cache.ttl)
  {
    match op
    case Update(oldPod, newPod) => r := cache.UpdatePod(oldPod, newPod);
    case Delete(pod) => r := cache.RemovePod(pod);
  }

  method PerformNode(cache: SchedulerCache, op: Op) returns (r: Outcome)
    requires cache.Valid() && Ordered(cache.State()) && (op.NodeAdded? || op.NodeUpdated? || op.NodeRemoved?)
    modifies cache.Cells()
    ensures cache.Valid() && fresh(cache.Cells() - old(cache.Cells()))
    ensures (cache.State(), r) == Step(old(cache.State()), op, cache.ttl)
  {
    match op
    case NodeAdded(node) => r := cache.AddNode(node);
    case NodeUpdated(oldNode, newNode) => r := cache.UpdateNode(oldNode, newNode);
    case NodeRemoved(node) => r := cache.RemoveNode(node);
  }

  method PerformCleanup(cache: SchedulerCache, now: int) returns (r: Outcome, ghost done: Op)
    requires cache.Valid()
    modifies cache.Cells()
    ensures cache.Valid() && fresh(cache.Cells() - old(cache.Cells()))
    ensures done.CleanupAt? && done.now == now
    ensures (cache.State(), r) == Step(old(cache.State()), done, cache.ttl)
  {
    ghost var visit;
    r, visit := cache.CleanupAssumedPods(now);
    done := CleanupAt(now, visit);
  }

  /** One call on the cache. */
  method Perform(cache: SchedulerCache, op: Op) returns (r: Outcome, ghost done: Op)
    requires cache.Valid() && Ordered(cache.State())
    modifies cache.Cells()
    ensures cache.Valid() && fresh(cache.Cells() - old(cache.Cells())) && SameOp(op, done)
    ensures (cache.State(), r) == Step(old(cache.State()), done, cache.ttl)
  {
    done := op;
    if op.CleanupAt? {
      r, done := PerformCleanup(cache, op.now);
    } else if op.GenerationTaken? {
      cache.TakeGeneration();
      r := Ok;
    } else if op.NodeAdded? || op.NodeUpdated? || op.NodeRemoved? {
      r := PerformNode(cache, op);
    } else if op.Update? || op.Delete? {
      r := PerformEvent(cache, op);
    } else {
      r := PerformPod(cache, op);
    }
  }

  // ---- the cache together with a snapshot ----

  ghost predicate Ready(cache: SchedulerCache, snap: Snap)
    reads cache, cache.entries, cache.entries.list, cache.entries.list.items, cache.entries.held
    reads cache.nodeTree, cache.nodeTree.arrays, snap, snap.cells
  {
    cache.Valid() && snap.Valid() && snap.Listed()
  }

  ghost function Both(cache: SchedulerCache, snap: Snap): System
    reads cache, cache.entries, cache.nodeTree, snap
  {
    System(cache.State(), ValueOf(snap))
  }

  /** What every system keeps, whatever the arguments. */
  ghost predicate Sane(y: System) { Ordered(y.cache) && TreeValid(y.cache.tree) }

  lemma ReactSane(y: System, e: Event, ttl: int)
    requires Sane(y)
    ensures Sane(React(y, e, ttl))
  {
    match e {
      case CacheStep(op) =>
        StepOrdered(y.cache, op, ttl);
        StepTreeValid(y.cache, op, ttl);
      case SnapshotTaken(deleted) =>
        UpdateMap(y.cache, y.snap, deleted);
        UpdateTreeValid(y.cache, y.snap, deleted);
    }
  }

  lemma {:induction false} RunSane(events: seq<Event>, n: nat, ttl: int)
    requires n <= |events|
    ensures Sane(SystemRun(events, n, ttl))
  {
    if n == 0 {
      RunTreeValid([], 0, ttl);
    } else {
      RunSane(events, n - 1, ttl);
      ReactSane(SystemRun(events, n - 1, ttl), events[n - 1], ttl);
    }
  }

  /** Any run is that of a fold: what comes behind place n does not matter. */
  ghost predicate Folds<S(!new), E(!new)>(run: (seq<E>, nat) -> S, step: (S, E) -> S, start: S) {
    && (forall es: seq<E> :: run(es, 0) == start)
    && forall es: seq<E>, k: nat :: 0 < k <= |es| ==> run(es, k) == step(run(es, k - 1), es[k - 1])
  }

  lemma {:induction false} FoldPrefix<S(!new), E(!new)>(run: (seq<E>, nat) -> S, step: (S, E) -> S, start: S,
          a: seq<E>, b: seq<E>, n: nat)
    requires Folds(run, step, start) && n <= |a| && n <= |b| && forall i :: 0 <= i < n ==> a[i] == b[i]
    ensures run(a, n) == run(b, n)
  {
    if n > 0 {
      FoldPrefix(run, step, start, a, b, n - 1);
      assert a[n - 1] == b[n - 1];
    }
  }

  /** The run on values, as a fold. */
  ghost function Runner(ttl: int): (seq<Event>, nat) -> System {
    (es: seq<Event>, k: nat) => if k <= |es| then SystemRun(es, k, ttl) else SystemRun(es, |es|, ttl)
  }

  ghost function Reactor(ttl: int): (System, Event) -> System { (y, e) => React(y, e, ttl) }

  lemma RunStep(es: seq<Event>, n: nat, ttl: int)
    requires 0 < n <= |es|
    ensures SystemRun(es, n, ttl) == React(SystemRun(es, n - 1, ttl), es[n - 1], ttl)
  {
  }

  lemma RunnerFolds(ttl: int, start: System)
    requires start == SystemRun([], 0, ttl)
    ensures Folds(Runner(ttl), Reactor(ttl), start)
  {
    forall es: seq<Event>, k: nat | 0 < k <= |es|
      ensures Runner(ttl)(es, k) == Reactor(ttl)(Runner(ttl)(es, k - 1), es[k - 1])
    {
      RunStep(es, k, ttl);
    }
  }

  lemma RunPrefix(a: seq<Event>, b: seq<Event>, n: nat, ttl: int)
    requires n <= |a| && n <= |b| && forall i :: 0 <= i < n ==> a[i] == b[i]
    ensures SystemRun(a, n, ttl) == SystemRun(b, n, ttl)
  {
    var start := SystemRun([], 0, ttl);
    RunnerFolds(ttl, start);
    FoldPrefix(Runner(ttl), Reactor(ttl), start, a, b, n);
    assert Runner(ttl)(a, n) == SystemRun(a, n, ttl) && Runner(ttl)(b, n) == SystemRun(b, n, ttl);
  }

  lemma RunExtended(a: seq<Event>, e: Event, ttl: int)
    ensures SystemRun(a + [e], |a + [e]|, ttl) == React(SystemRun(a, |a|, ttl), e, ttl)
  {
    RunPrefix(a, a + [e], |a|, ttl);
  }

  method PerformBeside(cache: SchedulerCache, ghost snap: Snap, op: Op) returns (r: Outcome, ghost done: Op)
    requires Ready(cache, snap) && Ordered(cache.State())
    modifies cache.Cells()
    ensures Ready(cache, snap) && fresh(cache.Cells() - old(cache.Cells()))
    ensures ValueOf(snap) == old(ValueOf(snap)) && snap.cells == old(snap.cells) && SameOp(op, done)
    ensures (cache.State(), r) == Step(old(cache.State()), done, cache.ttl)
  {
    ghost var cells: set<object> := snap.cells;
    assert snap !in cache.Cells() && cells !! cache.Cells();
    r, done := Perform(cache, op);
  }

  method StepBoth(cache: SchedulerCache, snap: Snap, op: Op) returns (crashed: bool, ghost done: Event)
    requires Ready(cache, snap) && Ordered(cache.State())
    modifies cache.Cells()
    ensures Ready(cache, snap) && fresh(cache.Cells() - old(cache.Cells())) && snap.cells == old(snap.cells)
    ensures done.CacheStep? && SameOp(op, done.op)
    ensures Both(cache, snap) == React(old(Both(cache, snap)), done, cache.ttl)
    ensures crashed == Step(old(cache.State()), done.op, cache.ttl).1.Crashed?
  {
    var r;
    ghost var was;
    r, was := PerformBeside(cache, snap, op);
    crashed, done := r.Crashed?, CacheStep(was);
  }

  method UpdateBoth(cache: SchedulerCache, snap: Snap) returns (ghost done: Event)
    requires Ready(cache, snap) && TreeValid(cache.State().tree)
    modifies cache.nodeTree`zoneIndex, cache.nodeTree`view, cache.nodeTree.arrays, snap, snap.cells
    ensures Ready(cache, snap) && fresh(snap.cells - old(snap.cells))
    ensures (cache.entries.held, cache.nodeTree.arrays) == old((cache.entries.held, cache.nodeTree.arrays))
    ensures done.SnapshotTaken? && Admissible(old(Both(cache, snap)), done)
    ensures Both(cache, snap) == React(old(Both(cache, snap)), done, cache.ttl)
  {
    var ok;
    ghost var deleted;
    ok, deleted := SnapshotUpdates.UpdateSnapshot(cache, snap);
    done := SnapshotTaken(deleted);
  }

  /** One event on the objects. */
  method ReactBoth(cache: SchedulerCache, snap: Snap, e: Event) returns (crashed: bool, ghost done: Event)
    requires Ready(cache, snap) && Sane(Both(cache, snap))
    modifies cache.Cells(), snap, snap.cells
    ensures Ready(cache, snap) && fresh(cache.Cells() - old(cache.Cells())) && fresh(snap.cells - old(snap.cells))
    ensures SameEvent(e, done) && (done.SnapshotTaken? ==> Admissible(old(Both(cache, snap)), done))
    ensures Both(cache, snap) == React(old(Both(cache, snap)), done, cache.ttl)
    ensures crashed ==> done.CacheStep? && Step(old(cache.State()), done.op, cache.ttl).1.Crashed?
  {
    if e.CacheStep? {
      crashed, done := StepBoth(cache, snap, e.op);
    } else {
      crashed := false;
      done := UpdateBoth(cache, snap);
    }
  }

  /** The last event is a call that panics. */
  ghost predicate Crashes(done: seq<Event>, ttl: int) {
    && done != [] && done[|done| - 1].CacheStep?
    && Step(SystemRun(done, |done| - 1, ttl).cache, done[|done| - 1].op, ttl).1.Crashed?
  }

  lemma CrashesNow(done: seq<Event>, e: Event, ttl: int)
    ensures Crashes(done + [e], ttl) <==>
            e.CacheStep? && Step(SystemRun(done, |done|, ttl).cache, e.op, ttl).1.Crashed?
  {
    RunPrefix(done, done + [e], |done|, ttl);
  }

  /** All objects that the cache and the snapshot consist of. */
  ghost function Space(cache: SchedulerCache, snap: Snap): set<object>
    reads cache, cache.entries, cache.nodeTree, snap
  {
    cache.Cells() + {snap} + snap.cells
  }

  /** The objects stand where the run has led. */
  ghost predicate At(cache: SchedulerCache, snap: Snap, done: seq<Event>)
    reads cache, cache.entries, cache.entries.list, cache.entries.list.items, cache.entries.held
    reads cache.nodeTree, cache.nodeTree.arrays, snap, snap.cells
  {
    Ready(cache, snap) && Both(cache, snap) == SystemRun(done, |done|, cache.ttl)
  }

  /** One more event of a run, within a space that grows by new objects only. */
  method Turn(cache: SchedulerCache, snap: Snap, e: Event, ghost before: seq<Event>, ghost space: set<object>)
    returns (crashed: bool, ghost done: seq<Event>, ghost grown: set<object>)
    requires At(cache, snap, before) && Space(cache, snap) <= space
    modifies space
    ensures At(cache, snap, done) && Space(cache, snap) <= grown && fresh(grown - space)
    ensures |done| == |before| + 1 && done[..|before|] == before && SameEvent(e, done[|before|])
    ensures crashed ==> Crashes(done, cache.ttl)
  {
    RunSane(before, |before|, cache.ttl);
    ghost var was;
    crashed, was := ReactBoth(cache, snap, e);
    RunExtended(before, was, cache.ttl);
    CrashesNow(before, was, cache.ttl);
    done := before + [was];
    grown := space + Space(cache, snap);
  }

  /** The events that happened are the first n of those asked for. */
  ghost predicate Follows(before: seq<Event>, events: seq<Event>, n: nat, done: seq<Event>)
    requires n <= |events|
  {
    && |done| == |before| + n && done[..|before|] == before
    && forall i :: 0 <= i < n ==> SameEvent(events[i], done[|before| + i])
  }

  lemma FollowsOn(before: seq<Event>, events: seq<Event>, n: nat, done: seq<Event>, next: seq<Event>)
    requires n < |events| && Follows(before, events, n, done)
    requires |next| == |done| + 1 && next[..|done|] == done && SameEvent(events[n], next[|done|])
    ensures Follows(before, events, n + 1, next)
  {
    assert forall i :: 0 <= i < |done| ==> next[i] == next[..|done|][i];
  }

  method RunWithin(cache: SchedulerCache, snap: Snap, events: seq<Event>, ghost before: seq<Event>,
          ghost space: set<object>)
    returns (n: nat, ghost done: seq<Event>, ghost grown: set<object>)
    requires At(cache, snap, before) && Space(cache, snap) <= space
    modifies space
    ensures At(cache, snap, done) && Space(cache, snap) <= grown && fresh(grown - space)
    ensures n <= |events| && Follows(before, events, n, done) && (n < |events| ==> Crashes(done, cache.ttl))
  {
    n, done, grown := 0, before, space;
    var crashed := false;
    while n < |events| && !crashed
      invariant At(cache, snap, done) && Space(cache, snap) <= grown && fresh(grown - space)
      invariant n <= |events| && Follows(before, events, n, done) && (crashed ==> Crashes(done, cache.ttl))
      decreases |events| - n
    {
      ghost var was := done;
      crashed, done, grown := Turn(cache, snap, events[n], was, grown);
      FollowsOn(before, events, n, was, done);
      n := n + 1;
    }
  }

  /** Any list of calls on a cache and a snapshot that are somewhere in a run takes them on in
      that run, up to a crash. */
  method RunBoth(cache: SchedulerCache, snap: Snap, events: seq<Event>, ghost before: seq<Event>)
    returns (n: nat, ghost done: seq<Event>)
    requires At(cache, snap, before)
    modifies Space(cache, snap)
    ensures At(cache, snap, done) && fresh(Space(cache, snap) - old(Space(cache, snap)))
    ensures n <= |events| && Follows(before, events, n, done) && (n < |events| ==> Crashes(done, cache.ttl))
  {
    ghost var grown;
    n, done, grown := RunWithin(cache, snap, events, before, Space(cache, snap));
  }

  lemma StartsAt(cache: SchedulerCache, snap: Snap)
    requires Ready(cache, snap) && cache.State() == Run([], 0, cache.ttl)
    requires ValueOf(snap) == SnapState(map[], [], [], 0)
    ensures At(cache, snap, [])
  {
  }

  ghost predicate EndsInUpdate(done: seq<Event>) { done != [] && done[|done| - 1].SnapshotTaken? }

  ghost predicate OrderlyUpdate(done: seq<Event>, ttl: int) {
    EndsInUpdate(done) && AllOrderly(done, |done|, ttl)
  }

  lemma EndsEqual(y: System, done: seq<Event>, ttl: int)
    requires y == SystemRun(done, |done|, ttl) && OrderlyUpdate(done, ttl)
    ensures Equals(y.cache, y.snap)
  {
    EveryUpdateIsExact(done, |done|, ttl);
  }

  lemma EndsEqualIf(y: System, done: seq<Event>, ttl: int)
    requires y == SystemRun(done, |done|, ttl)
    ensures OrderlyUpdate(done, ttl) ==> Equals(y.cache, y.snap)
  {
    if OrderlyUpdate(done, ttl) {
      EndsEqual(y, done, ttl);
    }
  }

  method StartBoth(ttl: int) returns (cache: SchedulerCache, snap: Snap)
    ensures At(cache, snap, []) && fresh(Space(cache, snap)) && cache.ttl == ttl
  {
    cache := new SchedulerCache(ttl);
    snap := new SnapshotObjects.Snapshot();
    StartsAt(cache, snap);
  }

  /** The same from new objects. */
  method StartAndRun(events: seq<Event>, ttl: int)
    returns (cache: SchedulerCache, snap: Snap, n: nat, ghost done: seq<Event>)
    ensures At(cache, snap, done) && fresh(Space(cache, snap)) && cache.ttl == ttl
    ensures n <= |events| && Follows([], events, n, done) && (n < |events| ==> Crashes(done, ttl))
  {
    cache, snap := StartBoth(ttl);
    ghost var space, grown := Space(cache, snap), {};
    n, done, grown := RunWithin(cache, snap, events, [], space);
  }

  /** New objects end as the run on values does, and if the run is orderly a snapshot that was
      just updated equals the cache. */
  method RunFromStart(events: seq<Event>, ttl: int)
    returns (cache: SchedulerCache, snap: Snap, n: nat, ghost done: seq<Event>)
    ensures At(cache, snap, done) && fresh(Space(cache, snap)) && cache.ttl == ttl
    ensures n <= |events| && Follows([], events, n, done) && (n < |events| ==> Crashes(done, ttl))
    ensures OrderlyUpdate(done, ttl) ==> Equals(cache.State(), ValueOf(snap))
  {
    cache, snap, n, done := StartAndRun(events, ttl);
    EndsEqualIf(Both(cache, snap), done, ttl);
  }
}
