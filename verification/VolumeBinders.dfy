/** The volume binder with its caches (pkg/controller/volume/scheduling/scheduler_binder.go). */
module VolumeBinders {
  import opened Api
  import opened AssumeCaches
  import opened VolumeMatching
  import opened BindingCaches
  import opened VolumeAssumptions
  import opened Sequences
  import opened PodClaims
  import opened PodVolumes

  datatype AssumeResult = AllBound | Planned | Failed

  /** arePodVolumesBound: every claim named is in the cache, names its volume, and its binding
      is complete. */
  predicate VolumesBound(s: Store<Claim>, volumes: seq<Option<string>>) {
    forall i :: 0 <= i < |volumes| && volumes[i].Some? ==>
      volumes[i].value in s && IsBound(s[volumes[i].value].latestObj)
  }

  function OrEmpty<T>(o: Option<seq<T>>): seq<T> { if o.Some? then o.value else [] }

  /** Whether binding number k can be assumed when those before it are. */
  predicate PVAssumable(s: Store<Volume>, bs: seq<Binding>, k: nat)
    requires k < |bs|
  {
    Dirty(bs[k]) ==> CanAssume(PVsAssumed(s, bs, k), NewPV(bs[k]))
  }

  predicate PVCAssumable(s: Store<Claim>, cs: seq<PVC>, node: string, k: nat)
    requires k < |cs|
  {
    CanAssume(PVCsAssumed(s, cs, node, k), WithSelectedNode(cs[k], node))
  }

  /** The first binding from k on that cannot be assumed, or the number of bindings. */
  function PVStuck(s: Store<Volume>, bs: seq<Binding>, k: nat): (i: nat)
    requires k <= |bs|
    ensures k <= i <= |bs| && forall j :: k <= j < i ==> PVAssumable(s, bs, j)
    ensures i < |bs| ==> !PVAssumable(s, bs, i)
    decreases |bs| - k
  {
    if k == |bs| || !PVAssumable(s, bs, k) then k else PVStuck(s, bs, k + 1)
  }

  function PVCStuck(s: Store<Claim>, cs: seq<PVC>, node: string, k: nat): (i: nat)
    requires k <= |cs|
    ensures k <= i <= |cs| && forall j :: k <= j < i ==> PVCAssumable(s, cs, node, j)
    ensures i < |cs| ==> !PVCAssumable(s, cs, node, i)
    decreases |cs| - k
  {
    if k == |cs| || !PVCAssumable(s, cs, node, k) then k else PVCStuck(s, cs, node, k + 1)
  }

  /** How far the assumptions of a plan get: the bindings and the claims assumed. Claims come
      only after all bindings. */
  function Reach(s: Store<Volume>, t: Store<Claim>, bs: seq<Binding>, cs: seq<PVC>, node: string): (r: (nat, nat))
    ensures r.0 <= |bs| && r.1 <= |cs|
  {
    var k := PVStuck(s, bs, 0);
    (k, if k == |bs| then PVCStuck(t, cs, node, 0) else 0)
  }

  /** The outcome of the search: an unbound immediate claim or an unknown volume of a bound
      claim is an error; otherwise the bound claims give one verdict and the plan the other. */
  ghost predicate SearchIs(s: Store<Volume>, claims: Store<Claim>, volumes: seq<Option<string>>, node: Node,
          classes: Classes, r: FindResult, matched: seq<Binding>, provisioned: seq<PVC>, t: Turns)
  {
    var parts := PartsOf(claims, classes, volumes, |volumes|);
    if parts.None? || parts.value.immediate != [] || BoundVerdict(s, parts.value.bound, node).CheckError?
    then r == FindError && matched == [] && provisioned == []
    else
      var check := if r.Verdict? then Check(r.bindOk) else CheckError;
      && PlanIs(s, classes, parts.value.delayed, node, check, matched, provisioned, t)
      && (r.Verdict? ==> BoundVerdict(s, parts.value.bound, node) == Check(r.nodeOk))
  }

  /** Without a conflict the claims to bind are exactly those matched and those to
      provision, and no volume serves two. Each claim is served once if and only if no two
      volumes of the pod name one delayed claim. */
  lemma FoundPlanOk(s: Store<Volume>, claims: Store<Claim>, volumes: seq<Option<string>>, node: Node, classes: Classes,
      r: FindResult, matched: seq<Binding>, provisioned: seq<PVC>, t: Turns)
    requires StoreOk(claims)
    requires SearchIs(s, claims, volumes, node, classes, r, matched, provisioned, t) && r.Verdict? && r.bindOk
    ensures AllReadable(claims, classes, volumes, |volumes|)
    ensures var named := Claimed(claims, volumes, |volumes|);
            PlanOk(Filter((c: PVC) => IsDelayed(c, classes), named, |named|), matched, provisioned, s, classes, node)
    ensures NoDuplicates(ClaimsOf(matched, |matched|) + provisioned) <==>
      !DelayedTwice(claims, classes, volumes, |volumes|)
  {
    var delayed := PartsOf(claims, classes, volumes, |volumes|).value.delayed;
    PartsAre(claims, classes, volumes, |volumes|);
    PlanIsOk(s, classes, delayed, node, matched, provisioned, t);
    PlanOnceIff(delayed, matched, provisioned, s, classes, node);
    DelayedOnceIff(claims, classes, volumes, |volumes|);
  }

  class VolumeBinder {
    const pvCache: AssumeCache<Volume>
    const pvcCache: AssumeCache<Claim>
    const podBindingCache: PodBindingCache

    constructor ()
      ensures fresh(pvCache) && fresh(pvcCache) && fresh(podBindingCache)
      ensures pvCache.store == map[] && pvcCache.store == map[] && podBindingCache.bindingDecisions == map[]
    {
      pvCache := new AssumeCache();
      pvcCache := new AssumeCache();
      podBindingCache := new PodBindingCache();
    }

    /** FindPodVolumes: the outcome and the plan are those of the search, and this plan is what
        is looked up for the pod and the node from then on, an empty part as absent. Under no
        other pod or node does the call change what is looked up. */
    method FindPodVolumes(pod: string, volumes: seq<Option<string>>, node: Node, classes: Classes)
        returns (r: FindResult, ghost matched: seq<Binding>, ghost provisioned: seq<PVC>, ghost t: Turns)
      requires StoreOk(pvCache.store)
      modifies podBindingCache
      ensures podBindingCache.bindingDecisions ==
              Remembered(old(podBindingCache.bindingDecisions), pod, node.name, matched, provisioned)
      ensures var d := Lookup(podBindingCache.bindingDecisions, pod, node.name);
              && OrEmpty(d.bindings) == matched && (d.bindings.None? <==> matched == [])
              && OrEmpty(d.provisionings) == provisioned && (d.provisionings.None? <==> provisioned == [])
      ensures forall p, n :: (p, n) != (pod, node.name) ==>
        Lookup(podBindingCache.bindingDecisions, p, n) == Lookup(old(podBindingCache.bindingDecisions), p, n)
      ensures SearchIs(pvCache.store, pvcCache.store, volumes, node, classes, r, matched, provisioned, t)
    {
      var ms, ps;
      r, ms, ps, t := Search(volumes, node, classes);
      matched, provisioned := ms, ps;
      if ms == [] && ps == [] {
        podBindingCache.ClearBindings(pod, node.name);
      } else {
        podBindingCache.UpdateBindings(pod, node.name, if ms == [] then None else Some(ms),
                                       if ps == [] then None else Some(ps));
      }
    }

    /** FindPodVolumes up to its deferred update of the decisions. */
    method Search(volumes: seq<Option<string>>, node: Node, classes: Classes)
        returns (r: FindResult, matched: seq<Binding>, provisioned: seq<PVC>, ghost t: Turns)
      requires StoreOk(pvCache.store)
      ensures SearchIs(pvCache.store, pvcCache.store, volumes, node, classes, r, matched, provisioned, t)
    {
      matched, provisioned, t := [], [], Turns([], [], []);
      var parts := GetPodVolumes(pvcCache.store, classes, volumes);
      if parts.None? || parts.value.immediate != [] {
        return FindError, [], [], t;
      }
      var boundCheck := CheckBoundClaims(pvCache.store, parts.value.bound, node);
      if boundCheck.CheckError? {
        return FindError, [], [], t;
      }
      var check;
      check, matched, provisioned, t := PlanDelayed(pvCache.store, classes, parts.value.delayed, node);
      r := if check.CheckError? then FindError else Verdict(boundCheck.ok, check.ok);
    }

    method RevertAssumedPVs(bindings: seq<Binding>)
      modifies pvCache
      ensures pvCache.store == RestoredAll(old(pvCache.store), PVNames(bindings), |bindings|)
    {
      for i := 0 to |bindings|
        invariant pvCache.store == RestoredAll(old(pvCache.store), PVNames(bindings), i)
      {
        pvCache.Restore(bindings[i].pv.name);
      }
    }

    method RevertAssumedPVCs(claims: seq<PVC>)
      modifies pvcCache
      ensures pvcCache.store == RestoredAll(old(pvcCache.store), PVCNames(claims), |claims|)
    {
      for i := 0 to |claims|
        invariant pvcCache.store == RestoredAll(old(pvcCache.store), PVCNames(claims), i)
      {
        pvcCache.Restore(claims[i].name);
      }
    }

    /** The loop over the bindings; it stops at the first that cannot be assumed. */
    method AssumePVs(bs: seq<Binding>) returns (newBindings: seq<Binding>)
      modifies pvCache
      ensures |newBindings| <= |bs| && newBindings == Rebound(bs[..|newBindings|])
      ensures pvCache.store == PVsAssumed(old(pvCache.store), bs, |newBindings|)
      ensures |newBindings| == PVStuck(old(pvCache.store), bs, 0)
    {
      newBindings := [];
      for i := 0 to |bs|
        invariant |newBindings| == i && newBindings == Rebound(bs[..i])
        invariant pvCache.store == PVsAssumed(old(pvCache.store), bs, i)
        invariant forall k :: 0 <= k < i ==> PVAssumable(old(pvCache.store), bs, k)
      {
        var (newPV, dirty) := BindVolumeToClaim(bs[i].pv, bs[i].pvc);
        if dirty {
          var ok := pvCache.Assume(newPV);
          if !ok {
            assert !PVAssumable(old(pvCache.store), bs, i);
            return;
          }
        }
        newBindings := newBindings + [Binding(bs[i].pvc, newPV)];
      }
    }

    method AssumePVCs(cs: seq<PVC>, node: string) returns (newClaims: seq<PVC>)
      modifies pvcCache
      ensures |newClaims| <= |cs| && newClaims == Annotated(cs[..|newClaims|], node)
      ensures pvcCache.store == PVCsAssumed(old(pvcCache.store), cs, node, |newClaims|)
      ensures |newClaims| == PVCStuck(old(pvcCache.store), cs, node, 0)
    {
      newClaims := [];
      for i := 0 to |cs|
        invariant |newClaims| == i && newClaims == Annotated(cs[..i], node)
        invariant pvcCache.store == PVCsAssumed(old(pvcCache.store), cs, node, i)
        invariant forall k :: 0 <= k < i ==> PVCAssumable(old(pvcCache.store), cs, node, k)
      {
        var claimClone := WithSelectedNode(cs[i], node);
        var ok := pvcCache.Assume(claimClone);
        if !ok {
          assert !PVCAssumable(old(pvcCache.store), cs, node, i);
          return;
        }
        newClaims := newClaims + [claimClone];
      }
    }

    /** Undoes AssumePVs. */
    method UndoPVs(ghost before: Store<Volume>, ghost bs: seq<Binding>, newBindings: seq<Binding>)
      requires |newBindings| <= |bs| && newBindings == Rebound(bs[..|newBindings|])
      requires pvCache.store == PVsAssumed(before, bs, |newBindings|)
      modifies pvCache
      ensures pvCache.store == RestoredAll(before, PVNames(bs), |newBindings|)
    {
      RevertAssumedPVs(newBindings);
      PVsTakenBack(before, bs, |newBindings|);
      RestoredAllPrefix(PVsAssumed(before, bs, |newBindings|), PVNames(newBindings), PVNames(bs), |newBindings|);
    }

    method UndoPVCs(ghost before: Store<Claim>, ghost cs: seq<PVC>, node: string, newClaims: seq<PVC>)
      requires |newClaims| <= |cs| && newClaims == Annotated(cs[..|newClaims|], node)
      requires pvcCache.store == PVCsAssumed(before, cs, node, |newClaims|)
      modifies pvcCache
      ensures pvcCache.store == RestoredAll(before, PVCNames(cs), |newClaims|)
    {
      RevertAssumedPVCs(newClaims);
      PVCsTakenBack(before, cs, node, |newClaims|);
      RestoredAllPrefix(PVCsAssumed(before, cs, node, |newClaims|), PVCNames(newClaims), PVCNames(cs), |newClaims|);
    }

    /** The loop of arePodVolumesBound. */
    method ArePodVolumesBound(volumes: seq<Option<string>>) returns (bound: bool)
      ensures bound == VolumesBound(pvcCache.store, volumes)
    {
      for i := 0 to |volumes|
        invariant VolumesBound(pvcCache.store, volumes[..i])
      {
        assert volumes[..i + 1][i] == volumes[i];
        if volumes[i].Some? {
          var key := volumes[i].value;
          if key !in pvcCache.store || !FullyBound(pvcCache.store[key].latestObj.spec) {
            return false;
          }
        }
      }
      assert volumes[..|volumes|] == volumes;
      return true;
    }

    /** AssumePodVolumes: it succeeds if every object of the plan can be assumed, and then all
        are; else it restores those assumed before the first that cannot be. */
    method AssumePodVolumes(pod: string, volumes: seq<Option<string>>, node: string) returns (r: AssumeResult)
      modifies pvCache, pvcCache, podBindingCache
      ensures var d := Lookup(old(podBindingCache.bindingDecisions), pod, node);
              var bs, cs := OrEmpty(d.bindings), OrEmpty(d.provisionings);
              var (k, j) := Reach(old(pvCache.store), old(pvcCache.store), bs, cs, node);
              && r == (if VolumesBound(old(pvcCache.store), volumes) then AllBound
                       else if k == |bs| && j == |cs| then Planned else Failed)
              && pvCache.store == (match r
                                   case AllBound => old(pvCache.store)
                                   case Planned => PVsAssumed(old(pvCache.store), bs, |bs|)
                                   case Failed => RestoredAll(old(pvCache.store), PVNames(bs), k))
              && pvcCache.store == (match r
                                    case AllBound => old(pvcCache.store)
                                    case Planned => PVCsAssumed(old(pvcCache.store), cs, node, |cs|)
                                    case Failed => RestoredAll(old(pvcCache.store), PVCNames(cs), j))
              && podBindingCache.bindingDecisions ==
                 if r.Planned? then Updated(old(podBindingCache.bindingDecisions), pod, node,
                                            Decision(Some(Rebound(bs)), Some(Annotated(cs, node))))
                 else old(podBindingCache.bindingDecisions)
    {
      var bound := ArePodVolumesBound(volumes);
      if bound {
        return AllBound;
      }
      var b := podBindingCache.GetBindings(pod, node);
      var c := podBindingCache.GetProvisionedPVCs(pod, node);
      var bs, cs := OrEmpty(b), OrEmpty(c);
      var newBindings := AssumePVs(bs);
      if |newBindings| < |bs| {
        UndoPVs(old(pvCache.store), bs, newBindings);
        return Failed;
      }
      assert bs[..|bs|] == bs && cs[..|cs|] == cs;
      var newClaims := AssumePVCs(cs, node);
      if |newClaims| < |cs| {
        UndoPVs(old(pvCache.store), bs, newBindings);
        UndoPVCs(old(pvcCache.store), cs, node, newClaims);
        return Failed;
      }
      podBindingCache.UpdateBindings(pod, node, Some(newBindings), Some(newClaims));
      r := Planned;
    }

    /** The loop over the bindings: it ends at the first failing call. */
    method WritePVs(bs: seq<Binding>, answers: seq<Option<PV>>) returns (written: seq<Binding>, n: nat)
      requires |answers| == |bs|
      ensures n == Answered(answers, 0) && written == WrittenPVs(bs, answers, n)
    {
      written, n := bs, 0;
      while n < |bs| && answers[n].Some?
        invariant n <= |bs| && Answered(answers, n) == Answered(answers, 0)
        invariant forall k :: 0 <= k < n ==> answers[k].Some?
        invariant written == WrittenPVs(bs, answers, n)
      {
        written := written[n := written[n].(pv := answers[n].value)];
        n := n + 1;
      }
    }

    method WritePVCs(cs: seq<PVC>, answers: seq<Option<PVC>>) returns (written: seq<PVC>, n: nat)
      requires |answers| == |cs|
      ensures n == Answered(answers, 0) && written == WrittenPVCs(cs, answers, n)
    {
      written, n := cs, 0;
      while n < |cs| && answers[n].Some?
        invariant n <= |cs| && Answered(answers, n) == Answered(answers, 0)
        invariant forall k :: 0 <= k < n ==> answers[k].Some?
        invariant written == WrittenPVCs(cs, answers, n)
      {
        written := written[n := answers[n].value];
        n := n + 1;
      }
    }

    /** The claims come only after all bindings. */
    method WriteAll(bs: seq<Binding>, cs: seq<PVC>, pvAnswers: seq<Option<PV>>, pvcAnswers: seq<Option<PVC>>)
        returns (bindings: seq<Binding>, i: nat, claims: seq<PVC>, j: nat)
      requires |pvAnswers| == |bs| && |pvcAnswers| == |cs|
      ensures i == Answered(pvAnswers, 0) && bindings == WrittenPVs(bs, pvAnswers, i)
      ensures j == (if i == |bs| then Answered(pvcAnswers, 0) else 0) && claims == WrittenPVCs(cs, pvcAnswers, j)
    {
      bindings, i := WritePVs(bs, pvAnswers);
      claims, j := cs, 0;
      assert claims == WrittenPVCs(claims, pvcAnswers, 0);
      if i == |bs| {
        claims, j := WritePVCs(cs, pvcAnswers);
      }
    }

    /** bindAPIUpdate with the answers of the API server, absent where a call fails: what was
        written stays assumed, and exactly the rest is restored. The decision shares its
        slices with the caller, so the objects that the server returned show in it. */
    method BindAPIUpdate(pod: string, node: string, pvAnswers: seq<Option<PV>>, pvcAnswers: seq<Option<PVC>>)
        returns (ok: bool)
      requires |pvAnswers| == |OrEmpty(Lookup(podBindingCache.bindingDecisions, pod, node).bindings)|
      requires |pvcAnswers| == |OrEmpty(Lookup(podBindingCache.bindingDecisions, pod, node).provisionings)|
      modifies pvCache, pvcCache, podBindingCache
      ensures var d := Lookup(old(podBindingCache.bindingDecisions), pod, node);
              if d.bindings.None? || d.provisionings.None? then
                && !ok && pvCache.store == old(pvCache.store) && pvcCache.store == old(pvcCache.store)
                && podBindingCache.bindingDecisions == old(podBindingCache.bindingDecisions)
              else
                var bs, cs := d.bindings.value, d.provisionings.value;
                var i := Answered(pvAnswers, 0);
                var j := if i == |bs| then Answered(pvcAnswers, 0) else 0;
                && (ok <==> i == |bs| && j == |cs|)
                && pvCache.store == RestoredAll(old(pvCache.store), PVNames(bs[i..]), |bs| - i)
                && pvcCache.store == RestoredAll(old(pvcCache.store), PVCNames(cs[j..]), |cs| - j)
                && podBindingCache.bindingDecisions == Updated(old(podBindingCache.bindingDecisions), pod, node,
                     Decision(Some(WrittenPVs(bs, pvAnswers, i)), Some(WrittenPVCs(cs, pvcAnswers, j))))
    {
      var b := podBindingCache.GetBindings(pod, node);
      var c := podBindingCache.GetProvisionedPVCs(pod, node);
      if b.None? || c.None? {
        return false;
      }
      var bindings, lastBinding, claims, lastProvisioning := WriteAll(b.value, c.value, pvAnswers, pvcAnswers);
      ok := lastBinding == |b.value| && lastProvisioning == |c.value|;
      RevertAssumedPVs(b.value[lastBinding..]);
      RevertAssumedPVCs(c.value[lastProvisioning..]);
      podBindingCache.UpdateBindings(pod, node, Some(bindings), Some(claims));
    }
  }

  /** Index of the first call from i on that fails, or the number of calls. */
  function Answered<T>(answers: seq<Option<T>>, i: nat): (k: nat)
    requires i <= |answers|
    ensures i <= k <= |answers|
    ensures forall j :: i <= j < k ==> answers[j].Some?
    ensures k < |answers| ==> answers[k].None?
    decreases |answers| - i
  {
    if i == |answers| || answers[i].None? then i else Answered(answers, i + 1)
  }

  function WrittenPVs(bs: seq<Binding>, answers: seq<Option<PV>>, n: nat): (r: seq<Binding>)
    requires n <= |bs| == |answers| && forall k :: 0 <= k < n ==> answers[k].Some?
    ensures |r| == |bs|
  {
    seq(|bs|, k requires 0 <= k < |bs| => if k < n then bs[k].(pv := answers[k].value) else bs[k])
  }

  function WrittenPVCs(cs: seq<PVC>, answers: seq<Option<PVC>>, n: nat): (r: seq<PVC>)
    requires n <= |cs| == |answers| && forall k :: 0 <= k < n ==> answers[k].Some?
    ensures |r| == |cs|
  {
    seq(|cs|, k requires 0 <= k < |cs| => if k < n then answers[k].value else cs[k])
  }

  // ---- what the calls mean ----

  /** What is remembered of a plan that is assumed: each claim with its volume, which refers to
      it, and each claim to provision with the node. */
  lemma AssumedDecision(bs: seq<Binding>, cs: seq<PVC>, node: string)
    ensures forall i :: 0 <= i < |bs| ==>
      && Rebound(bs)[i].pvc == bs[i].pvc && Rebound(bs)[i].pv.name == bs[i].pv.name
      && Rebound(bs)[i].pv.spec.claimRef == Some(bs[i].pvc.spec.ref)
    ensures forall i :: 0 <= i < |cs| ==>
      Annotated(cs, node)[i] == cs[i].(spec := cs[i].spec.(selectedNode := Some(node)))
  {
    forall i | 0 <= i < |bs|
      ensures NewPV(bs[i]).name == bs[i].pv.name && NewPV(bs[i]).spec.claimRef == Some(bs[i].pvc.spec.ref)
    {
      BindVolumeOk(bs[i].pv, bs[i].pvc);
    }
  }

  /** What is remembered of a plan of which i volumes and j claims are written: the objects the
      server returned for these, and the others as they were. */
  lemma WrittenDecision(bs: seq<Binding>, pvAnswers: seq<Option<PV>>, cs: seq<PVC>, pvcAnswers: seq<Option<PVC>>,
          i: nat, j: nat)
    requires |pvAnswers| == |bs| && i == Answered(pvAnswers, 0)
    requires |pvcAnswers| == |cs| && j <= Answered(pvcAnswers, 0)
    ensures forall k :: 0 <= k < i ==>
      pvAnswers[k].Some? && WrittenPVs(bs, pvAnswers, i)[k] == Binding(bs[k].pvc, pvAnswers[k].value)
    ensures WrittenPVs(bs, pvAnswers, i)[i..] == bs[i..]
    ensures forall k :: 0 <= k < j ==> pvcAnswers[k] == Some(WrittenPVCs(cs, pvcAnswers, j)[k])
    ensures WrittenPVCs(cs, pvcAnswers, j)[j..] == cs[j..]
  {
  }

  /** A failed AssumePodVolumes leaves both caches as they were if and only if no assumption
      stood on the objects it came to, which are known before the call. */
  lemma FailureLeavesNoTraceIff(s: Store<Volume>, t: Store<Claim>, bs: seq<Binding>, cs: seq<PVC>, node: string)
    ensures var (k, j) := Reach(s, t, bs, cs, node);
            RestoredAll(s, PVNames(bs), k) == s && RestoredAll(t, PVCNames(cs), j) == t <==>
            (forall i :: 0 <= i < k ==> Settled(s, bs[i].pv.name)) &&
            (forall i :: 0 <= i < j ==> Settled(t, cs[i].name))
  {
    var (k, j) := Reach(s, t, bs, cs, node);
    RestoredAllIff(s, PVNames(bs), k);
    RestoredAllIff(t, PVCNames(cs), j);
    assert forall i :: 0 <= i < k ==> PVNames(bs)[i] == bs[i].pv.name;
    assert forall i :: 0 <= i < j ==> PVCNames(cs)[i] == cs[i].name;
  }

  lemma OneMoreAssumed(t: Store<Volume>, b: Binding, name: string)
    requires (Dirty(b) ==> CanAssume(t, NewPV(b))) && name in t
    ensures var u := if Dirty(b) then Assumed(t, NewPV(b)) else t;
            && u.Keys == t.Keys
            && u[name] == if name == b.pv.name && Dirty(b) then t[name].(latestObj := NewPV(b)) else t[name]
  {
    BindVolumeOk(b.pv, b.pvc);
    if Dirty(b) {
      AssumedAt(t, NewPV(b), name);
    }
  }

  /** The entry of a volume once its binding is assumed. */
  function AfterAssuming(i: ObjInfo<Volume>, b: Binding): ObjInfo<Volume> {
    if Dirty(b) then i.(latestObj := NewPV(b)) else i
  }

  lemma {:induction false} UnplannedStays(s: Store<Volume>, bs: seq<Binding>, n: nat, name: string)
    requires n <= |bs| && name in s && forall k :: 0 <= k < n ==> bs[k].pv.name != name
    ensures name in PVsAssumed(s, bs, n) && PVsAssumed(s, bs, n)[name] == s[name]
  {
    PVsTouched(s, bs, n);
    assert forall k :: 0 <= k < n ==> PVNames(bs)[..n][k] == bs[k].pv.name;
  }

  /** A plan that is assumed leaves exactly the planned volumes bound to their claims. */
  lemma {:induction false} PlanAssumedExactly(s: Store<Volume>, bs: seq<Binding>, n: nat, i: nat)
    requires i < n <= |bs| && NamesDiffer(bs) && forall k :: 0 <= k < n ==> PVAssumable(s, bs, k)
    requires bs[i].pv.name in s
    ensures bs[i].pv.name in PVsAssumed(s, bs, n)
    ensures PVsAssumed(s, bs, n)[bs[i].pv.name] == AfterAssuming(s[bs[i].pv.name], bs[i])
  {
    var name := bs[i].pv.name;
    assert PVAssumable(s, bs, n - 1);
    if i < n - 1 {
      PlanAssumedExactly(s, bs, n - 1, i);
    } else {
      UnplannedStays(s, bs, n - 1, name);
    }
    OneMoreAssumed(PVsAssumed(s, bs, n - 1), bs[n - 1], name);
  }

  /** After bindAPIUpdate the volumes written keep their assumption and the others stand as
      the informer last saw them. */
  lemma RolledBackExactly(s: Store<Volume>, bs: seq<Binding>, i: nat, m: string)
    requires i <= |bs| && NamesDiffer(bs) && m in s
    ensures var t := RestoredAll(s, PVNames(bs[i..]), |bs| - i);
            m in t && t[m] ==
              if exists k :: i <= k < |bs| && bs[k].pv.name == m then s[m].(latestObj := s[m].apiObj) else s[m]
    ensures forall k :: 0 <= k < i && bs[k].pv.name == m ==> RestoredAll(s, PVNames(bs[i..]), |bs| - i)[m] == s[m]
  {
    var names := PVNames(bs[i..]);
    RestoredAllAt(s, names, |bs| - i);
    assert names[..|bs| - i] == names;
    assert forall k :: 0 <= k < |names| ==> names[k] == bs[i + k].pv.name;
    assert forall k :: i <= k < |bs| ==> names[k - i] == bs[k].pv.name;
  }

  // ---- the same for claims ----

  lemma UnplannedClaimStays(s: Store<Claim>, cs: seq<PVC>, node: string, n: nat, name: string)
    requires n <= |cs| && name in s && forall k :: 0 <= k < n ==> cs[k].name != name
    ensures name in PVCsAssumed(s, cs, node, n) && PVCsAssumed(s, cs, node, n)[name] == s[name]
  {
    PVCsTouched(s, cs, node, n);
    assert forall k :: 0 <= k < n ==> PVCNames(cs)[..n][k] == cs[k].name;
  }

  /** The last of the first n claims with the name of claim i. */
  function LastLike(cs: seq<PVC>, i: nat, n: nat): (l: nat)
    requires i < n <= |cs|
    ensures i <= l < n && cs[l].name == cs[i].name && forall k :: l < k < n ==> cs[k].name != cs[i].name
    decreases n
  {
    if i == n - 1 || cs[n - 1].name == cs[i].name then n - 1 else LastLike(cs, i, n - 1)
  }

  /** A plan that is assumed leaves exactly the planned claims with the selected node. A claim
      listed twice is assumed twice, and the later object stands. */
  lemma {:induction false} ClaimsAssumedExactly(s: Store<Claim>, cs: seq<PVC>, node: string, n: nat, i: nat)
    requires i < n <= |cs| && forall k :: 0 <= k < n ==> PVCAssumable(s, cs, node, k)
    ensures cs[i].name in s && cs[i].name in PVCsAssumed(s, cs, node, n)
    ensures PVCsAssumed(s, cs, node, n)[cs[i].name]
      == s[cs[i].name].(latestObj := WithSelectedNode(cs[LastLike(cs, i, n)], node))
  {
    var name, t := cs[i].name, PVCsAssumed(s, cs, node, n - 1);
    assert PVCAssumable(s, cs, node, n - 1);
    PVCsTouched(s, cs, node, n - 1);
    if i < n - 1 {
      ClaimsAssumedExactly(s, cs, node, n - 1, i);
    }
    AssumedAt(t, WithSelectedNode(cs[n - 1], node), name);
  }

  /** After bindAPIUpdate exactly the claims not written stand as the informer last saw them. */
  lemma ClaimsRolledBackExactly(s: Store<Claim>, cs: seq<PVC>, i: nat, m: string)
    requires i <= |cs| && m in s
    ensures var t := RestoredAll(s, PVCNames(cs[i..]), |cs| - i);
            m in t && t[m] ==
              if exists k :: i <= k < |cs| && cs[k].name == m then s[m].(latestObj := s[m].apiObj) else s[m]
  {
    var names := PVCNames(cs[i..]);
    RestoredAllAt(s, names, |cs| - i);
    assert names[..|cs| - i] == names;
    assert forall k :: 0 <= k < |names| ==> names[k] == cs[i + k].name;
    assert forall k :: i <= k < |cs| ==> names[k - i] == cs[k].name;
  }

  /** The first i claims keep what they have in the cache when the others are restored. */
  ghost predicate WrittenStay(s: Store<Claim>, cs: seq<PVC>, i: nat)
    requires i <= |cs|
  {
    var t := RestoredAll(s, PVCNames(cs[i..]), |cs| - i);
    forall k :: 0 <= k < i && cs[k].name in s ==> cs[k].name in t && t[cs[k].name] == s[cs[k].name]
  }

  /** What is written stays assumed if and only if no claim with an assumption is listed both
      among those written and among the others. */
  lemma WrittenStayIff(s: Store<Claim>, cs: seq<PVC>, i: nat)
    requires i <= |cs|
    ensures WrittenStay(s, cs, i) <==>
            forall k, l :: 0 <= k < i <= l < |cs| && cs[k].name == cs[l].name ==> Settled(s, cs[k].name)
  {
    var t := RestoredAll(s, PVCNames(cs[i..]), |cs| - i);
    forall k | 0 <= k < i && cs[k].name in s
      ensures cs[k].name in t && t[cs[k].name] ==
        if exists l :: i <= l < |cs| && cs[l].name == cs[k].name
        then s[cs[k].name].(latestObj := s[cs[k].name].apiObj) else s[cs[k].name]
    {
      ClaimsRolledBackExactly(s, cs, i, cs[k].name);
    }
  }

  /** The claims that a found plan is to provision are objects of the cache, so two of one
      name are one object. */
  lemma FoundClaimsAgree(s: Store<Volume>, claims: Store<Claim>, volumes: seq<Option<string>>, node: Node,
          classes: Classes, r: FindResult, matched: seq<Binding>, provisioned: seq<PVC>, t: Turns, i: nat, j: nat)
    requires StoreOk(claims)
    requires SearchIs(s, claims, volumes, node, classes, r, matched, provisioned, t) && r.Verdict? && r.bindOk
    requires i < |provisioned| && j < |provisioned|
    ensures provisioned[i].name in claims && claims[provisioned[i].name].latestObj == provisioned[i]
    ensures provisioned[i].name == provisioned[j].name ==> provisioned[i] == provisioned[j]
  {
    FoundClaimCached(s, claims, volumes, node, classes, r, matched, provisioned, t, i);
    FoundClaimCached(s, claims, volumes, node, classes, r, matched, provisioned, t, j);
  }

  lemma FoundClaimCached(s: Store<Volume>, claims: Store<Claim>, volumes: seq<Option<string>>, node: Node,
          classes: Classes, r: FindResult, matched: seq<Binding>, provisioned: seq<PVC>, t: Turns, i: nat)
    requires StoreOk(claims)
    requires SearchIs(s, claims, volumes, node, classes, r, matched, provisioned, t) && r.Verdict? && r.bindOk
    requires i < |provisioned|
    ensures provisioned[i].name in claims && claims[provisioned[i].name].latestObj == provisioned[i]
  {
    var delayed, c := PartsOf(claims, classes, volumes, |volumes|).value.delayed, provisioned[i];
    PlanIsOk(s, classes, delayed, node, matched, provisioned, t);
    assert c in multiset(provisioned);
    assert c in multiset(delayed);
    assert c in delayed;
    DelayedNamed(claims, classes, volumes, |volumes|, c);
  }

  // ---- when a plan can be assumed ----

  /** Claims of one name are one object. */
  predicate ClaimsAgree(cs: seq<PVC>) {
    forall i, j :: 0 <= i < |cs| && 0 <= j < |cs| && cs[i].name == cs[j].name ==> cs[i] == cs[j]
  }

  lemma PVAssumableIff(s: Store<Volume>, bs: seq<Binding>, k: nat)
    requires k < |bs| && NamesDiffer(bs)
    ensures PVAssumable(s, bs, k) <==> (Dirty(bs[k]) ==> CanAssume(s, NewPV(bs[k])))
  {
    var name := bs[k].pv.name;
    BindVolumeOk(bs[k].pv, bs[k].pvc);
    PVsTouched(s, bs, k);
    if name in s {
      UnplannedStays(s, bs, k, name);
    }
  }

  /** The entry of a claim is as before the call, or the claim has been assumed. */
  lemma {:induction false} ClaimSettledOrAssumed(s: Store<Claim>, cs: seq<PVC>, node: string, n: nat, c: PVC)
    requires n <= |cs| && c.name in s && forall i :: 0 <= i < n && cs[i].name == c.name ==> cs[i] == c
    ensures var w := WithSelectedNode(c, node);
            && c.name in PVCsAssumed(s, cs, node, n)
            && (PVCsAssumed(s, cs, node, n)[c.name] == s[c.name] ||
                (CanAssume(s, w) && PVCsAssumed(s, cs, node, n)[c.name] == s[c.name].(latestObj := w)))
  {
    if n > 0 {
      ClaimSettledOrAssumed(s, cs, node, n - 1, c);
    }
  }

  lemma PVCAssumableIff(s: Store<Claim>, cs: seq<PVC>, node: string, k: nat)
    requires k < |cs| && ClaimsAgree(cs)
    ensures PVCAssumable(s, cs, node, k) <==> CanAssume(s, WithSelectedNode(cs[k], node))
  {
    PVCsTouched(s, cs, node, k);
    if cs[k].name in s {
      ClaimSettledOrAssumed(s, cs, node, k, cs[k]);
    }
  }

  /** Every object of the plan is in its cache, and no version runs backwards. */
  predicate AllAssumable(s: Store<Volume>, t: Store<Claim>, bs: seq<Binding>, cs: seq<PVC>, node: string) {
    && (forall k :: 0 <= k < |bs| && Dirty(bs[k]) ==> CanAssume(s, NewPV(bs[k])))
    && forall k :: 0 <= k < |cs| ==> CanAssume(t, WithSelectedNode(cs[k], node))
  }

  /** When AssumePodVolumes gets through, in terms of the caches and the plan before it. */
  lemma ReachesAllIff(s: Store<Volume>, t: Store<Claim>, bs: seq<Binding>, cs: seq<PVC>, node: string)
    requires NamesDiffer(bs) && ClaimsAgree(cs)
    ensures Reach(s, t, bs, cs, node) == (|bs|, |cs|) <==> AllAssumable(s, t, bs, cs, node)
  {
    forall k | 0 <= k < |bs|
      ensures PVAssumable(s, bs, k) <==> (Dirty(bs[k]) ==> CanAssume(s, NewPV(bs[k])))
    {
      PVAssumableIff(s, bs, k);
    }
    forall k | 0 <= k < |cs|
      ensures PVCAssumable(t, cs, node, k) <==> CanAssume(t, WithSelectedNode(cs[k], node))
    {
      PVCAssumableIff(t, cs, node, k);
    }
  }

  /** The latest objects have versions that parse. */
  ghost predicate Versioned<T>(s: Store<T>) { forall n :: n in s ==> s[n].latestObj.version.Some? }

  /** A plan that was found can be assumed while the caches stay as they are. */
  lemma FoundPlanAssumable(s: Store<Volume>, claims: Store<Claim>, volumes: seq<Option<string>>, node: Node,
          classes: Classes, r: FindResult, matched: seq<Binding>, provisioned: seq<PVC>, t: Turns)
    requires StoreOk(claims) && Versioned(s) && Versioned(claims)
    requires SearchIs(s, claims, volumes, node, classes, r, matched, provisioned, t) && r.Verdict? && r.bindOk
    ensures NamesDiffer(matched) && ClaimsAgree(provisioned)
    ensures Reach(s, claims, matched, provisioned, node.name) == (|matched|, |provisioned|)
  {
    var delayed := PartsOf(claims, classes, volumes, |volumes|).value.delayed;
    PlanIsOk(s, classes, delayed, node, matched, provisioned, t);
    forall i | 0 <= i < |provisioned|
      ensures provisioned[i].name in claims && claims[provisioned[i].name].latestObj == provisioned[i]
    {
      FoundClaimCached(s, claims, volumes, node, classes, r, matched, provisioned, t, i);
    }
    LatestPlanAssumable(s, claims, classes, delayed, node, matched, provisioned);
  }

  /** A plan of latest objects. */
  lemma LatestPlanAssumable(s: Store<Volume>, claims: Store<Claim>, classes: Classes, delayed: seq<PVC>, node: Node,
          matched: seq<Binding>, provisioned: seq<PVC>)
    requires Versioned(s) && Versioned(claims) && PlanOk(delayed, matched, provisioned, s, classes, node)
    requires forall i :: 0 <= i < |provisioned| ==>
      provisioned[i].name in claims && claims[provisioned[i].name].latestObj == provisioned[i]
    ensures NamesDiffer(matched) && ClaimsAgree(provisioned)
    ensures Reach(s, claims, matched, provisioned, node.name) == (|matched|, |provisioned|)
  {
    forall k | 0 <= k < |matched|
      ensures CanAssume(s, NewPV(matched[k]))
    {
      BindVolumeOk(matched[k].pv, matched[k].pvc);
      assert Serves(s, matched[k], node);
    }
    ReachesAllIff(s, claims, matched, provisioned, node.name);
  }

  // ---- finding and assuming, one after the other ----

  /** The plan stands in the caches: each volume matched refers to its claim, and each claim to
      provision has the node. */
  ghost predicate PlanStands(s: Store<Volume>, t: Store<Claim>, bs: seq<Binding>, cs: seq<PVC>, node: string) {
    && (forall i :: 0 <= i < |bs| ==>
          bs[i].pv.name in s && s[bs[i].pv.name].latestObj.spec.claimRef == Some(bs[i].pvc.spec.ref))
    && (forall i :: 0 <= i < |cs| ==>
          cs[i].name in t && t[cs[i].name].latestObj == cs[i].(spec := cs[i].spec.(selectedNode := Some(node))))
  }

  /** The objects remembered are those in the caches. */
  ghost predicate DecisionStands(d: Decision, s: Store<Volume>, t: Store<Claim>, bs: seq<Binding>, cs: seq<PVC>) {
    && d.bindings.Some? && |d.bindings.value| == |bs| && d.provisionings.Some? && |d.provisionings.value| == |cs|
    && (forall i :: 0 <= i < |bs| ==>
          bs[i].pv.name in s && d.bindings.value[i] == Binding(bs[i].pvc, s[bs[i].pv.name].latestObj))
    && (forall i :: 0 <= i < |cs| ==> cs[i].name in t && d.provisionings.value[i] == t[cs[i].name].latestObj)
  }

  lemma VolumesStand(s: Store<Volume>, bs: seq<Binding>, i: nat)
    requires i < |bs| && NamesDiffer(bs) && forall k :: 0 <= k < |bs| ==> PVAssumable(s, bs, k)
    requires bs[i].pv.name in s && s[bs[i].pv.name].latestObj == bs[i].pv
    ensures var t := PVsAssumed(s, bs, |bs|);
            && bs[i].pv.name in t && t[bs[i].pv.name].latestObj == NewPV(bs[i])
            && NewPV(bs[i]).spec.claimRef == Some(bs[i].pvc.spec.ref)
  {
    PlanAssumedExactly(s, bs, |bs|, i);
    BindVolumeOk(bs[i].pv, bs[i].pvc);
  }

  lemma FoundPlanStands(s: Store<Volume>, claims: Store<Claim>, volumes: seq<Option<string>>, node: Node,
          classes: Classes, r: FindResult, matched: seq<Binding>, provisioned: seq<PVC>, t: Turns)
    requires StoreOk(claims) && Versioned(s) && Versioned(claims)
    requires SearchIs(s, claims, volumes, node, classes, r, matched, provisioned, t) && r.Verdict? && r.bindOk
    ensures PlanStands(PVsAssumed(s, matched, |matched|),
                       PVCsAssumed(claims, provisioned, node.name, |provisioned|), matched, provisioned, node.name)
    ensures DecisionStands(Decision(Some(Rebound(matched)), Some(Annotated(provisioned, node.name))),
                           PVsAssumed(s, matched, |matched|),
                           PVCsAssumed(claims, provisioned, node.name, |provisioned|), matched, provisioned)
  {
    FoundPlanAssumable(s, claims, volumes, node, classes, r, matched, provisioned, t);
    PlanIsOk(s, classes, PartsOf(claims, classes, volumes, |volumes|).value.delayed, node, matched, provisioned, t);
    forall i | 0 <= i < |matched|
      ensures var u := PVsAssumed(s, matched, |matched|);
              matched[i].pv.name in u && u[matched[i].pv.name].latestObj == NewPV(matched[i]) &&
              NewPV(matched[i]).spec.claimRef == Some(matched[i].pvc.spec.ref)
    {
      assert Serves(s, matched[i], node);
      VolumesStand(s, matched, i);
    }
    forall i | 0 <= i < |provisioned|
      ensures var u := PVCsAssumed(claims, provisioned, node.name, |provisioned|);
              provisioned[i].name in u &&
              u[provisioned[i].name].latestObj == WithSelectedNode(provisioned[i], node.name)
    {
      ClaimsAssumedExactly(claims, provisioned, node.name, |provisioned|, i);
    }
  }

  /** FindPodVolumes and then AssumePodVolumes for the same pod and node, with no other call in
      between: what was found without a conflict is assumed, all of it, unless all claims are
      bound already. */
  method FindThenAssume(binder: VolumeBinder, pod: string, volumes: seq<Option<string>>, node: Node, classes: Classes)
      returns (r: FindResult, a: AssumeResult, ghost matched: seq<Binding>, ghost provisioned: seq<PVC>, ghost t: Turns)
    requires StoreOk(binder.pvCache.store) && StoreOk(binder.pvcCache.store)
    requires Versioned(binder.pvCache.store) && Versioned(binder.pvcCache.store)
    modifies binder.pvCache, binder.pvcCache, binder.podBindingCache
    ensures SearchIs(old(binder.pvCache.store), old(binder.pvcCache.store), volumes, node, classes, r, matched,
                     provisioned, t)
    ensures r.Verdict? && r.bindOk ==>
      && a == (if VolumesBound(old(binder.pvcCache.store), volumes) then AllBound else Planned)
      && (a == Planned ==>
            && PlanStands(binder.pvCache.store, binder.pvcCache.store, matched, provisioned, node.name)
            && DecisionStands(Lookup(binder.podBindingCache.bindingDecisions, pod, node.name), binder.pvCache.store,
                              binder.pvcCache.store, matched, provisioned))
      && (a == AllBound ==> binder.pvCache.store == old(binder.pvCache.store) &&
                            binder.pvcCache.store == old(binder.pvcCache.store))
  {
    r, matched, provisioned, t := binder.FindPodVolumes(pod, volumes, node, classes);
    ghost var s, claims := binder.pvCache.store, binder.pvcCache.store;
    if r.Verdict? && r.bindOk {
      FoundPlanAssumable(s, claims, volumes, node, classes, r, matched, provisioned, t);
      FoundPlanStands(s, claims, volumes, node, classes, r, matched, provisioned, t);
    }
    a := binder.AssumePodVolumes(pod, volumes, node.name);
  }
}
