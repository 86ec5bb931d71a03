/** Assuming the volumes of a pod, writing them to the API server and taking back what
    was not written (pkg/controller/volume/scheduling/scheduler_binder.go). */
module VolumeAssumptions {
  import opened Api
  import opened AssumeCaches
  import opened VolumeMatching

  // ---- binding a volume to a claim ----

  predicate RefersTo(v: Volume, c: Claim) { v.claimRef == Some(c.ref) }

  /** GetBindVolumeToClaim: the new volume and whether it differs. */
  function BindVolumeToClaim(pv: PV, pvc: PVC): (PV, bool) {
    var v, c := pv.spec, pvc.spec;
    var mark := !IsVolumeBoundToClaim(v, c) && !v.boundByController;
    var spec := v.(claimRef := Some(c.ref), boundByController := v.boundByController || mark);
    (pv.(spec := spec), !RefersTo(v, c) || mark)
  }

  /** The result refers to the claim and is marked as bound by the controller unless it was
      bound to the claim before; it is reported as changed exactly when it is, and is not
      changed by binding it again. */
  lemma BindVolumeOk(pv: PV, pvc: PVC)
    ensures var (newPV, dirty) := BindVolumeToClaim(pv, pvc);
            && newPV.spec.claimRef == Some(pvc.spec.ref)
            && (newPV.spec.boundByController <==>
                  || pv.spec.boundByController
                  || (pv.spec.claimRef != Some(pvc.spec.ref) && pv.spec.claimRef != Some(pvc.spec.ref.(uid := ""))))
            && (dirty <==> newPV != pv)
            && BindVolumeToClaim(newPV, pvc) == (newPV, false)
            && newPV.name == pv.name && newPV.version == pv.version
            && newPV.spec.(claimRef := pv.spec.claimRef, boundByController := pv.spec.boundByController) == pv.spec
  {
  }

  function WithSelectedNode(pvc: PVC, node: string): PVC { pvc.(spec := pvc.spec.(selectedNode := Some(node))) }

  // ---- the plan of assumptions, on values ----

  function NewPV(b: Binding): PV { BindVolumeToClaim(b.pv, b.pvc).0 }

  function Dirty(b: Binding): bool { BindVolumeToClaim(b.pv, b.pvc).1 }

  /** The volume cache after the first n bindings are assumed. */
  function PVsAssumed(s: Store<Volume>, bs: seq<Binding>, n: nat): Store<Volume>
    requires n <= |bs|
  {
    if n == 0 then s
    else
      var t := PVsAssumed(s, bs, n - 1);
      if Dirty(bs[n - 1]) then Assumed(t, NewPV(bs[n - 1])) else t
  }

  function PVCsAssumed(s: Store<Claim>, cs: seq<PVC>, node: string, n: nat): Store<Claim>
    requires n <= |cs|
  {
    if n == 0 then s else Assumed(PVCsAssumed(s, cs, node, n - 1), WithSelectedNode(cs[n - 1], node))
  }

  function PVNames(bs: seq<Binding>): (names: seq<string>)
    ensures |names| == |bs|
  {
    seq(|bs|, i requires 0 <= i < |bs| => bs[i].pv.name)
  }

  function PVCNames(cs: seq<PVC>): (names: seq<string>)
    ensures |names| == |cs|
  {
    seq(|cs|, i requires 0 <= i < |cs| => cs[i].name)
  }

  function Rebound(bs: seq<Binding>): (r: seq<Binding>)
    ensures |r| == |bs|
  {
    seq(|bs|, i requires 0 <= i < |bs| => Binding(bs[i].pvc, NewPV(bs[i])))
  }

  function Annotated(cs: seq<PVC>, node: string): (r: seq<PVC>)
    ensures |r| == |cs|
  {
    seq(|cs|, i requires 0 <= i < |cs| => WithSelectedNode(cs[i], node))
  }

  /** Assuming objects and restoring at least these comes to the same as restoring alone. */
  lemma {:induction false} PVsTakenBack(s: Store<Volume>, bs: seq<Binding>, n: nat)
    requires n <= |bs|
    ensures RestoredAll(PVsAssumed(s, bs, n), PVNames(bs), n) == RestoredAll(s, PVNames(bs), n)
  {
    var t := PVsAssumed(s, bs, n);
    PVsTouched(s, bs, n);
    RestoredAllAt(t, PVNames(bs), n);
    RestoredAllAt(s, PVNames(bs), n);
  }

  /** Only the latest objects of the volumes bound change. */
  lemma {:induction false} PVsTouched(s: Store<Volume>, bs: seq<Binding>, n: nat)
    requires n <= |bs|
    ensures PVsAssumed(s, bs, n).Keys == s.Keys
    ensures forall m :: m in s ==> PVsAssumed(s, bs, n)[m].apiObj == s[m].apiObj
    ensures forall m :: m in s && m !in PVNames(bs)[..n] ==> PVsAssumed(s, bs, n)[m] == s[m]
  {
    if n > 0 {
      PVsTouched(s, bs, n - 1);
      assert PVNames(bs)[..n] == PVNames(bs)[..n - 1] + [bs[n - 1].pv.name];
    }
  }

  lemma {:induction false} PVCsTouched(s: Store<Claim>, cs: seq<PVC>, node: string, n: nat)
    requires n <= |cs|
    ensures PVCsAssumed(s, cs, node, n).Keys == s.Keys
    ensures forall m :: m in s ==> PVCsAssumed(s, cs, node, n)[m].apiObj == s[m].apiObj
    ensures forall m :: m in s && m !in PVCNames(cs)[..n] ==> PVCsAssumed(s, cs, node, n)[m] == s[m]
  {
    if n > 0 {
      PVCsTouched(s, cs, node, n - 1);
      assert PVCNames(cs)[..n] == PVCNames(cs)[..n - 1] + [cs[n - 1].name];
    }
  }

  lemma PVCsTakenBack(s: Store<Claim>, cs: seq<PVC>, node: string, n: nat)
    requires n <= |cs|
    ensures RestoredAll(PVCsAssumed(s, cs, node, n), PVCNames(cs), n) == RestoredAll(s, PVCNames(cs), n)
  {
    PVCsTouched(s, cs, node, n);
    RestoredAllAt(PVCsAssumed(s, cs, node, n), PVCNames(cs), n);
    RestoredAllAt(s, PVCNames(cs), n);
  }

  /** Restoring changes nothing if and only if no assumption stood on the objects. */
  lemma RestoredAllIff<T>(s: Store<T>, names: seq<string>, n: nat)
    requires n <= |names|
    ensures RestoredAll(s, names, n) == s <==> forall i :: 0 <= i < n ==> Settled(s, names[i])
  {
    RestoredAllAt(s, names, n);
    var t := RestoredAll(s, names, n);
    forall i | 0 <= i < n && names[i] in s
      ensures names[i] in names[..n] && t[names[i]].latestObj == s[names[i]].apiObj
    {
      assert names[..n][i] == names[i];
    }
    if forall i :: 0 <= i < n ==> Settled(s, names[i]) {
      forall m | m in s
        ensures t[m] == s[m]
      {
        if m in names[..n] {
          var i :| 0 <= i < n && names[..n][i] == m;
          assert Settled(s, names[i]);
        }
      }
    }
  }
}
