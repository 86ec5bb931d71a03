/** The claims of a pod by what has to be done for them
    (pkg/controller/volume/scheduling/scheduler_binder.go, getPodVolumes). */
module PodClaims {
  import opened Api
  import opened AssumeCaches
  import opened Sequences
  import opened VolumeMatching

  /** `delayed` is the binding mode, absent when it is not set. */
  datatype StorageClass = StorageClass(delayed: Option<bool>, provisioner: string, topologies: seq<NodeTerm>)

  type Classes = map<string, StorageClass>

  /** IsDelayBindingMode; absent when it reports an error. */
  function DelayBinding(c: Claim, classes: Classes): Option<bool> {
    if c.storageClass == "" || c.storageClass !in classes then Some(false) else classes[c.storageClass].delayed
  }

  datatype Parts = Parts(bound: seq<PVC>, delayed: seq<PVC>, immediate: seq<PVC>)

  /** The loop over the first n volumes of a pod, each with the claim that it names, if any. */
  function PartsOf(s: Store<Claim>, classes: Classes, volumes: seq<Option<string>>, n: nat): Option<Parts>
    requires n <= |volumes|
  {
    if n == 0 then Some(Parts([], [], []))
    else
      var p := PartsOf(s, classes, volumes, n - 1);
      if p.None? || volumes[n - 1].None? then p
      else if volumes[n - 1].value !in s then None
      else WithClaim(p.value, s[volumes[n - 1].value].latestObj, classes)
  }

  function WithClaim(p: Parts, pvc: PVC, classes: Classes): Option<Parts> {
    if FullyBound(pvc.spec) then Some(p.(bound := p.bound + [pvc]))
    else
      match DelayBinding(pvc.spec, classes)
      case None => None
      case Some(delayed) =>
        if delayed && pvc.spec.volumeName == "" then Some(p.(delayed := p.delayed + [pvc]))
        else Some(p.(immediate := p.immediate + [pvc]))
  }

  // ---- what qualifies a claim for each part ----

  /** It names its volume, and the binding is complete. */
  predicate IsBound(pvc: PVC) { pvc.spec.volumeName != "" && pvc.spec.bindCompleted }

  /** Bound, or its class, if it is known, has a binding mode. */
  predicate Readable(pvc: PVC, classes: Classes) {
    IsBound(pvc) || pvc.spec.storageClass == "" ||
    (pvc.spec.storageClass in classes ==> classes[pvc.spec.storageClass].delayed != None)
  }

  /** It names no volume, and its class waits for the first consumer. */
  predicate IsDelayed(pvc: PVC, classes: Classes) {
    && pvc.spec.volumeName == "" && pvc.spec.storageClass != "" && pvc.spec.storageClass in classes
    && classes[pvc.spec.storageClass].delayed == Some(true)
  }

  predicate IsImmediate(pvc: PVC, classes: Classes) { !IsBound(pvc) && !IsDelayed(pvc, classes) }

  /** The claims that the first n volumes name, in order. */
  function Claimed(s: Store<Claim>, volumes: seq<Option<string>>, n: nat): seq<PVC>
    requires n <= |volumes|
  {
    if n == 0 then []
    else if volumes[n - 1].Some? && volumes[n - 1].value in s
    then Claimed(s, volumes, n - 1) + [s[volumes[n - 1].value].latestObj]
    else Claimed(s, volumes, n - 1)
  }

  /** Every claim is known, and its binding mode can be read if it matters. */
  predicate AllReadable(s: Store<Claim>, classes: Classes, volumes: seq<Option<string>>, n: nat)
    requires n <= |volumes|
  {
    forall i :: 0 <= i < n && volumes[i].Some? ==>
      volumes[i].value in s && Readable(s[volumes[i].value].latestObj, classes)
  }

  /** The parts are the claims of the pod that qualify for each, in order. */
  predicate SortedOut(p: Parts, classes: Classes, claims: seq<PVC>) {
    && p.bound == Filter((c: PVC) => IsBound(c), claims, |claims|)
    && p.delayed == Filter((c: PVC) => IsDelayed(c, classes), claims, |claims|)
    && p.immediate == Filter((c: PVC) => IsImmediate(c, classes), claims, |claims|)
  }

  lemma {:induction false} FilterPrefix<T>(keep: T -> bool, a: seq<T>, b: seq<T>, n: nat)
    requires n <= |a| && n <= |b| && forall i :: 0 <= i < n ==> a[i] == b[i]
    ensures Filter(keep, a, n) == Filter(keep, b, n)
  {
    if n > 0 {
      FilterPrefix(keep, a, b, n - 1);
    }
  }

  lemma FilterAppend<T>(keep: T -> bool, s: seq<T>, x: T)
    ensures Filter(keep, s + [x], |s + [x]|) == if keep(x) then Filter(keep, s, |s|) + [x] else Filter(keep, s, |s|)
  {
    FilterPrefix(keep, s + [x], s, |s|);
  }

  lemma OneMoreClaim(p: Parts, pvc: PVC, classes: Classes, claims: seq<PVC>)
    requires SortedOut(p, classes, claims)
    ensures WithClaim(p, pvc, classes).Some? <==> Readable(pvc, classes)
    ensures Readable(pvc, classes) ==> SortedOut(WithClaim(p, pvc, classes).value, classes, claims + [pvc])
  {
    FilterAppend((c: PVC) => IsBound(c), claims, pvc);
    FilterAppend((c: PVC) => IsDelayed(c, classes), claims, pvc);
    FilterAppend((c: PVC) => IsImmediate(c, classes), claims, pvc);
  }

  /** There is no error if and only if every claim is known and readable; then each part
      holds the claims that qualify for it. */
  lemma {:induction false} PartsAre(s: Store<Claim>, classes: Classes, volumes: seq<Option<string>>, n: nat)
    requires n <= |volumes|
    ensures PartsOf(s, classes, volumes, n).Some? <==> AllReadable(s, classes, volumes, n)
    ensures AllReadable(s, classes, volumes, n) ==>
      SortedOut(PartsOf(s, classes, volumes, n).value, classes, Claimed(s, volumes, n))
  {
    if n > 0 {
      PartsAre(s, classes, volumes, n - 1);
      var p, v := PartsOf(s, classes, volumes, n - 1), volumes[n - 1];
      if p.Some? && v.Some? && v.value in s {
        OneMoreClaim(p.value, s[v.value].latestObj, classes, Claimed(s, volumes, n - 1));
      }
    }
  }

  /** Every claim is in one part, as often as volumes name it. */
  lemma PartsPartition(p: Parts, classes: Classes, claims: seq<PVC>)
    requires SortedOut(p, classes, claims)
    ensures multiset(claims) == multiset(p.bound) + multiset(p.delayed) + multiset(p.immediate)
  {
    forall x
      ensures multiset(claims)[x] == multiset(p.bound)[x] + multiset(p.delayed)[x] + multiset(p.immediate)[x]
    {
      FilterMultiset((c: PVC) => IsBound(c), claims, |claims|, x);
      FilterMultiset((c: PVC) => IsDelayed(c, classes), claims, |claims|, x);
      FilterMultiset((c: PVC) => IsImmediate(c, classes), claims, |claims|, x);
      assert claims[..|claims|] == claims;
    }
  }

  /** getPodVolumes. */
  method GetPodVolumes(s: Store<Claim>, classes: Classes, volumes: seq<Option<string>>) returns (parts: Option<Parts>)
    ensures parts == PartsOf(s, classes, volumes, |volumes|)
    ensures parts.Some? <==> AllReadable(s, classes, volumes, |volumes|)
    ensures parts.Some? ==> SortedOut(parts.value, classes, Claimed(s, volumes, |volumes|))
  {
    parts := Some(Parts([], [], []));
    for i := 0 to |volumes|
      invariant parts == PartsOf(s, classes, volumes, i)
    {
      if parts.Some? && volumes[i].Some? {
        if volumes[i].value !in s {
          parts := None;
        } else {
          parts := WithClaim(parts.value, s[volumes[i].value].latestObj, classes);
        }
      }
    }
    PartsAre(s, classes, volumes, |volumes|);
  }

  // ---- claims named twice ----

  /** Two of the first n volumes name one delayed claim. */
  predicate DelayedTwice(s: Store<Claim>, classes: Classes, volumes: seq<Option<string>>, n: nat)
    requires n <= |volumes|
  {
    exists i, j :: 0 <= i < j < n && volumes[i].Some? && volumes[i] == volumes[j] &&
      volumes[i].value in s && IsDelayed(s[volumes[i].value].latestObj, classes)
  }

  lemma {:induction false} DelayedNamed(s: Store<Claim>, classes: Classes, volumes: seq<Option<string>>, n: nat, c: PVC)
    requires n <= |volumes| && PartsOf(s, classes, volumes, n).Some?
    ensures c in PartsOf(s, classes, volumes, n).value.delayed <==>
            IsDelayed(c, classes) &&
            exists i :: 0 <= i < n && volumes[i].Some? && volumes[i].value in s && s[volumes[i].value].latestObj == c
  {
    if n > 0 {
      DelayedNamed(s, classes, volumes, n - 1, c);
    }
  }

  /** The claims are not deduplicated: a delayed claim comes once if and only if no two
      volumes of the pod name it. */
  lemma {:induction false} DelayedOnceIff(s: Store<Claim>, classes: Classes, volumes: seq<Option<string>>, n: nat)
    requires StoreOk(s) && n <= |volumes| && PartsOf(s, classes, volumes, n).Some?
    ensures NoDuplicates(PartsOf(s, classes, volumes, n).value.delayed) <==> !DelayedTwice(s, classes, volumes, n)
  {
    if n > 0 {
      DelayedOnceIff(s, classes, volumes, n - 1);
      var v := volumes[n - 1];
      if v.Some? && v.value in s && IsDelayed(s[v.value].latestObj, classes) {
        var c, before := s[v.value].latestObj, PartsOf(s, classes, volumes, n - 1).value.delayed;
        DelayedNamed(s, classes, volumes, n - 1, c);
        assert c in before <==> exists i :: 0 <= i < n - 1 && volumes[i] == v;
        AppendOnce(before, c);
        assert DelayedTwice(s, classes, volumes, n) <==> DelayedTwice(s, classes, volumes, n - 1) || c in before;
      }
    }
  }
}
