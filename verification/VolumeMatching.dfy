/** Matching claims to volumes (pkg/controller/volume/persistentvolume/util/util.go,
    pkg/controller/volume/scheduling/scheduler_binder.go). */
module VolumeMatching {
  import opened Api
  import opened AssumeCaches
  import opened GreedyMatching

  datatype ClaimRef = ClaimRef(namespace: string, name: string, uid: string)

  datatype VolumeMode = Filesystem | Block

  /** A node selector term: a conjunction of requirements, which without any selects
      nothing. */
  type NodeTerm = seq<Requirement>

  datatype Volume = Volume(
    claimRef: Option<ClaimRef>,
    boundByController: bool,
    capacity: int,
    storageClass: string,
    mode: VolumeMode,
    accessModes: set<string>,
    labels: Labels,
    deleting: bool,
    available: bool,
    nodeAffinity: Option<seq<NodeTerm>>)

  datatype Claim = Claim(
    ref: ClaimRef,
    request: int,
    storageClass: string,
    mode: VolumeMode,
    accessModes: set<string>,
    selector: LabelSelector,
    selectedNode: Option<string>,
    volumeName: string,
    bindCompleted: bool)

  type PV = Object<Volume>

  type PVC = Object<Claim>

  predicate TermMatches(t: NodeTerm, labels: Labels) {
    |t| > 0 && forall i :: 0 <= i < |t| ==> t[i].Matches(labels)
  }

  /** CheckNodeAffinity. */
  predicate NodeAffinityOk(v: Volume, node: Node) {
    v.nodeAffinity.Some? ==>
      exists i :: 0 <= i < |v.nodeAffinity.value| && TermMatches(v.nodeAffinity.value[i], node.labels)
  }

  /** IsVolumeBoundToClaim: a reference without an identifier is enough. */
  predicate IsVolumeBoundToClaim(v: Volume, c: Claim) {
    && v.claimRef.Some?
    && v.claimRef.value.name == c.ref.name && v.claimRef.value.namespace == c.ref.namespace
    && (v.claimRef.value.uid == "" || v.claimRef.value.uid == c.ref.uid)
  }

  /** isPVCFullyBound. */
  predicate FullyBound(c: Claim) { c.volumeName != "" && c.bindCompleted }

  predicate SelectorOk(c: Claim, v: Volume) { c.selector.Absent? || c.selector.Matches(v.labels) }

  /** The filters before the binding of the volume is looked at. */
  predicate Candidate(pv: PV, c: Claim, excluded: set<string>) {
    && pv.name !in excluded
    && (pv.spec.claimRef.Some? ==> IsVolumeBoundToClaim(pv.spec, c))
    && pv.spec.capacity >= c.request && pv.spec.mode == c.mode && !pv.spec.deleting
  }

  /** A candidate that is pre-bound to the claim. */
  predicate Prebound(pv: PV, c: Claim, excluded: set<string>) {
    Candidate(pv, c, excluded) && IsVolumeBoundToClaim(pv.spec, c)
  }

  /** An unbound volume that can serve the claim on the node. */
  predicate Eligible(pv: PV, c: Claim, node: Node) {
    && pv.spec.claimRef.None? && pv.spec.capacity >= c.request && pv.spec.mode == c.mode && !pv.spec.deleting
    && pv.spec.available && SelectorOk(c, pv.spec) && pv.spec.storageClass == c.storageClass
    && NodeAffinityOk(pv.spec, node) && c.accessModes <= pv.spec.accessModes
  }

  // ---- the conditions in terms of the fields ----

  /** A volume is bound to a claim that it refers to, with the identifier of the claim or
      with none. */
  lemma BoundToClaimIff(v: Volume, c: Claim)
    ensures IsVolumeBoundToClaim(v, c) <==> v.claimRef == Some(c.ref) || v.claimRef == Some(c.ref.(uid := ""))
  {
  }

  /** Without an affinity every node will do; else one of its terms has requirements, and the
      labels of the node meet them all. */
  ghost predicate Reaches(v: Volume, node: Node) {
    v.nodeAffinity == None ||
    exists t :: t in v.nodeAffinity.value && t != [] && forall r :: r in t ==> r.Matches(node.labels)
  }

  lemma NodeAffinityIff(v: Volume, node: Node)
    ensures NodeAffinityOk(v, node) <==> Reaches(v, node)
  {
    if v.nodeAffinity.Some? {
      var ts := v.nodeAffinity.value;
      forall i | 0 <= i < |ts|
        ensures TermMatches(ts[i], node.labels) <==>
                ts[i] != [] && forall r: Requirement :: r in ts[i] ==> r.Matches(node.labels)
      {
        assert forall k :: 0 <= k < |ts[i]| ==> ts[i][k] in ts[i];
      }
      assert forall i :: 0 <= i < |ts| ==> ts[i] in ts;
    }
  }

  /** A volume is eligible if it is free, available and not being deleted, large enough, of the
      class and mode of the claim, offers every access mode it asks for, is selected by its
      labels unless there is no selector, and can be reached from the node. */
  lemma EligibleIff(pv: PV, c: Claim, node: Node)
    ensures var v := pv.spec;
            Eligible(pv, c, node) <==>
            && v.claimRef == None && v.available && !v.deleting
            && c.request <= v.capacity && c.storageClass == v.storageClass && c.mode == v.mode
            && (forall m :: m in c.accessModes ==> m in v.accessModes)
            && (c.selector == Absent || c.selector.Matches(v.labels))
            && Reaches(v, node)
  {
    NodeAffinityIff(pv.spec, node);
  }

  predicate Left(pv: PV, c: Claim, node: Node, excluded: set<string>) {
    pv.name !in excluded && Eligible(pv, c, node)
  }

  /** The first of the smallest eligible volumes not yet chosen. */
  predicate FirstSmallest(volumes: seq<PV>, i: nat, c: Claim, node: Node, excluded: set<string>)
    requires i < |volumes|
  {
    && Left(volumes[i], c, node, excluded)
    && (forall j :: 0 <= j < |volumes| && Left(volumes[j], c, node, excluded) ==>
          volumes[i].spec.capacity <= volumes[j].spec.capacity)
    && (forall j :: 0 <= j < i && Left(volumes[j], c, node, excluded) ==>
          volumes[i].spec.capacity < volumes[j].spec.capacity)
  }

  datatype Match = NoMatch | BadSelector | Found(pv: PV)

  /** The first pre-bound volume decides; without one it is the smallest eligible volume
      not yet chosen, the first of these if there are several. */
  ghost predicate BestMatch(m: Match, c: Claim, volumes: seq<PV>, node: Node, excluded: set<string>) {
    if c.selector.Malformed? then m.BadSelector?
    else if exists i :: 0 <= i < |volumes| && Prebound(volumes[i], c, excluded) then
      exists i :: 0 <= i < |volumes| && Prebound(volumes[i], c, excluded) &&
        (forall j :: 0 <= j < i ==> !Prebound(volumes[j], c, excluded)) &&
        m == if NodeAffinityOk(volumes[i].spec, node) then Found(volumes[i]) else NoMatch
    else
      match m
      case BadSelector => false
      case NoMatch => forall i :: 0 <= i < |volumes| ==> !Left(volumes[i], c, node, excluded)
      case Found(pv) => exists i ::
        0 <= i < |volumes| && pv == volumes[i] && FirstSmallest(volumes, i, c, node, excluded)
  }

  /** FindMatchingVolume as the scheduler calls it, with a node. */
  method FindMatchingVolume(c: Claim, volumes: seq<PV>, node: Node, excluded: set<string>) returns (m: Match)
    ensures BestMatch(m, c, volumes, node, excluded)
  {
    if c.selector.Malformed? {
      return BadSelector;
    }
    var smallest: Option<nat> := None;
    for i := 0 to |volumes|
      invariant forall j :: 0 <= j < i ==> !Prebound(volumes[j], c, excluded)
      invariant smallest.None? ==> forall j :: 0 <= j < i ==> !Left(volumes[j], c, node, excluded)
      invariant smallest.Some? ==> smallest.value < i && FirstSmallest(volumes[..i], smallest.value, c, node, excluded)
    {
      var volume := volumes[i];
      assert volumes[..i + 1] == volumes[..i] + [volume];
      if !Candidate(volume, c, excluded) {
        continue;
      }
      if IsVolumeBoundToClaim(volume.spec, c) {
        return if NodeAffinityOk(volume.spec, node) then Found(volume) else NoMatch;
      }
      if Eligible(volume, c, node) && (smallest.None? || volumes[smallest.value].spec.capacity > volume.spec.capacity) {
        smallest := Some(i);
      }
    }
    assert volumes[..|volumes|] == volumes;
    m := if smallest.Some? then Found(volumes[smallest.value]) else NoMatch;
  }

  // ---- all claims of a pod ----

  datatype Binding = Binding(pvc: PVC, pv: PV)

  /** Those of the first n claims with a volume, in order, and those without. */
  function Bindings(claims: seq<PVC>, chosen: Assignment<PV>, n: nat): seq<Binding>
    requires n <= |claims| && n <= |chosen|
  {
    if n == 0 then []
    else if chosen[n - 1].Some? then Bindings(claims, chosen, n - 1) + [Binding(claims[n - 1], chosen[n - 1].value)]
    else Bindings(claims, chosen, n - 1)
  }

  function Unbound(claims: seq<PVC>, chosen: Assignment<PV>, n: nat): seq<PVC>
    requires n <= |claims| && n <= |chosen|
  {
    if n == 0 then []
    else if chosen[n - 1].None? then Unbound(claims, chosen, n - 1) + [claims[n - 1]]
    else Unbound(claims, chosen, n - 1)
  }

  function NameOf(o: Option<PV>): set<string> { if o.Some? then {o.value.name} else {} }

  /** The names of the volumes chosen for the first n claims. */
  function Chosen(chosen: Assignment<PV>, n: nat): set<string>
    requires n <= |chosen|
  {
    if n == 0 then {} else Chosen(chosen, n - 1) + NameOf(chosen[n - 1])
  }

  function AsMatch(o: Option<PV>): Match { if o.Some? then Found(o.value) else NoMatch }

  /** Each of the first n claims in turn has the best match among the volumes not chosen
      before. */
  ghost predicate ChosenInTurn(claims: seq<PVC>, listing: seq<seq<PV>>, node: Node, chosen: Assignment<PV>, n: nat)
    requires n <= |claims| == |listing| && n <= |chosen|
  {
    n > 0 ==>
      && ChosenInTurn(claims, listing, node, chosen, n - 1)
      && BestMatch(AsMatch(chosen[n - 1]), claims[n - 1].spec, listing[n - 1], node, Chosen(chosen, n - 1))
  }

  /** The selectors of the first n claims can be converted. */
  predicate NoneMalformed(claims: seq<PVC>, n: nat)
    requires n <= |claims|
  {
    n > 0 ==> NoneMalformed(claims, n - 1) && !claims[n - 1].spec.selector.Malformed?
  }

  lemma {:induction false} MalformedStays(claims: seq<PVC>, i: nat, n: nat)
    requires i < n <= |claims| && claims[i].spec.selector.Malformed?
    ensures !NoneMalformed(claims, n)
  {
    if i < n - 1 {
      MalformedStays(claims, i, n - 1);
    }
  }

  datatype Matching = SelectorError | Matching(found: bool, bindings: seq<Binding>, unbound: seq<PVC>)

  /** findMatchingVolumes, for the claims in the order that sorting by size leaves them in,
      with what the volume cache lists for the class of each. */
  method FindMatchingVolumes(claims: seq<PVC>, listing: seq<seq<PV>>, node: Node)
      returns (r: Matching, ghost chosen: Assignment<PV>)
    requires |listing| == |claims|
    ensures r.Matching? <==> NoneMalformed(claims, |claims|)
    ensures r.Matching? ==>
      && |chosen| == |claims| && ChosenInTurn(claims, listing, node, chosen, |claims|)
      && r.bindings == Bindings(claims, chosen, |claims|) && r.unbound == Unbound(claims, chosen, |claims|)
      && (r.found <==> r.unbound == [])
  {
    chosen := [];
    var chosenPVs: set<string> := {};
    var found, bindings, unbound := true, [], [];
    for i := 0 to |claims|
      invariant |chosen| == i && chosenPVs == Chosen(chosen, i)
      invariant ChosenInTurn(claims, listing, node, chosen, i)
      invariant bindings == Bindings(claims, chosen, i) && unbound == Unbound(claims, chosen, i)
      invariant found <==> unbound == []
      invariant NoneMalformed(claims, i)
    {
      var m := FindMatchingVolume(claims[i].spec, listing[i], node, chosenPVs);
      if m.BadSelector? {
        MalformedStays(claims, i, |claims|);
        return SelectorError, chosen;
      }
      chosen := Extended(claims, listing, node, chosen, i, m);
      if m.NoMatch? {
        unbound := unbound + [claims[i]];
        found := false;
      } else {
        chosenPVs := chosenPVs + {m.pv.name};
        bindings := bindings + [Binding(claims[i], m.pv)];
      }
    }
    r := Matching(found, bindings, unbound);
  }

  lemma {:induction false} SameParts(claims: seq<PVC>, x: Assignment<PV>, y: Assignment<PV>, n: nat)
    requires n <= |claims| && n <= |x| && n <= |y| && forall i :: 0 <= i < n ==> x[i] == y[i]
    ensures Bindings(claims, x, n) == Bindings(claims, y, n) && Unbound(claims, x, n) == Unbound(claims, y, n)
    ensures Chosen(x, n) == Chosen(y, n)
  {
    if n > 0 {
      SameParts(claims, x, y, n - 1);
    }
  }

  lemma {:induction false} SamePrefix(claims: seq<PVC>, listing: seq<seq<PV>>, node: Node,
      x: Assignment<PV>, y: Assignment<PV>, n: nat)
    requires n <= |claims| == |listing| && n <= |x| && n <= |y| && forall i :: 0 <= i < n ==> x[i] == y[i]
    ensures ChosenInTurn(claims, listing, node, x, n) ==> ChosenInTurn(claims, listing, node, y, n)
  {
    if n > 0 {
      SameParts(claims, x, y, n - 1);
      SamePrefix(claims, listing, node, x, y, n - 1);
    }
  }

  /** What one more claim adds. */
  lemma OneMore(claims: seq<PVC>, chosen: Assignment<PV>, i: nat, o: Option<PV>)
    requires i < |claims| && |chosen| == i
    ensures Bindings(claims, chosen + [o], i + 1) ==
      Bindings(claims, chosen, i) + if o.Some? then [Binding(claims[i], o.value)] else []
    ensures Unbound(claims, chosen + [o], i + 1) == Unbound(claims, chosen, i) + if o.None? then [claims[i]] else []
    ensures Chosen(chosen + [o], i + 1) == Chosen(chosen, i) + NameOf(o)
  {
    SameParts(claims, chosen, chosen + [o], i);
  }

  /** One more claim. */
  lemma Extended(claims: seq<PVC>, listing: seq<seq<PV>>, node: Node, chosen: Assignment<PV>, i: nat, m: Match)
      returns (x: Assignment<PV>)
    requires i < |claims| == |listing| && |chosen| == i && ChosenInTurn(claims, listing, node, chosen, i)
    requires BestMatch(m, claims[i].spec, listing[i], node, Chosen(chosen, i)) && !m.BadSelector?
    ensures |x| == i + 1 && ChosenInTurn(claims, listing, node, x, i + 1) && !claims[i].spec.selector.Malformed?
    ensures Bindings(claims, x, i + 1) ==
      Bindings(claims, chosen, i) + if m.Found? then [Binding(claims[i], m.pv)] else []
    ensures Unbound(claims, x, i + 1) == Unbound(claims, chosen, i) + if m.NoMatch? then [claims[i]] else []
    ensures Chosen(x, i + 1) == Chosen(chosen, i) + if m.Found? then {m.pv.name} else {}
  {
    var o := if m.Found? then Some(m.pv) else None;
    x := chosen + [o];
    OneMore(claims, chosen, i, o);
    SameParts(claims, chosen, x, i);
    SamePrefix(claims, listing, node, chosen, x, i);
    assert AsMatch(o) == m;
    NotMalformed(m, claims[i].spec, listing[i], node, Chosen(chosen, i));
  }

  lemma NotMalformed(m: Match, c: Claim, volumes: seq<PV>, node: Node, excluded: set<string>)
    requires BestMatch(m, c, volumes, node, excluded) && !m.BadSelector?
    ensures !c.selector.Malformed?
  {
  }

  // ---- the choice is greedy ----

  /** The volumes of the listing that can serve the claim. */
  ghost function EligibleIn(c: PVC, volumes: seq<PV>, node: Node): set<PV> {
    set v | v in volumes && Eligible(v, c.spec, node)
  }

  ghost function FitsOf(claims: seq<PVC>, listing: seq<seq<PV>>, node: Node): (fits: seq<set<PV>>)
    requires |listing| == |claims|
    ensures |fits| == |claims|
  {
    seq(|claims|, i requires 0 <= i < |claims| => EligibleIn(claims[i], listing[i], node))
  }

  function CapacityOf(): PV -> int { (v: PV) => v.spec.capacity }

  /** The volumes listed for the claims are unbound or bound to others, and have names of
      their own. */
  ghost predicate NoPrebound(claims: seq<PVC>, listing: seq<seq<PV>>)
    requires |listing| == |claims|
  {
    forall i, j :: 0 <= i < |claims| && 0 <= j < |listing[i]| ==> !Prebound(listing[i][j], claims[i].spec, {})
  }

  ghost predicate NamesUnique(listing: seq<seq<PV>>) {
    forall i, j, v: PV, w: PV ::
      (0 <= i < |listing| && 0 <= j < |listing| && v in listing[i] && w in listing[j] && v.name == w.name) ==> v == w
  }

  lemma BestIsEligible(o: Option<PV>, c: PVC, volumes: seq<PV>, node: Node, excluded: set<string>)
    requires BestMatch(AsMatch(o), c.spec, volumes, node, excluded)
    requires forall j :: 0 <= j < |volumes| ==> !Prebound(volumes[j], c.spec, {})
    ensures o.None? ==> forall v :: v in EligibleIn(c, volumes, node) ==> v.name in excluded
    ensures o.Some? ==> o.value in EligibleIn(c, volumes, node) && o.value.name !in excluded
    ensures o.Some? ==> forall v :: v in EligibleIn(c, volumes, node) && v.name !in excluded ==>
      CapacityOf()(o.value) <= CapacityOf()(v)
  {
    assert forall j :: 0 <= j < |volumes| ==> !Prebound(volumes[j], c.spec, excluded);
  }

  lemma {:induction false} ChosenAt(claims: seq<PVC>, listing: seq<seq<PV>>, node: Node, chosen: Assignment<PV>,
          n: nat, i: nat)
    requires i < n <= |claims| == |listing| && n <= |chosen| && ChosenInTurn(claims, listing, node, chosen, n)
    ensures BestMatch(AsMatch(chosen[i]), claims[i].spec, listing[i], node, Chosen(chosen, i))
  {
    if i < n - 1 {
      ChosenAt(claims, listing, node, chosen, n - 1, i);
    }
  }

  lemma {:induction false} UsedNames(chosen: Assignment<PV>, n: nat)
    requires n <= |chosen|
    ensures Chosen(chosen, n) == set v: PV | v in UsedBy(chosen, n) :: v.name
  {
    if n > 0 {
      UsedNames(chosen, n - 1);
    }
  }

  /** Volumes chosen come from the listings. */
  lemma {:induction false} UsedListed(claims: seq<PVC>, listing: seq<seq<PV>>, node: Node, chosen: Assignment<PV>,
          n: nat)
    requires n <= |claims| == |listing| && |chosen| == |claims| && NoPrebound(claims, listing)
    requires ChosenInTurn(claims, listing, node, chosen, n)
    ensures forall v :: v in UsedBy(chosen, n) ==> exists i :: 0 <= i < |listing| && v in listing[i]
  {
    if n > 0 {
      UsedListed(claims, listing, node, chosen, n - 1);
      BestIsEligible(chosen[n - 1], claims[n - 1], listing[n - 1], node, Chosen(chosen, n - 1));
    }
  }

  /** With unique names a listed volume is used exactly when its name is. */
  lemma UsedByName(claims: seq<PVC>, listing: seq<seq<PV>>, node: Node, chosen: Assignment<PV>, n: nat, j: nat, v: PV)
    requires n <= |claims| == |listing| && |chosen| == |claims| && NoPrebound(claims, listing) && NamesUnique(listing)
    requires ChosenInTurn(claims, listing, node, chosen, n)
    requires j < |listing| && v in listing[j]
    ensures v.name in Chosen(chosen, n) <==> v in UsedBy(chosen, n)
  {
    UsedNames(chosen, n);
    UsedListed(claims, listing, node, chosen, n);
  }

  /** Claim k takes its turn among the volumes not used before. */
  lemma ChosenTurn(claims: seq<PVC>, listing: seq<seq<PV>>, node: Node, chosen: Assignment<PV>, k: nat)
    requires k < |claims| == |listing| && |chosen| == |claims| && NoPrebound(claims, listing) && NamesUnique(listing)
    requires ChosenInTurn(claims, listing, node, chosen, |claims|)
    ensures Turn(FitsOf(claims, listing, node)[k], CapacityOf(), chosen[k], UsedBy(chosen, k))
  {
    ChosenAt(claims, listing, node, chosen, |claims|, k);
    ChosenBefore(claims, listing, node, chosen, |claims|, k);
    forall v: PV | v in EligibleIn(claims[k], listing[k], node)
      ensures v.name in Chosen(chosen, k) <==> v in UsedBy(chosen, k)
    {
      UsedByName(claims, listing, node, chosen, k, k, v);
    }
    GreedyTurn(chosen[k], claims[k], listing[k], node, Chosen(chosen, k), UsedBy(chosen, k));
  }

  /** So the whole choice is greedy. */
  lemma ChosenIsGreedy(claims: seq<PVC>, listing: seq<seq<PV>>, node: Node, chosen: Assignment<PV>)
    requires |listing| == |claims| == |chosen| && NoPrebound(claims, listing) && NamesUnique(listing)
    requires ChosenInTurn(claims, listing, node, chosen, |claims|)
    ensures Greedy(FitsOf(claims, listing, node), CapacityOf(), chosen, {})
  {
    var fits := FitsOf(claims, listing, node);
    forall k | 0 <= k < |chosen|
      ensures Turn(fits[k], CapacityOf(), chosen[k], UsedBy(chosen, k))
    {
      ChosenTurn(claims, listing, node, chosen, k);
    }
    TurnsAreGreedy(fits, CapacityOf(), chosen, 0);
    assert fits[0..] == fits && chosen[0..] == chosen;
  }

  lemma GreedyTurn(o: Option<PV>, c: PVC, volumes: seq<PV>, node: Node, excluded: set<string>, used: set<PV>)
    requires BestMatch(AsMatch(o), c.spec, volumes, node, excluded)
    requires forall j :: 0 <= j < |volumes| ==> !Prebound(volumes[j], c.spec, {})
    requires forall v: PV :: v in EligibleIn(c, volumes, node) ==> (v.name in excluded <==> v in used)
    ensures Turn(EligibleIn(c, volumes, node), CapacityOf(), o, used)
  {
    BestIsEligible(o, c, volumes, node, excluded);
  }

  lemma {:induction false} ChosenBefore(claims: seq<PVC>, listing: seq<seq<PV>>, node: Node, chosen: Assignment<PV>,
          n: nat, k: nat)
    requires k <= n <= |claims| == |listing| && n <= |chosen| && ChosenInTurn(claims, listing, node, chosen, n)
    ensures ChosenInTurn(claims, listing, node, chosen, k)
  {
    if k < n {
      ChosenBefore(claims, listing, node, chosen, n - 1, k);
    }
  }

  lemma {:induction false} BindingsCount(claims: seq<PVC>, chosen: Assignment<PV>, n: nat)
    requires n <= |claims| && n <= |chosen|
    ensures |Bindings(claims, chosen, n)| == Count(chosen[..n])
  {
    if n > 0 {
      BindingsCount(claims, chosen, n - 1);
      CountAppend(chosen[..n - 1], chosen[n - 1]);
      assert chosen[..n] == chosen[..n - 1] + [chosen[n - 1]];
    }
  }

  lemma {:induction false} CountAppend(a: Assignment<PV>, o: Option<PV>)
    ensures Count(a + [o]) == Count(a) + if o.Some? then 1 else 0
  {
    if a == [] {
      assert (a + [o])[1..] == [];
    } else {
      CountAppend(a[1..], o);
      assert (a + [o])[1..] == a[1..] + [o];
    }
  }

  // ---- when it is best possible ----

  /** The claims name no selector and ask for the same access modes. */
  predicate Plain(claims: seq<PVC>) {
    && (forall i :: 0 <= i < |claims| ==> claims[i].spec.selector.Absent?)
    && (forall i, j :: 0 <= i < |claims| && 0 <= j < |claims| ==>
      claims[i].spec.accessModes == claims[j].spec.accessModes)
  }

  /** The listings are those of one volume cache: the unbound volumes of the class. */
  ghost predicate ListedByClass(claims: seq<PVC>, listing: seq<seq<PV>>, pool: set<PV>)
    requires |listing| == |claims|
  {
    forall i, v :: 0 <= i < |claims| ==>
      (v in listing[i] <==> v in pool && v.spec.storageClass == claims[i].spec.storageClass)
  }

  /** For plain claims a larger volume serves whatever a smaller one does, when both serve
      one claim; classes and modes may differ. */
  lemma PlainExchangeable(claims: seq<PVC>, listing: seq<seq<PV>>, node: Node, pool: set<PV>)
    requires |listing| == |claims| && Plain(claims) && ListedByClass(claims, listing, pool)
    ensures Exchangeable(FitsOf(claims, listing, node), CapacityOf())
  {
    var fits := FitsOf(claims, listing, node);
    forall i, j, v, u | 0 <= i < |fits| && 0 <= j < |fits| && v in fits[i] && u in fits[i] && v in fits[j] &&
      CapacityOf()(v) <= CapacityOf()(u)
      ensures u in fits[j]
    {
      assert u in EligibleIn(claims[i], listing[i], node) && v in EligibleIn(claims[i], listing[i], node);
      assert v in EligibleIn(claims[j], listing[j], node);
      assert u in listing[j];
    }
  }

  /** For plain claims without pre-bound volumes the choice is an assignment of eligible
      volumes, no other binds more claims, and if all can be bound together all are. */
  lemma MatchingIsMaximum(claims: seq<PVC>, listing: seq<seq<PV>>, node: Node, pool: set<PV>,
      chosen: Assignment<PV>, other: Assignment<PV>)
    requires |listing| == |claims| == |chosen| && ChosenInTurn(claims, listing, node, chosen, |claims|)
    requires Plain(claims) && ListedByClass(claims, listing, pool)
    requires NoPrebound(claims, listing) && NamesUnique(listing)
    requires Valid(FitsOf(claims, listing, node), other, {})
    ensures Valid(FitsOf(claims, listing, node), chosen, {})
    ensures Count(other) <= |Bindings(claims, chosen, |claims|)|
    ensures Count(other) == |claims| ==> Unbound(claims, chosen, |claims|) == []
  {
    var fits := FitsOf(claims, listing, node);
    PlainExchangeable(claims, listing, node, pool);
    ChosenIsGreedy(claims, listing, node, chosen);
    assert chosen[..|claims|] == chosen;
    GreedyIsValid(fits, CapacityOf(), chosen, {});
    GreedyIsMaximum(fits, CapacityOf(), chosen, other, {});
    BindingsCount(claims, chosen, |claims|);
    EachOnce(claims, chosen, |claims|);
  }

  /** Every claim is bound or left over, once. */
  lemma {:induction false} EachOnce(claims: seq<PVC>, chosen: Assignment<PV>, n: nat)
    requires n <= |claims| && n <= |chosen|
    ensures |Bindings(claims, chosen, n)| + |Unbound(claims, chosen, n)| == n
  {
    if n > 0 {
      EachOnce(claims, chosen, n - 1);
    }
  }
}
