/** Inputs at which the volume binder does not do what one might expect
    (pkg/controller/volume/scheduling/scheduler_binder.go). */
module VolumeCases {
  import opened Api
  import opened AssumeCaches
  import opened VolumeMatching
  import opened GreedyMatching
  import opened PodClaims
  import opened PodVolumes
  import opened VolumeAssumptions
  import opened VolumeBinders

  // ---- small objects ----

  function SmallClaim(name: string, storageClass: string, request: int, selector: LabelSelector): PVC {
    Object(name, Some(request),
           Claim(ClaimRef(name, name, name), request, storageClass, Filesystem, {}, selector, None, "", false))
  }

  function FreeVolume(name: string, storageClass: string, capacity: int, labels: Labels): PV {
    Object(name, Some(capacity),
           Volume(None, false, capacity, storageClass, Filesystem, {}, labels, false, true, None))
  }

  function Stored<T>(o: Object<T>): ObjInfo<T> { ObjInfo(o, o) }

  /** A class whose claims wait for a pod and can be provisioned anywhere. */
  function WaitingClass(provisioner: string): StorageClass { StorageClass(Some(true), provisioner, []) }

  lemma SmallEligible(c: PVC, v: PV, k: string, size: int, cap: int, node: Node)
    requires c == SmallClaim(c.name, k, size, Absent) && v == FreeVolume(v.name, k, cap, map[])
    ensures Eligible(v, c.spec, node) <==> size <= cap
    ensures !IsVolumeBoundToClaim(v.spec, c.spec)
  {
  }

  lemma PartsStep(s: Store<Claim>, classes: Classes, volumes: seq<Option<string>>, n: nat, k: string)
    requires n < |volumes| && volumes[n] == Some(k) && k in s && PartsOf(s, classes, volumes, n).Some?
    ensures PartsOf(s, classes, volumes, n + 1)
      == WithClaim(PartsOf(s, classes, volumes, n).value, s[k].latestObj, classes)
  {
  }

  /** A pod whose two volumes name one delayed claim. */
  ghost predicate NamesTwice(c: PVC, s: Store<Claim>, classes: Classes, volumes: seq<Option<string>>) {
    && c.name in s && s[c.name].latestObj == c && IsDelayed(c, classes)
    && volumes == [Some(c.name), Some(c.name)]
  }

  lemma DelayedParts(c: PVC, s: Store<Claim>, classes: Classes, volumes: seq<Option<string>>)
    requires NamesTwice(c, s, classes, volumes)
    ensures PartsOf(s, classes, volumes, |volumes|) == Some(Parts([], [c, c], []))
  {
    var none, once := Parts([], [], []), Parts([], [c], []);
    assert none.delayed + [c] == [c] && once.delayed + [c] == [c, c];
    assert WithClaim(none, c, classes) == Some(once);
    assert WithClaim(once, c, classes) == Some(Parts([], [c, c], []));
    assert PartsOf(s, classes, volumes, 0) == Some(none);
    PartsStep(s, classes, volumes, 0, c.name);
    PartsStep(s, classes, volumes, 1, c.name);
  }

  /** The best match of a small claim in a list of two free volumes, the smaller one first. */
  lemma BestOfTwo(c: PVC, v1: PV, v2: PV, k: string, node: Node)
    requires c == SmallClaim(c.name, k, 1, Absent) && v1.name != v2.name
    requires v1 == FreeVolume(v1.name, k, 1, map[]) && v2 == FreeVolume(v2.name, k, 2, map[])
    ensures BestMatch(Found(v1), c.spec, [v1, v2], node, {})
    ensures BestMatch(Found(v2), c.spec, [v1, v2], node, {v1.name})
    ensures BestMatch(NoMatch, c.spec, [v1], node, {v1.name})
    ensures BestMatch(Found(v1), c.spec, [v1], node, {})
  {
    SmallEligible(c, v1, k, 1, 1, node);
    SmallEligible(c, v2, k, 1, 2, node);
    var l, m := [v1, v2], [v1];
    assert FirstSmallest(l, 0, c.spec, node, {}) && l[0] == v1;
    assert FirstSmallest(l, 1, c.spec, node, {v1.name}) && l[1] == v2;
    assert FirstSmallest(m, 0, c.spec, node, {}) && m[0] == v1;
  }

  /** Two turns. */
  predicate Two(t: Turns) { |t.sorted| == 2 && |t.listing| == 2 && |t.chosen| == 2 }

  function OptBinding(c: PVC, o: Option<PV>): seq<Binding> { if o.Some? then [Binding(c, o.value)] else [] }

  function OptLeft(c: PVC, o: Option<PV>): seq<PVC> { if o.Some? then [] else [c] }

  /** What choosing in turn for two claims comes to. */
  lemma TwoTurns(t: Turns, node: Node)
    requires Two(t) && BestMatch(AsMatch(t.chosen[0]), t.sorted[0].spec, t.listing[0], node, {})
    requires BestMatch(AsMatch(t.chosen[1]), t.sorted[1].spec, t.listing[1], node, NameOf(t.chosen[0]))
    ensures ChosenInTurn(t.sorted, t.listing, node, t.chosen, 2)
  {
    var n := 1;
    assert Chosen(t.chosen, n - 1) == {};
    assert ChosenInTurn(t.sorted, t.listing, node, t.chosen, n - 1);
    assert Chosen(t.chosen, n) == NameOf(t.chosen[0]);
    assert ChosenInTurn(t.sorted, t.listing, node, t.chosen, n);
  }

  lemma TwoResults(t: Turns)
    requires Two(t)
    ensures MatchedBy(t) == OptBinding(t.sorted[0], t.chosen[0]) + OptBinding(t.sorted[1], t.chosen[1])
    ensures LeftBy(t) == OptLeft(t.sorted[0], t.chosen[0]) + OptLeft(t.sorted[1], t.chosen[1])
  {
    var n := 1;
    assert Bindings(t.sorted, t.chosen, n - 1) == [] && Unbound(t.sorted, t.chosen, n - 1) == [];
    assert Bindings(t.sorted, t.chosen, n) == OptBinding(t.sorted[0], t.chosen[0]);
    assert Unbound(t.sorted, t.chosen, n) == OptLeft(t.sorted[0], t.chosen[0]);
  }

  lemma TwoUnselected(cs: seq<PVC>)
    requires |cs| == 2 && cs[0].spec.selectedNode.None? && cs[1].spec.selectedNode.None?
    ensures Selected(cs, |cs|) == [] && Unselected(cs, |cs|) == cs
  {
    var n := 1;
    assert Selected(cs, n - 1) == [] && Unselected(cs, n - 1) == [];
    assert Selected(cs, n) == [] && Unselected(cs, n) == [cs[0]];
  }

  lemma LeftProvisionable(left: seq<PVC>, c: PVC, classes: Classes, node: Node)
    requires forall x :: x in left ==> x == c
    requires left != [] ==> Provisionable(c, classes, node)
    ensures ProvisionVerdict(left, classes, node) == Check(true)
  {
    forall i | 0 <= i < |left|
      ensures Provisionable(left[i], classes, node) && ClassKnown(left[i], classes)
    {
      assert left[i] in left;
    }
  }

  /** Two turns for one claim. */
  ghost predicate TwiceInTurn(s: Store<Volume>, c: PVC, node: Node, t: Turns) {
    && Two(t) && t.sorted[0] == c && t.sorted[1] == c
    && (forall i :: 0 <= i < 2 ==> ListsClass(s, c.spec.storageClass, t.listing[i]))
    && BestMatch(AsMatch(t.chosen[0]), c.spec, t.listing[0], node, {})
    && BestMatch(AsMatch(t.chosen[1]), c.spec, t.listing[1], node, NameOf(t.chosen[0]))
  }

  lemma TurnsOfTwo(s: Store<Volume>, c: PVC, node: Node, t: Turns)
    requires TwiceInTurn(s, c, node, t)
    ensures TurnsOk(s, t.sorted, node, t)
  {
    TwoTurns(t, node);
    assert ListsFor(s, t.sorted, t.listing);
  }

  lemma LeftIsOne(t: Turns, c: PVC)
    requires Two(t) && t.sorted[0] == c && t.sorted[1] == c
    ensures forall x :: x in LeftBy(t) ==> x == c
  {
    TwoResults(t);
  }

  /** What the search makes of two turns for one claim. */
  lemma PlanOfTwo(s: Store<Volume>, classes: Classes, c: PVC, node: Node, t: Turns)
    requires TwiceInTurn(s, c, node, t) && c.spec.selectedNode.None? && !c.spec.selector.Malformed?
    requires LeftBy(t) != [] ==> Provisionable(c, classes, node)
    ensures PlanIs(s, classes, t.sorted, node, Check(true), MatchedBy(t), LeftBy(t), t)
  {
    TurnsOfTwo(s, c, node, t);
    LeftIsOne(t, c);
    LeftProvisionable(LeftBy(t), c, classes, node);
    PlanOfTurns(s, classes, t.sorted, node, t);
  }

  /** Two claims without a selected node and with selectors that convert are planned as their
      turns say, if all that is left can be provisioned. */
  lemma PlanOfTurns(s: Store<Volume>, classes: Classes, cs: seq<PVC>, node: Node, t: Turns)
    requires |cs| == 2 && TurnsOk(s, cs, node, t) && ProvisionVerdict(LeftBy(t), classes, node) == Check(true)
    requires cs[0].spec.selectedNode.None? && cs[1].spec.selectedNode.None?
    requires !cs[0].spec.selector.Malformed? && !cs[1].spec.selector.Malformed?
    ensures PlanIs(s, classes, cs, node, Check(true), MatchedBy(t), LeftBy(t), t)
  {
    TwoUnselected(cs);
    assert [] + LeftBy(t) == LeftBy(t);
  }

  lemma NothingBound(s: Store<Volume>, node: Node)
    ensures BoundVerdict(s, [], node) == Check(true)
  {
  }

  lemma SearchOfTwo(c: PVC, s: Store<Volume>, claims: Store<Claim>, volumes: seq<Option<string>>, node: Node,
      classes: Classes, t: Turns)
    requires NamesTwice(c, claims, classes, volumes) && TwiceInTurn(s, c, node, t)
    requires c.spec.selectedNode.None? && !c.spec.selector.Malformed? &&
      (LeftBy(t) != [] ==> Provisionable(c, classes, node))
    ensures SearchIs(s, claims, volumes, node, classes, Verdict(true, true), MatchedBy(t), LeftBy(t), t)
  {
    DelayedParts(c, claims, classes, volumes);
    assert t.sorted == [c, c];
    NothingBound(s, node);
    PlanOfTwo(s, classes, c, node, t);
  }

  lemma TwoVolumes(c: PVC, v1: PV, v2: PV, k: string, node: Node, s: Store<Volume>, t: Turns)
    requires c == SmallClaim(c.name, k, 1, Absent) && v1.name != v2.name
    requires v1 == FreeVolume(v1.name, k, 1, map[]) && v2 == FreeVolume(v2.name, k, 2, map[])
    requires s == map[v1.name := Stored(v1), v2.name := Stored(v2)]
    requires t == Turns([c, c], [[v1, v2], [v1, v2]], [Some(v1), Some(v2)])
    ensures TwiceInTurn(s, c, node, t)
  {
    BestOfTwo(c, v1, v2, k, node);
    assert ListsClass(s, k, [v1, v2]);
  }

  /** One claim takes two volumes. */
  lemma ClaimTakesTwoVolumes(c: PVC, v1: PV, v2: PV, k: string, node: Node, claims: Store<Claim>, s: Store<Volume>,
      classes: Classes, volumes: seq<Option<string>>) returns (t: Turns)
    requires k != "" && c == SmallClaim(c.name, k, 1, Absent) && classes == map[k := WaitingClass(k)]
    requires claims == map[c.name := Stored(c)] && volumes == [Some(c.name), Some(c.name)]
    requires v1 == FreeVolume(v1.name, k, 1, map[]) && v2 == FreeVolume(v2.name, k, 2, map[]) && v1.name != v2.name
    requires s == map[v1.name := Stored(v1), v2.name := Stored(v2)]
    ensures |t.chosen| == |t.sorted| && MatchedBy(t) == [Binding(c, v1), Binding(c, v2)] && LeftBy(t) == []
    ensures SearchIs(s, claims, volumes, node, classes, Verdict(true, true), MatchedBy(t), LeftBy(t), t)
  {
    t := Turns([c, c], [[v1, v2], [v1, v2]], [Some(v1), Some(v2)]);
    TwoVolumes(c, v1, v2, k, node, s, t);
    TwoResults(t);
    SearchOfTwo(c, s, claims, volumes, node, classes, t);
  }

  /** One claim takes a volume and is to be provisioned besides. */
  lemma ClaimIsMatchedAndProvisioned(c: PVC, v: PV, k: string, node: Node, claims: Store<Claim>, s: Store<Volume>,
      classes: Classes, volumes: seq<Option<string>>) returns (t: Turns)
    requires k != "" && k != NOT_SUPPORTED_PROVISIONER
    requires c == SmallClaim(c.name, k, 1, Absent) && classes == map[k := WaitingClass(k)]
    requires claims == map[c.name := Stored(c)] && volumes == [Some(c.name), Some(c.name)]
    requires v == FreeVolume(v.name, k, 1, map[]) && s == map[v.name := Stored(v)]
    ensures |t.chosen| == |t.sorted| && MatchedBy(t) == [Binding(c, v)] && LeftBy(t) == [c]
    ensures SearchIs(s, claims, volumes, node, classes, Verdict(true, true), MatchedBy(t), LeftBy(t), t)
  {
    t := Turns([c, c], [[v], [v]], [Some(v), None]);
    var w := FreeVolume(v.name + "2", k, 2, map[]);
    assert |w.name| > |v.name|;
    BestOfTwo(c, v, w, k, node);
    TwoResults(t);
    SearchOfTwo(c, s, claims, volumes, node, classes, t);
  }

  /** Two claims of which the second can use the smaller volume only: the first takes it, and
      one claim is bound where two could be. */
  lemma MatchingCanFall(a: PVC, b: PVC, v1: PV, v2: PV, k: string, key: string, val: string, node: Node, t: Turns)
    requires a == SmallClaim(a.name, k, 1, Absent) && b == SmallClaim(b.name, k, 1, Requirements([In(key, {val})]))
    requires v1 == FreeVolume(v1.name, k, 1, map[key := val]) && v2 == FreeVolume(v2.name, k, 2, map[]) &&
      v1.name != v2.name
    requires t == Turns([a, b], [[v1, v2], [v1, v2]], [Some(v1), None])
    ensures ChosenInTurn(t.sorted, t.listing, node, t.chosen, 2) && MatchedBy(t) == [Binding(a, v1)] && LeftBy(t) == [b]
    ensures Valid(FitsOf(t.sorted, t.listing, node), [Some(v2), Some(v1)], {})
  {
    var l := [v1, v2];
    assert l[0] == v1 && l[1] == v2;
    LabelledEligible(a, b, v1, v2, k, key, val, node);
    assert FirstSmallest(l, 0, a.spec, node, {});
    assert BestMatch(Found(v1), a.spec, l, node, {}) && BestMatch(NoMatch, b.spec, l, node, {v1.name});
    TwoTurns(t, node);
    TwoResults(t);
    assert FitsOf(t.sorted, t.listing, node)[0] == EligibleIn(a, l, node);
    assert FitsOf(t.sorted, t.listing, node)[1] == EligibleIn(b, l, node);
    assert v2 in l && v1 in l;
  }

  lemma LabelledEligible(a: PVC, b: PVC, v1: PV, v2: PV, k: string, key: string, val: string, node: Node)
    requires a == SmallClaim(a.name, k, 1, Absent) && b == SmallClaim(b.name, k, 1, Requirements([In(key, {val})]))
    requires v1 == FreeVolume(v1.name, k, 1, map[key := val]) && v2 == FreeVolume(v2.name, k, 2, map[])
    ensures Eligible(v1, a.spec, node) && Eligible(v2, a.spec, node)
    ensures Eligible(v1, b.spec, node) && !Eligible(v2, b.spec, node)
  {
    var s := b.spec.selector;
    assert !s.reqs[0].Matches(v2.spec.labels);
  }

  /** A volume that another pod has assumed is assumed once more, a claim then fails, and the
      rollback takes the first assumption away as well. */
  lemma FailureLosesAssumption(v: PV, c: PVC, other: PVC, d: PVC, s: Store<Volume>, t: Store<Claim>, k: string,
          node: string)
    requires v == FreeVolume(v.name, k, 1, map[])
    requires s == map[v.name := ObjInfo(NewPV(Binding(other, v)), v)] && t == map[]
    ensures var bs, cs := [Binding(c, v)], [d];
            && Reach(s, t, bs, cs, node) == (1, 0)
            && RestoredAll(s, PVNames(bs), 1) == map[v.name := Stored(v)] != s
  {
    var bs, cs := [Binding(c, v)], [d];
    BindVolumeOk(v, other);
    BindVolumeOk(v, c);
    assert PVsAssumed(s, bs, 0) == s && PVAssumable(s, bs, 0);
    assert PVCsAssumed(t, cs, node, 0) == t && !PVCAssumable(t, cs, node, 0);
    RestoredAllAt(s, PVNames(bs), 1);
    assert PVNames(bs)[..1] == [v.name];
  }

  /** A pod whose two volumes name one claim to provision: the claim is assumed twice and
      written once, the second write fails, and the rollback takes the assumption of the
      written claim away. */
  lemma WrittenClaimIsRestored(c: PVC, s: Store<Claim>, node: string, cs: seq<PVC>)
    requires s == map[c.name := Stored(c)] && c.version.Some? && c.spec.selectedNode.None? && cs == [c, c]
    ensures PVCStuck(s, cs, node, 0) == |cs| && Answered([Some(c), None], 0) == 1
    ensures var t := PVCsAssumed(s, cs, node, |cs|);
            t == map[c.name := ObjInfo(WithSelectedNode(c, node), c)] &&
            RestoredAll(t, PVCNames(Annotated(cs, node)[1..]), 1) == s != t
  {
    var one := 1;
    var t := PVCsAssumed(s, cs, node, one);
    assert PVCsAssumed(s, cs, node, 0) == s && PVCAssumable(s, cs, node, 0);
    assert t == Assumed(s, WithSelectedNode(c, node)) && PVCAssumable(s, cs, node, one);
    var u := PVCsAssumed(s, cs, node, |cs|);
    assert u == Assumed(t, WithSelectedNode(c, node));
    var names := PVCNames(Annotated(cs, node)[1..]);
    assert names == [c.name];
    RestoredAllAt(u, names, 1);
    assert names[..1] == names;
  }
}
