/** Finding volumes for the claims of a pod on a node
    (pkg/controller/volume/scheduling/scheduler_binder.go, FindPodVolumes). */
module PodVolumes {
  import opened Api
  import opened AssumeCaches
  import opened VolumeMatching
  import opened BindingCaches
  import opened GreedyMatching
  import opened PodClaims
  import opened Sequences

  const NOT_SUPPORTED_PROVISIONER := "kubernetes.io/no-provisioner"

  /** The volume of a bound claim can be used on the node. */
  predicate BoundVolumeOk(s: Store<Volume>, c: PVC, node: Node) {
    c.spec.volumeName in s && NodeAffinityOk(s[c.spec.volumeName].latestObj.spec, node)
  }

  /** MatchTopologySelectorTerms: no terms allow every node. */
  predicate TopologyOk(k: StorageClass, node: Node) {
    k.topologies == [] || exists i :: 0 <= i < |k.topologies| && TermMatches(k.topologies[i], node.labels)
  }

  predicate Provisionable(c: PVC, classes: Classes, node: Node) {
    && c.spec.storageClass != "" && c.spec.storageClass in classes
    && var k := classes[c.spec.storageClass];
       k.provisioner != "" && k.provisioner != NOT_SUPPORTED_PROVISIONER && TopologyOk(k, node)
  }

  /** A claim can be provisioned for the node if it names a class that is known, the class has a
      provisioner, and it has no topologies or one with requirements that the node meets. */
  lemma ProvisionableIff(c: PVC, classes: Classes, node: Node)
    ensures Provisionable(c, classes, node) <==>
            && c.spec.storageClass != "" && c.spec.storageClass in classes
            && var k := classes[c.spec.storageClass];
               && k.provisioner != "" && k.provisioner != "kubernetes.io/no-provisioner"
               && (k.topologies == [] ||
                   exists t :: t in k.topologies && t != [] && forall r :: r in t ==> r.Matches(node.labels))
  {
    if c.spec.storageClass in classes {
      var ts := classes[c.spec.storageClass].topologies;
      forall i | 0 <= i < |ts|
        ensures TermMatches(ts[i], node.labels) <==>
                ts[i] != [] && forall r: Requirement :: r in ts[i] ==> r.Matches(node.labels)
      {
        assert forall k :: 0 <= k < |ts[i]| ==> ts[i][k] in ts[i];
      }
      assert forall i :: 0 <= i < |ts| ==> ts[i] in ts;
    }
  }

  datatype Check = CheckError | Check(ok: bool)

  /** The first claim that is not in order decides: an unknown volume is an error. */
  ghost function BoundVerdict(s: Store<Volume>, claims: seq<PVC>, node: Node): Check {
    if exists i :: 0 <= i < |claims| && claims[i].spec.volumeName !in s &&
              forall j :: 0 <= j < i ==> BoundVolumeOk(s, claims[j], node)
    then CheckError
    else Check(forall i :: 0 <= i < |claims| ==> BoundVolumeOk(s, claims[i], node))
  }

  /** checkBoundClaims. */
  method CheckBoundClaims(s: Store<Volume>, claims: seq<PVC>, node: Node) returns (r: Check)
    ensures r == BoundVerdict(s, claims, node)
  {
    for i := 0 to |claims|
      invariant forall j :: 0 <= j < i ==> BoundVolumeOk(s, claims[j], node)
    {
      var name := claims[i].spec.volumeName;
      if name !in s {
        return CheckError;
      }
      if !NodeAffinityOk(s[name].latestObj.spec, node) {
        assert !BoundVolumeOk(s, claims[i], node);
        return Check(false);
      }
    }
    r := Check(true);
  }

  predicate ClassKnown(c: PVC, classes: Classes) { c.spec.storageClass != "" && c.spec.storageClass in classes }

  /** The first claim that cannot be provisioned decides: an unknown class is an error. */
  ghost function ProvisionVerdict(claims: seq<PVC>, classes: Classes, node: Node): Check {
    if exists i :: 0 <= i < |claims| && !ClassKnown(claims[i], classes) &&
              forall j :: 0 <= j < i ==> Provisionable(claims[j], classes, node)
    then CheckError
    else Check(forall i :: 0 <= i < |claims| ==> Provisionable(claims[i], classes, node))
  }

  /** checkVolumeProvisions. */
  method CheckVolumeProvisions(claims: seq<PVC>, classes: Classes, node: Node) returns (r: Check)
    ensures r == ProvisionVerdict(claims, classes, node)
  {
    for i := 0 to |claims|
      invariant forall j :: 0 <= j < i ==> Provisionable(claims[j], classes, node)
    {
      var class_ := claims[i].spec.storageClass;
      if class_ == "" || class_ !in classes {
        assert !ClassKnown(claims[i], classes);
        return CheckError;
      }
      var k := classes[class_];
      if k.provisioner == "" || k.provisioner == NOT_SUPPORTED_PROVISIONER || !TopologyOk(k, node) {
        assert !Provisionable(claims[i], classes, node);
        return Check(false);
      }
    }
    r := Check(true);
  }

  // ---- sorting and listing ----

  predicate BySize(claims: seq<PVC>) {
    forall i, j :: 0 <= i < j < |claims| ==> claims[i].spec.request <= claims[j].spec.request
  }

  /** sort.Sort by request size; which order equal sizes come in does not matter here. */
  method SortBySize(claims: seq<PVC>) returns (sorted: seq<PVC>)
    ensures multiset(sorted) == multiset(claims) && BySize(sorted)
  {
    sorted := [];
    for i := 0 to |claims|
      invariant multiset(sorted) == multiset(claims[..i]) && BySize(sorted)
    {
      assert claims[..i + 1] == claims[..i] + [claims[i]];
      sorted := InsertBySize(sorted, claims[i]);
    }
    assert claims[..|claims|] == claims;
  }

  method InsertBySize(sorted: seq<PVC>, c: PVC) returns (r: seq<PVC>)
    requires BySize(sorted)
    ensures multiset(r) == multiset(sorted) + multiset{c} && BySize(r)
  {
    var k := 0;
    while k < |sorted| && sorted[k].spec.request <= c.spec.request
      invariant k <= |sorted| && forall i :: 0 <= i < k ==> sorted[i].spec.request <= c.spec.request
    {
      k := k + 1;
    }
    r := sorted[..k] + [c] + sorted[k..];
    assert sorted == sorted[..k] + sorted[k..];
    assert multiset(r) == multiset(sorted[..k]) + multiset{c} + multiset(sorted[k..]);
    InsertedBySize(sorted, c, k);
  }

  lemma InsertedBySize(sorted: seq<PVC>, c: PVC, k: nat)
    requires BySize(sorted) && k <= |sorted|
    requires forall i :: 0 <= i < k ==> sorted[i].spec.request <= c.spec.request
    requires k < |sorted| ==> c.spec.request < sorted[k].spec.request
    ensures BySize(sorted[..k] + [c] + sorted[k..])
  {
    var r := sorted[..k] + [c] + sorted[k..];
    assert forall i :: k <= i < |sorted| ==> sorted[k].spec.request <= sorted[i].spec.request;
    forall i, j | 0 <= i < j < |r|
      ensures r[i].spec.request <= r[j].spec.request
    {
      var x := if i < k then sorted[i] else if i == k then c else sorted[i - 1];
      var y := if j < k then sorted[j] else if j == k then c else sorted[j - 1];
      assert r[i] == x && r[j] == y;
    }
  }

  /** ListPVs: the latest objects of a class, in no particular order. */
  method ListPVs(s: Store<Volume>, storageClass: string) returns (pvs: seq<PV>)
    ensures forall v :: v in pvs <==>
      exists n :: n in s && s[n].latestObj == v && v.spec.storageClass == storageClass
  {
    pvs := [];
    var rest := s.Keys;
    while rest != {}
      invariant rest <= s.Keys
      invariant forall v :: v in pvs <==>
        exists n :: n in s && n !in rest && s[n].latestObj == v && v.spec.storageClass == storageClass
    {
      var n :| n in rest;
      rest := rest - {n};
      if s[n].latestObj.spec.storageClass == storageClass {
        pvs := pvs + [s[n].latestObj];
      }
    }
  }

  // ---- the plan ----

  function ClaimsOf(bs: seq<Binding>, n: nat): seq<PVC>
    requires n <= |bs|
  {
    if n == 0 then [] else ClaimsOf(bs, n - 1) + [bs[n - 1].pvc]
  }

  /** The volume is known, unused by others, large enough and reachable from the node. */
  predicate Serves(s: Store<Volume>, b: Binding, node: Node) {
    && b.pv.name in s && s[b.pv.name].latestObj == b.pv
    && (b.pv.spec.claimRef.Some? ==> IsVolumeBoundToClaim(b.pv.spec, b.pvc.spec))
    && b.pv.spec.capacity >= b.pvc.spec.request && b.pv.spec.mode == b.pvc.spec.mode
    && !b.pv.spec.deleting && NodeAffinityOk(b.pv.spec, node)
  }

  predicate OnNode(c: PVC, node: Node) { c.spec.selectedNode.Some? ==> c.spec.selectedNode.value == node.name }

  /** The delayed claims, each as often as it is named, are those matched and those to
      provision, and no volume serves two. */
  ghost predicate PlanOk(delayed: seq<PVC>, matched: seq<Binding>, provisioned: seq<PVC>, s: Store<Volume>,
      classes: Classes, node: Node) {
    && multiset(delayed) == multiset(ClaimsOf(matched, |matched|)) + multiset(provisioned)
    && NamesDiffer(matched)
    && (forall i :: 0 <= i < |matched| ==> Serves(s, matched[i], node) && matched[i].pvc.spec.selectedNode.None?)
    && (forall i :: 0 <= i < |provisioned| ==>
      Provisionable(provisioned[i], classes, node) && OnNode(provisioned[i], node))
  }

  lemma {:induction false} PartitionOfClaims(claims: seq<PVC>, chosen: Assignment<PV>, n: nat)
    requires n <= |claims| && n <= |chosen|
    ensures var bs := Bindings(claims, chosen, n);
            multiset(claims[..n]) == multiset(ClaimsOf(bs, |bs|)) + multiset(Unbound(claims, chosen, n))
  {
    if n > 0 {
      PartitionOfClaims(claims, chosen, n - 1);
      assert claims[..n] == claims[..n - 1] + [claims[n - 1]];
      var bs := Bindings(claims, chosen, n - 1);
      if chosen[n - 1].Some? {
        ClaimsOfAppend(bs, Binding(claims[n - 1], chosen[n - 1].value));
      }
    }
  }

  lemma ClaimsOfAppend(bs: seq<Binding>, b: Binding)
    ensures ClaimsOf(bs + [b], |bs + [b]|) == ClaimsOf(bs, |bs|) + [b.pvc]
  {
    ClaimsOfPrefix(bs + [b], bs, |bs|);
  }

  lemma {:induction false} ClaimsOfPrefix(a: seq<Binding>, b: seq<Binding>, n: nat)
    requires n <= |a| && n <= |b| && forall i :: 0 <= i < n ==> a[i] == b[i]
    ensures ClaimsOf(a, n) == ClaimsOf(b, n)
  {
    if n > 0 {
      ClaimsOfPrefix(a, b, n - 1);
    }
  }

  /** The volumes bound are the ones chosen, so no two have one name. */
  lemma {:induction false} BindingsChosen(claims: seq<PVC>, listing: seq<seq<PV>>, node: Node, chosen: Assignment<PV>,
          n: nat)
    requires n <= |claims| == |listing| && n <= |chosen| && ChosenInTurn(claims, listing, node, chosen, n)
    ensures forall i :: 0 <= i < |Bindings(claims, chosen, n)| ==>
      Bindings(claims, chosen, n)[i].pv.name in Chosen(chosen, n)
    ensures NamesDiffer(Bindings(claims, chosen, n))
  {
    if n > 0 {
      BindingsChosen(claims, listing, node, chosen, n - 1);
      if chosen[n - 1].Some? {
        BestServes(chosen[n - 1], claims[n - 1].spec, listing[n - 1], node, Chosen(chosen, n - 1));
        NamesDifferAppend(Bindings(claims, chosen, n - 1), Binding(claims[n - 1], chosen[n - 1].value),
          Chosen(chosen, n - 1));
      }
    }
  }

  predicate NamesDiffer(bs: seq<Binding>) { forall i, j :: 0 <= i < j < |bs| ==> bs[i].pv.name != bs[j].pv.name }

  lemma NamesDifferAppend(bs: seq<Binding>, b: Binding, names: set<string>)
    requires NamesDiffer(bs) && b.pv.name !in names && forall i :: 0 <= i < |bs| ==> bs[i].pv.name in names
    ensures NamesDiffer(bs + [b])
    ensures forall i :: 0 <= i < |bs + [b]| ==> (bs + [b])[i].pv.name in names + {b.pv.name}
  {
  }

  lemma BestServes(o: Option<PV>, c: Claim, volumes: seq<PV>, node: Node, excluded: set<string>)
    requires o.Some? && BestMatch(AsMatch(o), c, volumes, node, excluded)
    ensures o.value in volumes && o.value.name !in excluded
    ensures var v := o.value.spec;
            && (v.claimRef.Some? ==> IsVolumeBoundToClaim(v, c))
            && v.capacity >= c.request && v.mode == c.mode && !v.deleting && NodeAffinityOk(v, node)
  {
  }

  /** Exactly the volumes that the cache has of a class. */
  ghost predicate ListsClass(s: Store<Volume>, storageClass: string, volumes: seq<PV>) {
    forall v: PV :: v in volumes <==> v.name in s && s[v.name].latestObj == v && v.spec.storageClass == storageClass
  }

  ghost predicate ListsFor(s: Store<Volume>, claims: seq<PVC>, listing: seq<seq<PV>>) {
    |listing| == |claims| && forall i :: 0 <= i < |listing| ==> ListsClass(s, claims[i].spec.storageClass, listing[i])
  }

  lemma {:induction false} BindingsServe(s: Store<Volume>, claims: seq<PVC>, listing: seq<seq<PV>>, node: Node,
      chosen: Assignment<PV>, n: nat)
    requires n <= |claims| == |listing| && n <= |chosen| && ChosenInTurn(claims, listing, node, chosen, n)
    requires ListsFor(s, claims, listing)
    ensures forall b :: b in Bindings(claims, chosen, n) ==> Serves(s, b, node) && b.pvc in claims
  {
    if n > 0 {
      BindingsServe(s, claims, listing, node, chosen, n - 1);
      if chosen[n - 1].Some? {
        BestServes(chosen[n - 1], claims[n - 1].spec, listing[n - 1], node, Chosen(chosen, n - 1));
        assert Serves(s, Binding(claims[n - 1], chosen[n - 1].value), node);
      }
    }
  }

  // ---- the search ----

  datatype FindResult = FindError | Verdict(nodeOk: bool, bindOk: bool)

  /** The first n claims with a selected node, and those without. */
  function Selected(claims: seq<PVC>, n: nat): seq<PVC>
    requires n <= |claims|
  {
    if n == 0 then []
    else if claims[n - 1].spec.selectedNode.Some? then Selected(claims, n - 1) + [claims[n - 1]]
    else Selected(claims, n - 1)
  }

  function Unselected(claims: seq<PVC>, n: nat): seq<PVC>
    requires n <= |claims|
  {
    if n == 0 then []
    else if claims[n - 1].spec.selectedNode.Some? then Unselected(claims, n - 1)
    else Unselected(claims, n - 1) + [claims[n - 1]]
  }

  predicate AllOnNode(claims: seq<PVC>, node: Node) { forall i :: 0 <= i < |claims| ==> OnNode(claims[i], node) }

  /** The filter of the claims to provision; absent when one has another node. */
  method SplitSelected(claims: seq<PVC>, node: Node) returns (r: Option<(seq<PVC>, seq<PVC>)>)
    ensures r == if AllOnNode(claims, node)
                 then Some((Selected(claims, |claims|), Unselected(claims, |claims|))) else None
  {
    var toProvision, toMatch := [], [];
    for i := 0 to |claims|
      invariant forall j :: 0 <= j < i ==> OnNode(claims[j], node)
      invariant toProvision == Selected(claims, i) && toMatch == Unselected(claims, i)
    {
      if claims[i].spec.selectedNode.Some? {
        if claims[i].spec.selectedNode.value != node.name {
          assert !OnNode(claims[i], node);
          return None;
        }
        toProvision := toProvision + [claims[i]];
      } else {
        toMatch := toMatch + [claims[i]];
      }
    }
    r := Some((toProvision, toMatch));
  }

  lemma {:induction false} SplitLosesNothing(claims: seq<PVC>, n: nat)
    requires n <= |claims|
    ensures multiset(claims[..n]) == multiset(Selected(claims, n)) + multiset(Unselected(claims, n))
  {
    if n > 0 {
      SplitLosesNothing(claims, n - 1);
      assert claims[..n] == claims[..n - 1] + [claims[n - 1]];
    }
  }

  lemma {:induction false} SplitParts(claims: seq<PVC>, node: Node, n: nat)
    requires n <= |claims| && AllOnNode(claims, node)
    ensures (forall c :: c in Selected(claims, n) ==> OnNode(c, node))
    ensures forall c :: c in Unselected(claims, n) ==> c.spec.selectedNode.None?
  {
    if n > 0 {
      SplitParts(claims, node, n - 1);
    }
  }

  /** What the volume cache lists for the class of each claim. */
  method ListFor(s: Store<Volume>, claims: seq<PVC>) returns (listing: seq<seq<PV>>)
    requires StoreOk(s)
    ensures ListsFor(s, claims, listing)
  {
    listing := [];
    for i := 0 to |claims|
      invariant |listing| == i && forall j :: 0 <= j < i ==> ListsClass(s, claims[j].spec.storageClass, listing[j])
    {
      var pvs := ListPVs(s, claims[i].spec.storageClass);
      ListedIs(s, claims[i].spec.storageClass, pvs);
      listing := listing + [pvs];
    }
  }

  lemma ListedIs(s: Store<Volume>, storageClass: string, pvs: seq<PV>)
    requires StoreOk(s)
    requires forall v :: v in pvs <==> exists n :: n in s && s[n].latestObj == v && v.spec.storageClass == storageClass
    ensures ListsClass(s, storageClass, pvs)
  {
  }

  /** The matched claims and the rest are what was to be matched. */
  ghost predicate MatchedOk(s: Store<Volume>, claims: seq<PVC>, node: Node, matched: seq<Binding>, rest: seq<PVC>) {
    && multiset(claims) == multiset(ClaimsOf(matched, |matched|)) + multiset(rest)
    && NamesDiffer(matched) && forall b :: b in matched ==> Serves(s, b, node) && b.pvc in claims
  }

  /** How a matching came about: the claims sorted by size, what the cache lists for each,
      and what was chosen in turn. */
  datatype Turns = Turns(sorted: seq<PVC>, listing: seq<seq<PV>>, chosen: Assignment<PV>)

  ghost predicate TurnsOk(s: Store<Volume>, claims: seq<PVC>, node: Node, t: Turns) {
    && multiset(t.sorted) == multiset(claims) && BySize(t.sorted)
    && ListsFor(s, t.sorted, t.listing) && |t.chosen| == |t.sorted|
    && ChosenInTurn(t.sorted, t.listing, node, t.chosen, |t.sorted|)
  }

  function MatchedBy(t: Turns): seq<Binding>
    requires |t.chosen| == |t.sorted|
  {
    Bindings(t.sorted, t.chosen, |t.sorted|)
  }

  function LeftBy(t: Turns): seq<PVC>
    requires |t.chosen| == |t.sorted|
  {
    Unbound(t.sorted, t.chosen, |t.sorted|)
  }

  predicate SelectorsConvertible(claims: seq<PVC>) {
    forall i :: 0 <= i < |claims| ==> !claims[i].spec.selector.Malformed?
  }

  /** findMatchingVolumes with its sort and its listings. */
  method Match(s: Store<Volume>, claims: seq<PVC>, node: Node) returns (r: Matching, ghost t: Turns)
    requires StoreOk(s)
    ensures r.Matching? <==> SelectorsConvertible(claims)
    ensures r.Matching? ==> TurnsOk(s, claims, node, t) && r.bindings == MatchedBy(t) && r.unbound == LeftBy(t)
  {
    var sorted := SortBySize(claims);
    var listing := ListFor(s, sorted);
    ghost var chosen;
    r, chosen := FindMatchingVolumes(sorted, listing, node);
    SelectorsSorted(claims, sorted);
    t := Turns(sorted, listing, chosen);
  }

  lemma {:induction false} NoneMalformedIs(claims: seq<PVC>, n: nat)
    requires n <= |claims|
    ensures NoneMalformed(claims, n) <==> forall i :: 0 <= i < n ==> !claims[i].spec.selector.Malformed?
  {
    if n > 0 {
      NoneMalformedIs(claims, n - 1);
    }
  }

  lemma SelectorsSorted(claims: seq<PVC>, sorted: seq<PVC>)
    requires multiset(sorted) == multiset(claims)
    ensures NoneMalformed(sorted, |sorted|) <==> SelectorsConvertible(claims)
  {
    NoneMalformedIs(sorted, |sorted|);
    if !SelectorsConvertible(claims) {
      var i :| 0 <= i < |claims| && claims[i].spec.selector.Malformed?;
      assert claims[i] in multiset(sorted);
    }
    if !SelectorsConvertible(sorted) {
      var i :| 0 <= i < |sorted| && sorted[i].spec.selector.Malformed?;
      assert sorted[i] in multiset(claims);
    }
  }

  lemma MatchingOk(s: Store<Volume>, claims: seq<PVC>, node: Node, t: Turns)
    requires TurnsOk(s, claims, node, t)
    ensures MatchedOk(s, claims, node, MatchedBy(t), LeftBy(t))
  {
    PartitionOfClaims(t.sorted, t.chosen, |t.sorted|);
    assert t.sorted[..|t.sorted|] == t.sorted;
    BindingsChosen(t.sorted, t.listing, node, t.chosen, |t.sorted|);
    BindingsServe(s, t.sorted, t.listing, node, t.chosen, |t.sorted|);
    forall b | b in MatchedBy(t)
      ensures b.pvc in claims
    {
      assert b.pvc in multiset(t.sorted);
    }
  }

  /** The outcome for the delayed claims: a claim tied to another node ends the search, as
      does a malformed selector; the claims left over by the matching are to be provisioned. */
  ghost predicate PlanIs(s: Store<Volume>, classes: Classes, delayed: seq<PVC>, node: Node,
      r: Check, matched: seq<Binding>, provisioned: seq<PVC>, t: Turns)
  {
    var selected, open := Selected(delayed, |delayed|), Unselected(delayed, |delayed|);
    if !AllOnNode(delayed, node) then r == Check(false) && matched == [] && provisioned == []
    else if !SelectorsConvertible(open) then r == CheckError && matched == [] && provisioned == []
    else
      && TurnsOk(s, open, node, t) && matched == MatchedBy(t)
      && r == ProvisionVerdict(selected + LeftBy(t), classes, node)
      && provisioned == if r == Check(true) then selected + LeftBy(t) else []
  }

  method PlanDelayed(s: Store<Volume>, classes: Classes, delayed: seq<PVC>, node: Node)
      returns (r: Check, matched: seq<Binding>, provisioned: seq<PVC>, ghost t: Turns)
    requires StoreOk(s)
    ensures PlanIs(s, classes, delayed, node, r, matched, provisioned, t)
  {
    matched, provisioned, t := [], [], Turns([], [], []);
    var split := SplitSelected(delayed, node);
    if split.None? {
      return Check(false), [], [], t;
    }
    var (toProvision, toMatch) := split.value;
    var found;
    found, t := Match(s, toMatch, node);
    if found.SelectorError? {
      return CheckError, [], [], t;
    }
    matched := found.bindings;
    toProvision := toProvision + found.unbound;
    r := CheckVolumeProvisions(toProvision, classes, node);
    if r == Check(true) {
      provisioned := toProvision;
    }
  }

  /** The plan serves each claim once if and only if the delayed claims come without
      repetition. */
  lemma PlanOnceIff(delayed: seq<PVC>, matched: seq<Binding>, provisioned: seq<PVC>, s: Store<Volume>,
      classes: Classes, node: Node)
    requires PlanOk(delayed, matched, provisioned, s, classes, node)
    ensures NoDuplicates(ClaimsOf(matched, |matched|) + provisioned) <==> NoDuplicates(delayed)
  {
    SameMultiset(delayed, ClaimsOf(matched, |matched|) + provisioned);
  }

  /** A search without conflict loses nothing and adds nothing. */
  lemma PlanIsOk(s: Store<Volume>, classes: Classes, delayed: seq<PVC>, node: Node,
      matched: seq<Binding>, provisioned: seq<PVC>, t: Turns)
    requires PlanIs(s, classes, delayed, node, Check(true), matched, provisioned, t)
    ensures PlanOk(delayed, matched, provisioned, s, classes, node)
  {
    var selected, open, rest := Selected(delayed, |delayed|), Unselected(delayed, |delayed|), LeftBy(t);
    SplitParts(delayed, node, |delayed|);
    SplitLosesNothing(delayed, |delayed|);
    assert delayed[..|delayed|] == delayed;
    MatchingOk(s, open, node, t);
    PlanComplete(delayed, selected, open, matched, rest, s, classes, node);
  }

  /** The volumes of the cache. */
  ghost function Pool(s: Store<Volume>): set<PV> { set n | n in s :: s[n].latestObj }

  lemma ListsOfPool(s: Store<Volume>, claims: seq<PVC>, listing: seq<seq<PV>>)
    requires StoreOk(s) && ListsFor(s, claims, listing)
    ensures ListedByClass(claims, listing, Pool(s)) && NamesUnique(listing)
  {
    forall i, v: PV | 0 <= i < |claims|
      ensures v in listing[i] <==> v in Pool(s) && v.spec.storageClass == claims[i].spec.storageClass
    {
      assert ListsClass(s, claims[i].spec.storageClass, listing[i]);
    }
  }

  /** For plain claims and no pre-bound volume no other assignment of volumes of the cache
      matches more claims than the search does, and if all can be matched together all are. */
  lemma PlanIsMaximum(s: Store<Volume>, claims: seq<PVC>, node: Node, t: Turns, other: Assignment<PV>)
    requires StoreOk(s) && TurnsOk(s, claims, node, t)
    requires Plain(t.sorted) && NoPrebound(t.sorted, t.listing)
    requires Valid(FitsOf(t.sorted, t.listing, node), other, {})
    ensures Count(other) <= |MatchedBy(t)|
    ensures Count(other) == |t.sorted| ==> LeftBy(t) == []
  {
    ListsOfPool(s, t.sorted, t.listing);
    MatchingIsMaximum(t.sorted, t.listing, node, Pool(s), t.chosen, other);
  }

  lemma PlanComplete(delayed: seq<PVC>, selected: seq<PVC>, toMatch: seq<PVC>, matched: seq<Binding>, rest: seq<PVC>,
      s: Store<Volume>, classes: Classes, node: Node)
    requires multiset(delayed) == multiset(selected) + multiset(toMatch)
    requires (forall c :: c in selected ==> OnNode(c, node)) && forall c :: c in toMatch ==> c.spec.selectedNode.None?
    requires MatchedOk(s, toMatch, node, matched, rest)
    requires forall i :: 0 <= i < |selected + rest| ==> Provisionable((selected + rest)[i], classes, node)
    ensures PlanOk(delayed, matched, selected + rest, s, classes, node)
  {
    forall c | c in rest
      ensures OnNode(c, node)
    {
      assert c in multiset(rest);
      assert c in multiset(toMatch);
    }
    forall i | 0 <= i < |selected + rest|
      ensures OnNode((selected + rest)[i], node)
    {
      assert (selected + rest)[i] in selected || (selected + rest)[i] in rest;
    }
    forall i | 0 <= i < |matched|
      ensures Serves(s, matched[i], node) && matched[i].pvc.spec.selectedNode.None?
    {
      assert matched[i] in matched;
    }
  }

  /** What FindPodVolumes remembers: an empty part is normalized to nil, and with nothing to
      do the entry of the node is cleared. */
  function Remembered(d: Decisions, pod: string, node: string, matched: seq<Binding>,
          provisioned: seq<PVC>): Decisions
  {
    if matched == [] && provisioned == [] then Cleared(d, pod, node)
    else
      Updated(d, pod, node, Decision(if matched == [] then None else Some(matched),
                                     if provisioned == [] then None else Some(provisioned)))
  }
}
