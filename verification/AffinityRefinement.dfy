/** The counters give the verdict that the definition over all pods gives, and the
    incremental updates of the counters (framework/plugins/interpodaffinity/filtering.go). */
module AffinityRefinement {
  import opened Api
  import opened NodeInfos
  import opened Counters
  import opened AffinityTerms
  import opened AffinityFilter

  // ---- what a counter holds ----

  ghost predicate PlacedFor(kind: Kind, nodes: seq<NodeView>, pod: Pod, home: Node) {
    exists i :: 0 <= i < |nodes| && nodes[i].node == Some(home) && pod in PodsFor(kind, nodes[i])
  }

  /** Some pod contributes the pair. */
  ghost predicate Contributed(kind: Kind, incoming: Pod, nodes: seq<NodeView>, p: Pair) {
    exists pod, home :: PlacedFor(kind, nodes, pod, home) && p in PairsOfPod(kind, incoming, pod, home)
  }

  /** The pairs of each pod. */
  function PodParts(kind: Kind, incoming: Pod, node: Node, pods: seq<Pod>): (parts: seq<seq<Pair>>)
    ensures |parts| == |pods|
    ensures forall i :: 0 <= i < |pods| ==> parts[i] == PairsOfPod(kind, incoming, pods[i], node)
  {
    seq(|pods|, i requires 0 <= i < |pods| => PairsOfPod(kind, incoming, pods[i], node))
  }

  lemma {:induction false} PairsAreFlat(kind: Kind, incoming: Pod, node: Node, pods: seq<Pod>,
          parts: seq<seq<Pair>>, n: nat)
    requires n <= |pods| == |parts| && forall i :: 0 <= i < n ==> parts[i] == PairsOfPod(kind, incoming, pods[i], node)
    ensures PairsOfPods(kind, incoming, node, pods, n) == Flat(parts, n)
  {
    if n > 0 {
      PairsAreFlat(kind, incoming, node, pods, parts, n - 1);
    }
  }

  lemma InPairsOfPods(kind: Kind, incoming: Pod, node: Node, pods: seq<Pod>, n: nat, p: Pair)
    requires n <= |pods|
    ensures p in PairsOfPods(kind, incoming, node, pods, n) <==>
            exists i :: 0 <= i < n && p in PairsOfPod(kind, incoming, pods[i], node)
  {
    PairsAreFlat(kind, incoming, node, pods, PodParts(kind, incoming, node, pods), n);
    InFlat(PodParts(kind, incoming, node, pods), n, p);
  }

  lemma InPairsOfNodes(kind: Kind, incoming: Pod, nodes: seq<NodeView>, n: nat, p: Pair)
    requires n <= |nodes|
    ensures p in PairsOfNodes(kind, incoming, nodes, n) <==>
            exists i :: 0 <= i < n && p in PairsOfNode(kind, incoming, nodes[i])
  {
    var parts := NodeParts(kind, incoming, nodes);
    InFlat(parts, n, p);
    assert forall i :: 0 <= i < n ==> parts[i] == PairsOfNode(kind, incoming, nodes[i]);
  }

  lemma InPairsOfNode(kind: Kind, incoming: Pod, v: NodeView, p: Pair)
    ensures p in PairsOfNode(kind, incoming, v) <==>
            v.node.Some? && exists pod :: pod in PodsFor(kind, v) && p in PairsOfPod(kind, incoming, pod, v.node.value)
  {
    if v.node.Some? {
      var pods := PodsFor(kind, v);
      InPairsOfPods(kind, incoming, v.node.value, pods, |pods|, p);
    }
  }

  lemma ContributedIff(kind: Kind, incoming: Pod, nodes: seq<NodeView>, p: Pair)
    ensures p in PairsOfNodes(kind, incoming, nodes, |nodes|) <==> Contributed(kind, incoming, nodes, p)
  {
    InPairsOfNodes(kind, incoming, nodes, |nodes|, p);
    if i :| 0 <= i < |nodes| && p in PairsOfNode(kind, incoming, nodes[i]) {
      InPairsOfNode(kind, incoming, nodes[i], p);
      var pod :| pod in PodsFor(kind, nodes[i]) && p in PairsOfPod(kind, incoming, pod, nodes[i].node.value);
      assert PlacedFor(kind, nodes, pod, nodes[i].node.value);
    }
    if Contributed(kind, incoming, nodes, p) {
      var pod, home :| PlacedFor(kind, nodes, pod, home) && p in PairsOfPod(kind, incoming, pod, home);
      var i :| 0 <= i < |nodes| && nodes[i].node == Some(home) && pod in PodsFor(kind, nodes[i]);
      InPairsOfNode(kind, incoming, nodes[i], p);
    }
  }

  lemma TalliedHit(keys: seq<Pair>, p: Pair)
    ensures Count(Tallied(keys), p) > 0 <==> p in keys
  {
    var empty: Counts<Pair> := map[];
    BumpAllCount(empty, keys, |keys|, 1, p);
    OccursIff(keys, |keys|, p);
  }

  lemma TalliedEmpty(keys: seq<Pair>)
    ensures Tallied(keys) == map[] <==> keys == []
  {
    if keys != [] {
      TalliedHit(keys, keys[0]);
    }
  }

  lemma TallyHit(kind: Kind, incoming: Pod, nodes: seq<NodeView>, p: Pair)
    ensures Count(Tally(kind, incoming, nodes), p) > 0 <==> Contributed(kind, incoming, nodes, p)
  {
    TalliedHit(PairsOfNodes(kind, incoming, nodes, |nodes|), p);
    ContributedIff(kind, incoming, nodes, p);
  }

  lemma TallyEmpty(kind: Kind, incoming: Pod, nodes: seq<NodeView>)
    ensures Tally(kind, incoming, nodes) == map[] <==> forall p :: !Contributed(kind, incoming, nodes, p)
  {
    var keys := PairsOfNodes(kind, incoming, nodes, |nodes|);
    TalliedEmpty(keys);
    if keys != [] {
      ContributedIff(kind, incoming, nodes, keys[0]);
    }
    forall p | Contributed(kind, incoming, nodes, p)
      ensures keys != []
    {
      ContributedIff(kind, incoming, nodes, p);
    }
  }

  // ---- the three counters against the definition ----

  /** The lists of the snapshot: the affinity list has the entries that hold pods with
      affinity, and each entry lists these pods. */
  ghost predicate ListsAgree(allNodes: seq<NodeView>, affinityNodes: seq<NodeView>) {
    && (forall v :: v in affinityNodes <==> v in allNodes && |v.podsWithAffinity| > 0)
    && (forall v :: v in allNodes ==> AffinitySubset(v))
  }

  lemma PlacedIs(nodes: seq<NodeView>, pod: Pod, home: Node, kind: Kind)
    requires !kind.Existing?
    ensures PlacedFor(kind, nodes, pod, home) <==> Placed(nodes, pod, home)
  {
  }

  lemma PlacedWithAffinity(allNodes: seq<NodeView>, affinityNodes: seq<NodeView>, pod: Pod, home: Node)
    requires ListsAgree(allNodes, affinityNodes) && pod.HasAffinity()
    ensures PlacedFor(Existing, affinityNodes, pod, home) <==> Placed(allNodes, pod, home)
  {
    if PlacedFor(Existing, affinityNodes, pod, home) {
      var i :| 0 <= i < |affinityNodes| && affinityNodes[i].node == Some(home) &&
        pod in affinityNodes[i].podsWithAffinity;
      var v := affinityNodes[i];
      assert v in allNodes && AffinitySubset(v);
      assert multiset(v.podsWithAffinity)[pod] > 0;
      assert pod in v.pods;
    }
    if Placed(allNodes, pod, home) {
      var i :| 0 <= i < |allNodes| && allNodes[i].node == Some(home) && pod in allNodes[i].pods;
      var v := allNodes[i];
      assert v in allNodes && AffinitySubset(v);
      assert multiset(v.pods)[pod] > 0;
      assert pod in v.podsWithAffinity;
      assert v in affinityNodes;
    }
  }

  lemma ExistingPair(incoming: Pod, pod: Pod, home: Node, node: Node, key: string)
    requires key in node.labels
    ensures (key, node.labels[key]) in PairsOfPod(Existing, incoming, pod, home) <==>
            SameTopology(node, home, key) && exists t ::
              Demands(pod.affinity.podAntiAffinity, t) && Selects(pod, t, incoming) && t.topologyKey == key
  {
    var ts := OwnAntiTerms(pod);
    InAntiPairs(incoming, home, ts, |ts|, (key, node.labels[key]));
    SomeMatchesIff(pod, AntiAffinityTermsOf(pod), incoming, key);
    AntiDemands(pod, key, incoming, pod);
  }

  lemma AntiDemands(pod: Pod, key: string, target: Pod, owner: Pod)
    ensures (exists t :: t in AntiAffinityTermsOf(pod) && Selects(owner, t, target) && t.topologyKey == key) <==>
            (exists t ::
              Demands(pod.affinity.podAntiAffinity, t) && Selects(owner, t, target) && t.topologyKey == key)
  {
    assert forall t :: t in AntiAffinityTermsOf(pod) <==> Demands(pod.affinity.podAntiAffinity, t);
  }

  /** The existing pods' counter has a hit among the labels of the node exactly when an
      existing pod repels the incoming one. */
  lemma RepelledIff(allNodes: seq<NodeView>, affinityNodes: seq<NodeView>, incoming: Pod, node: Node)
    requires ListsAgree(allNodes, affinityNodes)
    ensures (exists key :: key in node.labels && Hit(Tally(Existing, incoming, affinityNodes), node, key)) <==>
            Repelled(allNodes, incoming, node)
  {
    var m := Tally(Existing, incoming, affinityNodes);
    if key :| key in node.labels && Hit(m, node, key) {
      TallyHit(Existing, incoming, affinityNodes, (key, node.labels[key]));
      var pod, home :| PlacedFor(Existing, affinityNodes, pod, home) &&
        (key, node.labels[key]) in PairsOfPod(Existing, incoming, pod, home);
      ExistingPair(incoming, pod, home, node, key);
      PlacedWithAffinity(allNodes, affinityNodes, pod, home);
    }
    if Repelled(allNodes, incoming, node) {
      var pod, home, t :| Placed(allNodes, pod, home) && Demands(pod.affinity.podAntiAffinity, t) &&
        Selects(pod, t, incoming) && SameTopology(node, home, t.topologyKey);
      var key := t.topologyKey;
      PlacedWithAffinity(allNodes, affinityNodes, pod, home);
      ExistingPair(incoming, pod, home, node, key);
      assert Contributed(Existing, incoming, affinityNodes, (key, node.labels[key]));
      TallyHit(Existing, incoming, affinityNodes, (key, node.labels[key]));
    }
  }

  lemma AffinityPair(incoming: Pod, pod: Pod, home: Node, p: Pair)
    ensures p in PairsOfPod(OwnAffinity, incoming, pod, home) <==>
            SelectedByAll(incoming, pod) && OnPair(home, p) && exists t ::
              Demands(incoming.affinity.podAffinity, t) && t.topologyKey == p.0
  {
    var ts := OwnAffinityTerms(incoming);
    MatchesAllIff(incoming, pod);
    KeyNamedIff(incoming, AffinityTermsOf(incoming), p.0);
    assert forall t :: t in AffinityTermsOf(incoming) <==> Demands(incoming.affinity.podAffinity, t);
    InAffinityPairs(home, ts, |ts|, p);
    assert forall i :: 0 <= i < |ts| ==> ts[i] in ts;
  }

  /** The counter has a hit under a term's key exactly when a pod that all terms select is in
      that topology. */
  lemma AttractedIff(nodes: seq<NodeView>, incoming: Pod, node: Node, t: AffinityTerm)
    requires Demands(incoming.affinity.podAffinity, t)
    ensures Hit(Tally(OwnAffinity, incoming, nodes), node, t.topologyKey) <==>
      Attracted(nodes, incoming, node, t.topologyKey)
  {
    var key := t.topologyKey;
    if key in node.labels {
      var p := (key, node.labels[key]);
      TallyHit(OwnAffinity, incoming, nodes, p);
      if Contributed(OwnAffinity, incoming, nodes, p) {
        var pod, home :| PlacedFor(OwnAffinity, nodes, pod, home) && p in PairsOfPod(OwnAffinity, incoming, pod, home);
        AffinityPair(incoming, pod, home, p);
        PlacedIs(nodes, pod, home, OwnAffinity);
      }
      if Attracted(nodes, incoming, node, key) {
        var pod, home :| Placed(nodes, pod, home) && SelectedByAll(incoming, pod) && SameTopology(node, home, key);
        AffinityPair(incoming, pod, home, p);
        PlacedIs(nodes, pod, home, OwnAffinity);
      }
    }
  }

  /** The counter is empty exactly when the pod is the first of its series. */
  lemma FirstOfSeriesIff(nodes: seq<NodeView>, incoming: Pod)
    ensures Tally(OwnAffinity, incoming, nodes) == map[] <==> FirstOfSeries(nodes, incoming)
  {
    TallyEmpty(OwnAffinity, incoming, nodes);
    if !FirstOfSeries(nodes, incoming) {
      var pod, home, t :| Placed(nodes, pod, home) && Demands(incoming.affinity.podAffinity, t) &&
        t.topologyKey in home.labels && SelectedByAll(incoming, pod);
      AffinityPair(incoming, pod, home, (t.topologyKey, home.labels[t.topologyKey]));
      PlacedIs(nodes, pod, home, OwnAffinity);
      assert Contributed(OwnAffinity, incoming, nodes, (t.topologyKey, home.labels[t.topologyKey]));
    }
    if p :| Contributed(OwnAffinity, incoming, nodes, p) {
      var pod, home :| PlacedFor(OwnAffinity, nodes, pod, home) && p in PairsOfPod(OwnAffinity, incoming, pod, home);
      AffinityPair(incoming, pod, home, p);
      PlacedIs(nodes, pod, home, OwnAffinity);
    }
  }

  /** No pod of the cluster is selected by the affinity terms: how the exception for the first
      pod of a series is explained in the code. */
  ghost predicate NoneMatches(nodes: seq<NodeView>, incoming: Pod) {
    forall pod, home :: Placed(nodes, pod, home) ==> !SelectedByAll(incoming, pod)
  }

  ghost predicate HasKey(home: Node, incoming: Pod) {
    exists t :: Demands(incoming.affinity.podAffinity, t) && t.topologyKey in home.labels
  }

  /** A pod that all terms select is placed on a node with one of their keys. */
  ghost predicate MatchCounted(nodes: seq<NodeView>, incoming: Pod) {
    exists pod, home :: Placed(nodes, pod, home) && SelectedByAll(incoming, pod) && HasKey(home, incoming)
  }

  /** The code follows the explanation if and only if either no pod matches, or one that does
      is on a node with a topology key of the terms. */
  lemma ReadingsAgreeIff(nodes: seq<NodeView>, incoming: Pod)
    ensures FirstOfSeries(nodes, incoming) <==> !MatchCounted(nodes, incoming)
    ensures (FirstOfSeries(nodes, incoming) <==> NoneMatches(nodes, incoming)) <==>
            NoneMatches(nodes, incoming) || MatchCounted(nodes, incoming)
  {
    if MatchCounted(nodes, incoming) {
      var pod, home :| Placed(nodes, pod, home) && SelectedByAll(incoming, pod) && HasKey(home, incoming);
      assert !FirstOfSeries(nodes, incoming);
    }
    if !FirstOfSeries(nodes, incoming) {
      var pod, home, t :| Placed(nodes, pod, home) && Demands(incoming.affinity.podAffinity, t) &&
        t.topologyKey in home.labels && SelectedByAll(incoming, pod);
      assert HasKey(home, incoming);
    }
  }

  lemma AntiPair(incoming: Pod, pod: Pod, home: Node, node: Node, key: string)
    requires key in node.labels
    ensures (key, node.labels[key]) in PairsOfPod(OwnAnti, incoming, pod, home) <==>
            SameTopology(node, home, key) && exists t ::
              Demands(incoming.affinity.podAntiAffinity, t) && Selects(incoming, t, pod) && t.topologyKey == key
  {
    var ts := OwnAntiTerms(incoming);
    InAntiPairs(pod, home, ts, |ts|, (key, node.labels[key]));
    SomeMatchesIff(incoming, AntiAffinityTermsOf(incoming), pod, key);
    AntiDemands(incoming, key, pod, incoming);
  }

  lemma AntiAffinityIff(nodes: seq<NodeView>, incoming: Pod, node: Node)
    ensures (exists t :: Demands(incoming.affinity.podAntiAffinity, t) &&
                         Hit(Tally(OwnAnti, incoming, nodes), node, t.topologyKey)) <==>
            AntiAffinityViolated(nodes, incoming, node)
  {
    if t :| Demands(incoming.affinity.podAntiAffinity, t) && Hit(Tally(OwnAnti, incoming, nodes), node, t.topologyKey) {
      var key := t.topologyKey;
      TallyHit(OwnAnti, incoming, nodes, (key, node.labels[key]));
      var pod, home :| PlacedFor(OwnAnti, nodes, pod, home) &&
        (key, node.labels[key]) in PairsOfPod(OwnAnti, incoming, pod, home);
      AntiPair(incoming, pod, home, node, key);
      PlacedIs(nodes, pod, home, OwnAnti);
    }
    if AntiAffinityViolated(nodes, incoming, node) {
      var pod, home, t :| Placed(nodes, pod, home) && Demands(incoming.affinity.podAntiAffinity, t) &&
        Selects(incoming, t, pod) && SameTopology(node, home, t.topologyKey);
      var key := t.topologyKey;
      AntiPair(incoming, pod, home, node, key);
      PlacedIs(nodes, pod, home, OwnAnti);
      assert Contributed(OwnAnti, incoming, nodes, (key, node.labels[key]));
      TallyHit(OwnAnti, incoming, nodes, (key, node.labels[key]));
    }
  }

  // ---- the verdict ----

  lemma MatchesItselfIff(pod: Pod)
    requires OwnConvertible(pod)
    ensures MatchesItself(pod) <==> SelectedByAll(pod, pod)
  {
    MatchesAllIff(pod, pod);
  }

  lemma AffinityHoldsIff(s: PreFilterState, nodes: seq<NodeView>, incoming: Pod, node: Node)
    requires OwnConvertible(incoming) && s.affinity == Tally(OwnAffinity, incoming, nodes)
    ensures AffinityHolds(s, incoming, node) <==> AffinityMet(nodes, incoming, node)
  {
    var ts := AffinityTermsOf(incoming);
    FirstOfSeriesIff(nodes, incoming);
    MatchesItselfIff(incoming);
    forall t | Demands(incoming.affinity.podAffinity, t)
      ensures Hit(s.affinity, node, t.topologyKey) <==> Attracted(nodes, incoming, node, t.topologyKey)
    {
      AttractedIff(nodes, incoming, node, t);
    }
    assert forall t :: t in ts <==> Demands(incoming.affinity.podAffinity, t);
    assert forall i :: 0 <= i < |ts| ==> ts[i] in ts;
  }

  lemma AntiAffinityHitIff(s: PreFilterState, nodes: seq<NodeView>, incoming: Pod, node: Node)
    requires s.antiAffinity == Tally(OwnAnti, incoming, nodes)
    ensures AntiAffinityHit(s, incoming, node) <==> AntiAffinityViolated(nodes, incoming, node)
  {
    var ts := AntiAffinityTermsOf(incoming);
    AntiAffinityIff(nodes, incoming, node);
    assert forall t :: t in ts <==> Demands(incoming.affinity.podAntiAffinity, t);
    assert forall i :: 0 <= i < |ts| ==> ts[i] in ts;
  }

  /** The verdict from the counters is the verdict of the definition over all existing pods
      on all nodes and all terms as they stand in the pods, the first pod of a series included. */
  lemma FilterIsBruteForce(allNodes: seq<NodeView>, affinityNodes: seq<NodeView>, incoming: Pod, node: Node)
    requires ListsAgree(allNodes, affinityNodes) && PreFilterOf(incoming, allNodes, affinityNodes).Some?
    ensures VerdictOf(PreFilterOf(incoming, allNodes, affinityNodes).value, incoming, node)
      == BruteForce(allNodes, incoming, node)
  {
    var s := PreFilterOf(incoming, allNodes, affinityNodes).value;
    RepelledIff(allNodes, affinityNodes, incoming, node);
    AffinityHoldsIff(s, allNodes, incoming, node);
    AntiAffinityHitIff(s, allNodes, incoming, node);
  }

  /** The selector of a hard term cannot be converted. */
  ghost predicate HasMalformed(rules: Option<AffinityRules>) {
    exists t :: Demands(rules, t) && t.selector.Malformed?
  }

  lemma MalformedIff(pod: Pod)
    ensures HasMalformed(pod.affinity.podAffinity) <==> !Convertible(AffinityTermsOf(pod))
    ensures HasMalformed(pod.affinity.podAntiAffinity) <==> !Convertible(AntiAffinityTermsOf(pod))
  {
    var a, b := AffinityTermsOf(pod), AntiAffinityTermsOf(pod);
    assert forall i :: 0 <= i < |a| ==> Demands(pod.affinity.podAffinity, a[i]);
    assert forall i :: 0 <= i < |b| ==> Demands(pod.affinity.podAntiAffinity, b[i]);
    assert forall t :: Demands(pod.affinity.podAffinity, t) ==> t in a;
    assert forall t :: Demands(pod.affinity.podAntiAffinity, t) ==> t in b;
  }

  lemma ExistingErrorIff(allNodes: seq<NodeView>, affinityNodes: seq<NodeView>)
    requires ListsAgree(allNodes, affinityNodes)
    ensures !NodesConvertible(affinityNodes) <==>
            exists pod, home :: Placed(allNodes, pod, home) && HasMalformed(pod.affinity.podAntiAffinity)
  {
    if !NodesConvertible(affinityNodes) {
      var i :| 0 <= i < |affinityNodes| && affinityNodes[i].node.Some? &&
        !PodsConvertible(affinityNodes[i].podsWithAffinity);
      var v := affinityNodes[i];
      var j :| 0 <= j < |v.podsWithAffinity| && !Convertible(AntiAffinityTermsOf(v.podsWithAffinity[j]));
      var pod, home := v.podsWithAffinity[j], v.node.value;
      MalformedIff(pod);
      assert PlacedFor(Existing, affinityNodes, pod, home);
      PlacedWithAffinity(allNodes, affinityNodes, pod, home);
    }
    if pod, home :| Placed(allNodes, pod, home) && HasMalformed(pod.affinity.podAntiAffinity) {
      MalformedIff(pod);
      PlacedWithAffinity(allNodes, affinityNodes, pod, home);
      var i :| 0 <= i < |affinityNodes| && affinityNodes[i].node == Some(home) &&
        pod in affinityNodes[i].podsWithAffinity;
      var j :| 0 <= j < |affinityNodes[i].podsWithAffinity| && affinityNodes[i].podsWithAffinity[j] == pod;
      assert !PodsConvertible(affinityNodes[i].podsWithAffinity);
    }
  }

  /** PreFilter reports an error if and only if a selector cannot be converted: one of the
      incoming pod, or one in the anti-affinity of an existing pod. */
  lemma PreFilterErrorIff(allNodes: seq<NodeView>, affinityNodes: seq<NodeView>, incoming: Pod)
    requires ListsAgree(allNodes, affinityNodes)
    ensures PreFilterOf(incoming, allNodes, affinityNodes).None? <==>
            || HasMalformed(incoming.affinity.podAffinity) || HasMalformed(incoming.affinity.podAntiAffinity)
            || exists pod, home :: Placed(allNodes, pod, home) && HasMalformed(pod.affinity.podAntiAffinity)
  {
    MalformedIff(incoming);
    ExistingErrorIff(allNodes, affinityNodes);
  }
}
