/** The inter-pod affinity filter: counters by topology pair stand in for a scan over all
    pods and terms (framework/plugins/interpodaffinity/filtering.go). */
module AffinityFilter {
  import opened Api
  import opened NodeInfos
  import opened Counters
  import opened AffinityTerms

  /** The three counters: existing pods' anti-affinity terms that match the incoming pod,
      and existing pods that match its affinity and its anti-affinity terms. */
  datatype Kind = Existing | OwnAffinity | OwnAnti

  datatype PreFilterState = PreFilterState(existing: Counts<Pair>, affinity: Counts<Pair>, antiAffinity: Counts<Pair>)

  function OwnAffinityTerms(pod: Pod): seq<Term> { AllProcessed(pod, AffinityTermsOf(pod)) }

  function OwnAntiTerms(pod: Pod): seq<Term> { AllProcessed(pod, AntiAffinityTermsOf(pod)) }

  /** What one existing pod contributes to a counter. */
  function PairsOfPod(kind: Kind, incoming: Pod, pod: Pod, node: Node): seq<Pair> {
    match kind
    case Existing => AntiPairs(incoming, node, OwnAntiTerms(pod), |OwnAntiTerms(pod)|)
    case OwnAffinity =>
      var ts := OwnAffinityTerms(incoming);
      if MatchesAll(pod, ts) then AffinityPairs(node, ts, |ts|) else []
    case OwnAnti => AntiPairs(pod, node, OwnAntiTerms(incoming), |OwnAntiTerms(incoming)|)
  }

  function PairsOfPods(kind: Kind, incoming: Pod, node: Node, pods: seq<Pod>, n: nat): seq<Pair>
    requires n <= |pods|
  {
    if n == 0 then []
    else PairsOfPods(kind, incoming, node, pods, n - 1) + PairsOfPod(kind, incoming, pods[n - 1], node)
  }

  function PodsFor(kind: Kind, v: NodeView): seq<Pod> { if kind.Existing? then v.podsWithAffinity else v.pods }

  /** An entry without a node is passed over. */
  function PairsOfNode(kind: Kind, incoming: Pod, v: NodeView): seq<Pair> {
    if v.node.None? then []
    else PairsOfPods(kind, incoming, v.node.value, PodsFor(kind, v), |PodsFor(kind, v)|)
  }

  function NodeParts(kind: Kind, incoming: Pod, nodes: seq<NodeView>): (parts: seq<seq<Pair>>)
    ensures |parts| == |nodes|
  {
    seq(|nodes|, i requires 0 <= i < |nodes| => PairsOfNode(kind, incoming, nodes[i]))
  }

  function PairsOfNodes(kind: Kind, incoming: Pod, nodes: seq<NodeView>, n: nat): seq<Pair>
    requires n <= |nodes|
  {
    Flat(NodeParts(kind, incoming, nodes), n)
  }

  function Tallied(keys: seq<Pair>): Counts<Pair> { BumpAll(map[], keys, |keys|, 1) }

  function Tally(kind: Kind, incoming: Pod, nodes: seq<NodeView>): Counts<Pair> {
    Tallied(PairsOfNodes(kind, incoming, nodes, |nodes|))
  }

  predicate PodsConvertible(pods: seq<Pod>) {
    forall i :: 0 <= i < |pods| ==> Convertible(AntiAffinityTermsOf(pods[i]))
  }

  predicate NodesConvertible(nodes: seq<NodeView>) {
    forall i :: 0 <= i < |nodes| && nodes[i].node.Some? ==> PodsConvertible(nodes[i].podsWithAffinity)
  }

  predicate OwnConvertible(pod: Pod) { Convertible(AffinityTermsOf(pod)) && Convertible(AntiAffinityTermsOf(pod)) }

  /** The state PreFilter computes; absent when it reports an error. */
  function PreFilterOf(incoming: Pod, allNodes: seq<NodeView>, affinityNodes: seq<NodeView>): Option<PreFilterState> {
    if !NodesConvertible(affinityNodes) || !OwnConvertible(incoming) then None
    else
      Some(PreFilterState(Tally(Existing, incoming, affinityNodes), Tally(OwnAffinity, incoming, allNodes),
                          Tally(OwnAnti, incoming, allNodes)))
  }

  // ---- the loops ----

  /** updateWithAffinityTerms. */
  method UpdateWithAffinityTerms(m: Counts<Pair>, target: Pod, node: Node, ts: seq<Term>, value: int)
    returns (r: Counts<Pair>)
    ensures var keys := if MatchesAll(target, ts) then AffinityPairs(node, ts, |ts|) else [];
            r == BumpAll(m, keys, |keys|, value)
  {
    r := m;
    if MatchesAll(target, ts) {
      for i := 0 to |ts|
        invariant r == BumpAll(m, AffinityPairs(node, ts, i), |AffinityPairs(node, ts, i)|, value)
      {
        ghost var before := AffinityPairs(node, ts, i);
        BumpAllConcat(m, before, PairOf(node, ts[i]), |PairOf(node, ts[i])|, value);
        if ts[i].topologyKey in node.labels {
          r := Bump(r, (ts[i].topologyKey, node.labels[ts[i].topologyKey]), value);
        }
      }
    }
  }

  /** updateWithAntiAffinityTerms. */
  method UpdateWithAntiAffinityTerms(m: Counts<Pair>, target: Pod, node: Node, ts: seq<Term>, value: int)
      returns (r: Counts<Pair>)
    ensures var keys := AntiPairs(target, node, ts, |ts|);
            r == BumpAll(m, keys, |keys|, value)
  {
    r := m;
    for i := 0 to |ts|
      invariant r == BumpAll(m, AntiPairs(target, node, ts, i), |AntiPairs(target, node, ts, i)|, value)
    {
      ghost var before := AntiPairs(target, node, ts, i);
      assert before + [] == before;
      if Matches(target, ts[i]) {
        BumpAllConcat(m, before, PairOf(node, ts[i]), |PairOf(node, ts[i])|, value);
        if ts[i].topologyKey in node.labels {
          r := Bump(r, (ts[i].topologyKey, node.labels[ts[i].topologyKey]), value);
        }
      }
    }
  }

  /** getMatchingAntiAffinityTopologyPairsOfPod; absent on a selector that cannot be
      converted. */
  method PairsOfExistingPod(incoming: Pod, pod: Pod, node: Node) returns (r: Option<Counts<Pair>>)
    ensures r ==
      if Convertible(AntiAffinityTermsOf(pod)) then Some(Tallied(PairsOfPod(Existing, incoming, pod, node))) else None
  {
    var terms := GetAffinityTerms(pod, AntiAffinityTermsOf(pod));
    if terms.None? {
      return None;
    }
    var m := UpdateWithAntiAffinityTerms(map[], incoming, node, terms.value, 1);
    r := Some(m);
  }

  lemma TallyMerged(m: Counts<Pair>, before: seq<Pair>, keys: seq<Pair>)
    requires m == Tallied(before)
    ensures Merged(m, Tallied(keys)) == Tallied(before + keys)
  {
    BumpAllPositive(map[], before, |before|, 1);
    MergeTally(m, keys);
    BumpAllConcat(map[], before, keys, |keys|, 1);
  }

  lemma MergedBehind(m: Counts<Pair>, before: seq<Pair>, done: seq<Pair>, keys: seq<Pair>)
    requires m == Tallied(before + done)
    ensures Merged(m, Tallied(keys)) == Tallied(before + (done + keys))
  {
    TallyMerged(m, before + done, keys);
    assert before + done + keys == before + (done + keys);
  }

  /** The pods with affinity of one node, in processNode of
      getTPMapMatchingExistingAntiAffinity. */
  method AddExistingOfNode(m: Counts<Pair>, incoming: Pod, v: NodeView, ghost before: seq<Pair>)
      returns (r: Option<Counts<Pair>>)
    requires m == Tallied(before)
    ensures r.Some? <==> v.node.Some? ==> PodsConvertible(v.podsWithAffinity)
    ensures r.Some? ==> r.value == Tallied(before + PairsOfNode(Existing, incoming, v))
  {
    if v.node.None? {
      assert before + [] == before;
      return Some(m);
    }
    r := AddExistingPods(m, incoming, v.podsWithAffinity, v.node.value, before);
  }

  method AddExistingPods(m: Counts<Pair>, incoming: Pod, pods: seq<Pod>, node: Node, ghost before: seq<Pair>)
      returns (r: Option<Counts<Pair>>)
    requires m == Tallied(before)
    ensures r.Some? <==> PodsConvertible(pods)
    ensures r.Some? ==> r.value == Tallied(before + PairsOfPods(Existing, incoming, node, pods, |pods|))
  {
    var topologyMap := m;
    ghost var done: seq<Pair> := [];
    assert before + done == before;
    for i := 0 to |pods|
      invariant forall j :: 0 <= j < i ==> Convertible(AntiAffinityTermsOf(pods[j]))
      invariant done == PairsOfPods(Existing, incoming, node, pods, i)
      invariant topologyMap == Tallied(before + done)
    {
      var one := AddExistingPod(topologyMap, incoming, pods[i], node, before, done);
      if one.None? {
        return None;
      }
      topologyMap := one.value;
      done := done + PairsOfPod(Existing, incoming, pods[i], node);
    }
    r := Some(topologyMap);
  }

  method AddExistingPod(m: Counts<Pair>, incoming: Pod, pod: Pod, node: Node, ghost before: seq<Pair>,
          ghost done: seq<Pair>)
      returns (r: Option<Counts<Pair>>)
    requires m == Tallied(before + done)
    ensures r.Some? <==> Convertible(AntiAffinityTermsOf(pod))
    ensures r.Some? ==> r.value == Tallied(before + (done + PairsOfPod(Existing, incoming, pod, node)))
  {
    var one := PairsOfExistingPod(incoming, pod, node);
    if one.None? {
      return None;
    }
    MergedBehind(m, before, done, PairsOfPod(Existing, incoming, pod, node));
    var topologyMap := Append(m, one.value);
    r := Some(topologyMap);
  }

  /** getTPMapMatchingExistingAntiAffinity. */
  method GetTPMapMatchingExistingAntiAffinity(incoming: Pod, nodes: seq<NodeView>) returns (r: Option<Counts<Pair>>)
    ensures r == if NodesConvertible(nodes) then Some(Tally(Existing, incoming, nodes)) else None
  {
    var topologyMap: Counts<Pair> := map[];
    for i := 0 to |nodes|
      invariant forall j :: 0 <= j < i && nodes[j].node.Some? ==> PodsConvertible(nodes[j].podsWithAffinity)
      invariant topologyMap == Tallied(PairsOfNodes(Existing, incoming, nodes, i))
    {
      var added := AddExistingOfNode(topologyMap, incoming, nodes[i], PairsOfNodes(Existing, incoming, nodes, i));
      if added.None? {
        return None;
      }
      topologyMap := added.value;
    }
    r := Some(topologyMap);
  }

  lemma TalliedStep(kind: Kind, incoming: Pod, node: Node, pods: seq<Pod>, i: nat)
    requires i < |pods|
    ensures var keys := PairsOfPod(kind, incoming, pods[i], node);
            Tallied(PairsOfPods(kind, incoming, node, pods, i + 1)) ==
            BumpAll(Tallied(PairsOfPods(kind, incoming, node, pods, i)), keys, |keys|, 1)
  {
    var before, keys := PairsOfPods(kind, incoming, node, pods, i), PairsOfPod(kind, incoming, pods[i], node);
    BumpAllConcat(map[], before, keys, |keys|, 1);
  }

  /** A pod without affinity has nothing to look for. */
  lemma {:induction false} NoTermsNoPairs(kind: Kind, incoming: Pod, node: Node, pods: seq<Pod>, n: nat)
    requires !kind.Existing? && !incoming.HasAffinity() && n <= |pods|
    ensures PairsOfPods(kind, incoming, node, pods, n) == []
  {
    if n > 0 {
      NoTermsNoPairs(kind, incoming, node, pods, n - 1);
    }
  }

  lemma {:induction false} NoTermsNoTally(kind: Kind, incoming: Pod, nodes: seq<NodeView>, n: nat)
    requires !kind.Existing? && !incoming.HasAffinity() && n <= |nodes|
    ensures PairsOfNodes(kind, incoming, nodes, n) == []
  {
    if n > 0 {
      NoTermsNoTally(kind, incoming, nodes, n - 1);
      if nodes[n - 1].node.Some? {
        NoTermsNoPairs(kind, incoming, nodes[n - 1].node.value, nodes[n - 1].pods, |nodes[n - 1].pods|);
      }
    }
  }

  /** processNode of getTPMapMatchingIncomingAffinityAntiAffinity. */
  method IncomingOfNode(incoming: Pod, v: NodeView, terms: seq<Term>, antiTerms: seq<Term>)
      returns (affinity: Counts<Pair>, anti: Counts<Pair>)
    requires terms == OwnAffinityTerms(incoming) && antiTerms == OwnAntiTerms(incoming)
    ensures affinity == Tallied(PairsOfNode(OwnAffinity, incoming, v))
    ensures anti == Tallied(PairsOfNode(OwnAnti, incoming, v))
  {
    affinity, anti := map[], map[];
    if v.node.None? {
      return;
    }
    var node, pods := v.node.value, v.pods;
    for i := 0 to |pods|
      invariant affinity == Tallied(PairsOfPods(OwnAffinity, incoming, node, pods, i))
      invariant anti == Tallied(PairsOfPods(OwnAnti, incoming, node, pods, i))
    {
      TalliedStep(OwnAffinity, incoming, node, pods, i);
      TalliedStep(OwnAnti, incoming, node, pods, i);
      affinity := UpdateWithAffinityTerms(affinity, pods[i], node, terms, 1);
      anti := UpdateWithAntiAffinityTerms(anti, pods[i], node, antiTerms, 1);
    }
  }

  /** getTPMapMatchingIncomingAffinityAntiAffinity. */
  method GetTPMapMatchingIncoming(incoming: Pod, nodes: seq<NodeView>) returns (r: Option<(Counts<Pair>, Counts<Pair>)>)
    ensures r == if OwnConvertible(incoming)
                 then Some((Tally(OwnAffinity, incoming, nodes), Tally(OwnAnti, incoming, nodes))) else None
  {
    if !incoming.HasAffinity() {
      NoTermsNoTally(OwnAffinity, incoming, nodes, |nodes|);
      NoTermsNoTally(OwnAnti, incoming, nodes, |nodes|);
      return Some((map[], map[]));
    }
    var terms := GetAffinityTerms(incoming, AffinityTermsOf(incoming));
    var antiTerms := GetAffinityTerms(incoming, AntiAffinityTermsOf(incoming));
    if terms.None? || antiTerms.None? {
      return None;
    }
    var affinity: Counts<Pair>, anti: Counts<Pair> := map[], map[];
    for i := 0 to |nodes|
      invariant affinity == Tallied(PairsOfNodes(OwnAffinity, incoming, nodes, i))
      invariant anti == Tallied(PairsOfNodes(OwnAnti, incoming, nodes, i))
    {
      var a, b := IncomingOfNode(incoming, nodes[i], terms.value, antiTerms.value);
      TallyMerged(affinity, PairsOfNodes(OwnAffinity, incoming, nodes, i),
        PairsOfNode(OwnAffinity, incoming, nodes[i]));
      TallyMerged(anti, PairsOfNodes(OwnAnti, incoming, nodes, i), PairsOfNode(OwnAnti, incoming, nodes[i]));
      affinity := Append(affinity, a);
      anti := Append(anti, b);
    }
    r := Some((affinity, anti));
  }

  method PreFilter(incoming: Pod, allNodes: seq<NodeView>, affinityNodes: seq<NodeView>)
    returns (r: Option<PreFilterState>)
    ensures r == PreFilterOf(incoming, allNodes, affinityNodes)
  {
    var existing := GetTPMapMatchingExistingAntiAffinity(incoming, affinityNodes);
    if existing.None? {
      return None;
    }
    var own := GetTPMapMatchingIncoming(incoming, allNodes);
    if own.None? {
      return None;
    }
    r := Some(PreFilterState(existing.value, own.value.0, own.value.1));
  }

  // ---- the verdict on a node ----

  datatype Verdict = Passes | BlockedByExisting | AffinityUnmatched | AntiAffinityMatched

  predicate Hit(m: Counts<Pair>, node: Node, key: string) {
    key in node.labels && Count(m, (key, node.labels[key])) > 0
  }

  /** nodeMatchesAllTopologyTerms. */
  method NodeMatchesAll(m: Counts<Pair>, node: Node, ts: seq<AffinityTerm>) returns (r: bool)
    ensures r <==> forall i :: 0 <= i < |ts| ==> Hit(m, node, ts[i].topologyKey)
  {
    for i := 0 to |ts|
      invariant forall j :: 0 <= j < i ==> Hit(m, node, ts[j].topologyKey)
    {
      if !Hit(m, node, ts[i].topologyKey) {
        return false;
      }
    }
    r := true;
  }

  method NodeMatchesAny(m: Counts<Pair>, node: Node, ts: seq<AffinityTerm>) returns (r: bool)
    ensures r <==> exists i :: 0 <= i < |ts| && Hit(m, node, ts[i].topologyKey)
  {
    for i := 0 to |ts|
      invariant forall j :: 0 <= j < i ==> !Hit(m, node, ts[j].topologyKey)
    {
      if Hit(m, node, ts[i].topologyKey) {
        return true;
      }
    }
    r := false;
  }

  /** satisfiesExistingPodsAntiAffinity. */
  method SatisfiesExisting(m: Counts<Pair>, node: Node) returns (r: bool)
    ensures r <==> forall key :: key in node.labels ==> !Hit(m, node, key)
  {
    var rest := node.labels.Keys;
    while rest != {}
      invariant rest <= node.labels.Keys
      invariant forall key :: key in node.labels && key !in rest ==> !Hit(m, node, key)
    {
      var key :| key in rest;
      rest := rest - {key};
      if Hit(m, node, key) {
        return false;
      }
    }
    r := true;
  }

  /** targetPodMatchesAffinityOfPod for the pod itself. */
  predicate MatchesItself(pod: Pod) { Convertible(AffinityTermsOf(pod)) && MatchesAll(pod, OwnAffinityTerms(pod)) }

  ghost predicate AffinityHolds(s: PreFilterState, pod: Pod, node: Node) {
    var ts := AffinityTermsOf(pod);
    (forall i :: 0 <= i < |ts| ==> Hit(s.affinity, node, ts[i].topologyKey)) ||
      (s.affinity == map[] && MatchesItself(pod))
  }

  ghost predicate AntiAffinityHit(s: PreFilterState, pod: Pod, node: Node) {
    var ts := AntiAffinityTermsOf(pod);
    exists i :: 0 <= i < |ts| && Hit(s.antiAffinity, node, ts[i].topologyKey)
  }

  ghost function VerdictOf(s: PreFilterState, pod: Pod, node: Node): Verdict {
    if exists key :: key in node.labels && Hit(s.existing, node, key) then BlockedByExisting
    else if !AffinityHolds(s, pod, node) then AffinityUnmatched
    else if AntiAffinityHit(s, pod, node) then AntiAffinityMatched
    else Passes
  }

  method Filter(s: PreFilterState, pod: Pod, node: Node) returns (v: Verdict)
    ensures v == VerdictOf(s, pod, node)
  {
    var clear := SatisfiesExisting(s.existing, node);
    if !clear {
      return BlockedByExisting;
    }
    if !pod.HasAffinity() {
      return Passes;
    }
    var ts := AffinityTermsOf(pod);
    if |ts| > 0 {
      var matchExists := NodeMatchesAll(s.affinity, node, ts);
      if !matchExists {
        if |s.affinity| != 0 || !MatchesItself(pod) {
          return AffinityUnmatched;
        }
      }
    }
    var antiTs := AntiAffinityTermsOf(pod);
    if |antiTs| > 0 {
      var matchExists := NodeMatchesAny(s.antiAffinity, node, antiTs);
      if matchExists {
        return AntiAffinityMatched;
      }
    }
    v := Passes;
  }

  // ---- the definition over all pods ----

  /** The pods of the cluster with the nodes they are on. */
  ghost predicate Placed(nodes: seq<NodeView>, pod: Pod, node: Node) {
    exists i :: 0 <= i < |nodes| && nodes[i].node == Some(node) && pod in nodes[i].pods
  }

  /** An existing pod has an anti-affinity term against the incoming one, and its node
      shares the topology value of the term with the node. */
  ghost predicate Repelled(nodes: seq<NodeView>, incoming: Pod, node: Node) {
    exists pod, home, t :: Placed(nodes, pod, home) && Demands(pod.affinity.podAntiAffinity, t) &&
      Selects(pod, t, incoming) && SameTopology(node, home, t.topologyKey)
  }

  /** Some existing pod that matches all affinity terms is in the topology of the key. */
  ghost predicate Attracted(nodes: seq<NodeView>, incoming: Pod, node: Node, key: string) {
    exists pod, home :: Placed(nodes, pod, home) && SelectedByAll(incoming, pod) && SameTopology(node, home, key)
  }

  /** No existing pod matches all affinity terms in any topology they name. */
  ghost predicate FirstOfSeries(nodes: seq<NodeView>, incoming: Pod) {
    forall pod, home, t ::
      Placed(nodes, pod, home) && Demands(incoming.affinity.podAffinity, t) && t.topologyKey in home.labels ==>
      !SelectedByAll(incoming, pod)
  }

  /** Every term finds a matching pod in its topology, or the pod is the first of a series
      that has affinity to itself. */
  ghost predicate AffinityMet(nodes: seq<NodeView>, incoming: Pod, node: Node) {
    || (forall t :: Demands(incoming.affinity.podAffinity, t) ==> Attracted(nodes, incoming, node, t.topologyKey))
    || (FirstOfSeries(nodes, incoming) && SelectedByAll(incoming, incoming))
  }

  /** An existing pod matches an anti-affinity term of the incoming one in its topology. */
  ghost predicate AntiAffinityViolated(nodes: seq<NodeView>, incoming: Pod, node: Node) {
    exists pod, home, t :: Placed(nodes, pod, home) && Demands(incoming.affinity.podAntiAffinity, t) &&
      Selects(incoming, t, pod) && SameTopology(node, home, t.topologyKey)
  }

  ghost function BruteForce(nodes: seq<NodeView>, incoming: Pod, node: Node): Verdict {
    if Repelled(nodes, incoming, node) then BlockedByExisting
    else if !AffinityMet(nodes, incoming, node) then AffinityUnmatched
    else if AntiAffinityViolated(nodes, incoming, node) then AntiAffinityMatched
    else Passes
  }
}
