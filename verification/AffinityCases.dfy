/** Pods for which the affinity counters do not say what they are meant to say
    (framework/plugins/interpodaffinity/filtering.go). */
module AffinityCases {
  import opened Api
  import opened NodeInfos
  import opened Counters
  import opened AffinityTerms
  import opened AffinityFilter
  import opened AffinityUpdates
  import opened AffinityRefinement

  /** A pod without labels that wants no pod of its own namespace on its zone; the namespace
      goes without saying. */
  function Loner(name: string, namespace: string, nodeName: string, key: string): Pod {
    Pod(name, name, namespace, nodeName, map[], [], [], map[],
        Affinity(None, Some(AffinityRules([AffinityTerm([], Requirements([]), key)], []))))
  }

  function Newcomer(name: string, namespace: string): Pod {
    Pod(name, name, namespace, "", map[], [], [], map[], Affinity(None, None))
  }

  lemma LonerPairs(pod: Pod, incoming: Pod, node: Node, key: string)
    requires pod == Loner(pod.name, pod.namespace, pod.nodeName, key)
    requires incoming == Newcomer(incoming.name, incoming.namespace)
    requires pod.namespace != incoming.namespace && key in node.labels
    ensures ForeignPairs(incoming, pod, node) == [(key, node.labels[key])]
    ensures PairsOfPod(Existing, incoming, pod, node) == []
    ensures OwnPairs(OwnAffinity, incoming, pod, node) == [] && OwnPairs(OwnAnti, incoming, pod, node) == []
    ensures PairsOfPod(OwnAffinity, incoming, pod, node) == [] && PairsOfPod(OwnAnti, incoming, pod, node) == []
  {
    var ts := AntiAffinityTermsOf(pod);
    assert |ts| == 1 && ts[0] == AffinityTerm([], Requirements([]), key);
    assert Matches(incoming, Processed(incoming, ts[0])) && !Matches(incoming, Processed(pod, ts[0]));
    assert AntiPairs(incoming, node, AllProcessed(incoming, ts), 0) == [];
    assert AntiPairs(incoming, node, AllProcessed(pod, ts), 0) == [];
  }

  lemma NothingTallied(kind: Kind, incoming: Pod, node: Node, v: NodeView)
    requires v.node == Some(node) && v.pods == [] && v.podsWithAffinity == []
    ensures PairsOfNodes(kind, incoming, [v], 1) == []
  {
    var nodes, n := [v], 0;
    assert PairsOfNode(kind, incoming, v) == [];
    assert PairsOfNodes(kind, incoming, nodes, n) == [];
    assert PairsOfNodes(kind, incoming, nodes, n + 1) == [] + NodeParts(kind, incoming, nodes)[n];
  }

  lemma NothingBefore(incoming: Pod, node: Node, v: NodeView)
    requires v.node == Some(node) && v.pods == [] && v.podsWithAffinity == []
    ensures StateOver(incoming, [v]) == PreFilterState(map[], map[], map[])
  {
    NothingTallied(Existing, incoming, node, v);
    NothingTallied(OwnAffinity, incoming, node, v);
    NothingTallied(OwnAnti, incoming, node, v);
  }

  lemma BumpedOnce(p: Pair)
    ensures Bumped(map[], [p], 1) == map[p := 1] && Bumped(map[], [], 1) == map[]
  {
    var none: Counts<Pair> := map[];
    assert BumpAll(none, [p], 0, 1) == none;
  }

  lemma Counted(s: PreFilterState, pod: Pod, incoming: Pod, node: Node, key: string)
    requires pod == Loner(pod.name, pod.namespace, pod.nodeName, key)
    requires incoming == Newcomer(incoming.name, incoming.namespace)
    requires pod.namespace != incoming.namespace && key in node.labels && s == PreFilterState(map[], map[], map[])
    ensures VerdictOf(UpdatedWith(s, pod, incoming, node, 1), incoming, node) == BlockedByExisting
  {
    LonerPairs(pod, incoming, node, key);
    BumpedOnce((key, node.labels[key]));
    assert Hit(UpdatedWith(s, pod, incoming, node, 1).existing, node, key);
  }

  lemma NothingAfter(pod: Pod, incoming: Pod, node: Node, v: NodeView, key: string, g: int)
    requires pod == Loner(pod.name, pod.namespace, pod.nodeName, key)
    requires incoming == Newcomer(incoming.name, incoming.namespace)
    requires pod.namespace != incoming.namespace && key in node.labels
    requires v.node == Some(node) && v.pods == [] && v.podsWithAffinity == []
    ensures StateOver(incoming, [AddPodTo(v, pod, g)]) == PreFilterState(map[], map[], map[])
  {
    NothingBefore(incoming, node, v);
    LonerPairs(pod, incoming, node, key);
    assert [v][0 := AddPodTo(v, pod, g)] == [AddPodTo(v, pod, g)];
    TallyAdded(Existing, incoming, [v], 0, pod, g);
    TallyAdded(OwnAffinity, incoming, [v], 0, pod, g);
    TallyAdded(OwnAnti, incoming, [v], 0, pod, g);
    BumpedOnce((key, key));
  }

  lemma FreeNode(incoming: Pod, node: Node, s: PreFilterState)
    requires incoming == Newcomer(incoming.name, incoming.namespace) && s == PreFilterState(map[], map[], map[])
    ensures VerdictOf(s, incoming, node) == Passes
  {
  }

  /** The pod repels nobody of the other namespace, and computed from scratch the node is
      free; the updated counters block it. */
  lemma UpdateBlocksNode(pod: Pod, incoming: Pod, node: Node, v: NodeView, key: string, g: int)
    requires pod == Loner(pod.name, pod.namespace, node.name, key)
    requires incoming == Newcomer(incoming.name, incoming.namespace)
    requires pod.namespace != incoming.namespace && key in node.labels && node.name != ""
    requires v.node == Some(node) && v.pods == [] && v.podsWithAffinity == []
    ensures VerdictOf(UpdatedWith(StateOver(incoming, [v]), pod, incoming, node, 1), incoming, node)
      == BlockedByExisting
    ensures VerdictOf(StateOver(incoming, [AddPodTo(v, pod, g)]), incoming, node) == Passes
  {
    NothingBefore(incoming, node, v);
    Counted(StateOver(incoming, [v]), pod, incoming, node, key);
    NothingAfter(pod, incoming, node, v, key, g);
    FreeNode(incoming, node, StateOver(incoming, [AddPodTo(v, pod, g)]));
  }

  // ---- a match that is not counted ----

  /** A pod that wants a pod of its own namespace on its zone. */
  function Friend(name: string, namespace: string, key: string): Pod {
    Pod(name, name, namespace, "", map[], [], [], map[],
        Affinity(Some(AffinityRules([AffinityTerm([], Requirements([]), key)], [])), None))
  }

  /** A pod of the namespace is there, but on a node without the key: it is passed over, and
      the node takes the incoming pod as the first of its series. */
  lemma MatchPassedOver(pod: Pod, incoming: Pod, node: Node, v: NodeView, key: string)
    requires pod == Newcomer(pod.name, pod.namespace) && incoming == Friend(incoming.name, pod.namespace, key)
    requires v.node == Some(node) && v.pods == [pod] && key !in node.labels
    ensures !NoneMatches([v], incoming) && FirstOfSeries([v], incoming)
    ensures BruteForce([v], incoming, node) == Passes
  {
    var nodes := [v];
    assert nodes[0] == v;
    assert Placed(nodes, pod, node) && SelectedByAll(incoming, pod) && SelectedByAll(incoming, incoming);
    forall q, home | Placed(nodes, q, home)
      ensures q == pod && home == node
    {
    }
  }
}
