/** The inter-pod affinity score through a map by topology
    (framework/plugins/interpodaffinity/scoring.go). */
module AffinityScoring {
  import opened Api
  import opened NodeInfos
  import opened Sequences
  import opened AffinityTerms
  import opened Scores

  datatype Weighted = Weighted(term: Term, weight: int)

  predicate SoftConvertible(ts: seq<WeightedTerm>) { forall i :: 0 <= i < |ts| ==> !ts[i].term.selector.Malformed? }

  /** getWeightedAffinityTerms, when the selectors can be converted. */
  function Soft(owner: Pod, ts: seq<WeightedTerm>): (r: seq<Weighted>)
    ensures |r| == |ts|
  {
    seq(|ts|, i requires 0 <= i < |ts| => Weighted(Processed(owner, ts[i].term), ts[i].weight))
  }

  function Hard(owner: Pod, ts: seq<AffinityTerm>, weight: int): (r: seq<Weighted>)
    ensures |r| == |ts|
  {
    seq(|ts|, i requires 0 <= i < |ts| => Weighted(Processed(owner, ts[i]), weight))
  }

  function Rules(o: Option<AffinityRules>): AffinityRules { if o.Some? then o.value else AffinityRules([], []) }

  /** What one term contributes for a target, under the pair of the fixed node. */
  function TermEntries(w: Weighted, target: Pod, home: Node, sign: int): seq<Entry> {
    if Matches(target, w.term) && w.term.topologyKey in home.labels
    then [Entry((w.term.topologyKey, home.labels[w.term.topologyKey]), w.weight * sign)] else []
  }

  function TermsEntries(ws: seq<Weighted>, target: Pod, home: Node, sign: int, n: nat): seq<Entry>
    requires n <= |ws|
  {
    if n == 0 then [] else TermsEntries(ws, target, home, sign, n - 1) + TermEntries(ws[n - 1], target, home, sign)
  }

  function AllEntries(ws: seq<Weighted>, target: Pod, home: Node, sign: int): seq<Entry> {
    TermsEntries(ws, target, home, sign, |ws|)
  }

  /** processExistingPod reports no error. */
  predicate PodReadable(pod: Pod, hardWeight: int) {
    (hardWeight > 0 ==> Convertible(Rules(pod.affinity.podAffinity).required)) && SoftReadable(pod)
  }

  /** The terms of an existing pod, against the incoming one: hard affinity with the
      configured weight, soft affinity, and soft anti-affinity with a negative sign. A soft
      affinity selector that cannot be converted ends the pod's terms without an error. */
  function ForeignEntries(incoming: Pod, pod: Pod, home: Node, hardWeight: int): seq<Entry> {
    var a := Rules(pod.affinity.podAffinity);
    (if hardWeight > 0 then AllEntries(Hard(pod, a.required, hardWeight), incoming, home, 1) else []) +
    SoftEntries(incoming, pod, home)
  }

  /** The soft terms of the incoming pod, against an existing one. */
  function OwnEntries(incoming: Pod, pod: Pod, home: Node): seq<Entry> {
    var a, b := Rules(incoming.affinity.podAffinity), Rules(incoming.affinity.podAntiAffinity);
    AllEntries(Soft(incoming, a.preferred), pod, home, 1) + AllEntries(Soft(incoming, b.preferred), pod, home, -1)
  }

  function PodEntries(incoming: Pod, pod: Pod, home: Node, hardWeight: int): seq<Entry> {
    OwnEntries(incoming, pod, home) + ForeignEntries(incoming, pod, home, hardWeight)
  }

  function EntriesOn(incoming: Pod, home: Node, hardWeight: int): Pod -> seq<Entry> {
    (pod: Pod) => PodEntries(incoming, pod, home, hardWeight)
  }

  function PodsEntries(incoming: Pod, home: Node, pods: seq<Pod>, hardWeight: int, n: nat): seq<Entry>
    requires n <= |pods|
  {
    Gather(EntriesOn(incoming, home, hardWeight), pods, n)
  }

  /** Unless the incoming pod has affinity, only pods with affinity are processed. */
  function PodsToProcess(incoming: Pod, v: NodeView): seq<Pod> {
    if incoming.HasAffinity() then v.pods else v.podsWithAffinity
  }

  function NodeEntries(incoming: Pod, v: NodeView, hardWeight: int): seq<Entry> {
    if v.node.None? then []
    else
      var pods := PodsToProcess(incoming, v);
      PodsEntries(incoming, v.node.value, pods, hardWeight, |pods|)
  }

  function EntriesOf(incoming: Pod, hardWeight: int): NodeView -> seq<Entry> {
    (v: NodeView) => NodeEntries(incoming, v, hardWeight)
  }

  function NodesEntries(incoming: Pod, nodes: seq<NodeView>, hardWeight: int, n: nat): seq<Entry>
    requires n <= |nodes|
  {
    Gather(EntriesOf(incoming, hardWeight), nodes, n)
  }

  // ---- the loops ----

  /** processTerms. */
  method ProcessTerms(m: ScoreMap, ws: seq<Weighted>, target: Pod, home: Node, sign: int, ghost es: seq<Entry>)
    returns (r: ScoreMap)
    requires Records(m, es)
    ensures Records(r, es + AllEntries(ws, target, home, sign))
  {
    r := m;
    assert es + [] == es;
    for i := 0 to |ws|
      invariant Records(r, es + TermsEntries(ws, target, home, sign, i))
    {
      ghost var before := TermsEntries(ws, target, home, sign, i);
      ghost var done := es + before;
      assert before + [] == before;
      if Matches(target, ws[i].term) && ws[i].term.topologyKey in home.labels {
        var e := Entry((ws[i].term.topologyKey, home.labels[ws[i].term.topologyKey]), ws[i].weight * sign);
        PutHolds(r, done, e);
        r := Put(r, e);
        assert TermEntries(ws[i], target, home, sign) == [e];
        assert done + [e] == es + TermsEntries(ws, target, home, sign, i + 1);
      }
    }
  }

  lemma Behind(a: seq<Entry>, b: seq<Entry>, c: seq<Entry>)
    ensures a + (b + c) == a + b + c && a + [] == a
  {
  }

  /** processExistingPod; absent on an error. */
  method ProcessExistingPod(m: ScoreMap, incoming: Pod, pod: Pod, home: Node, hardWeight: int, ghost es: seq<Entry>)
      returns (r: Option<ScoreMap>)
    requires Records(m, es)
    ensures r.Some? <==> PodReadable(pod, hardWeight)
    ensures r.Some? ==> Records(r.value, es + PodEntries(incoming, pod, home, hardWeight))
  {
    var own, a := Rules(incoming.affinity.podAffinity), Rules(pod.affinity.podAffinity);
    var s := ProcessTerms(m, Soft(incoming, own.preferred), pod, home, 1, es);
    ghost var es1 := es + AllEntries(Soft(incoming, own.preferred), pod, home, 1);
    var anti := Rules(incoming.affinity.podAntiAffinity);
    s := ProcessTerms(s, Soft(incoming, anti.preferred), pod, home, -1, es1);
    ghost var es2 := es1 + AllEntries(Soft(incoming, anti.preferred), pod, home, -1);
    assert es2 == es + OwnEntries(incoming, pod, home);
    r := ProcessForeign(s, incoming, pod, home, hardWeight, es2);
    Behind(es, OwnEntries(incoming, pod, home), ForeignEntries(incoming, pod, home, hardWeight));
  }

  method ProcessForeign(m: ScoreMap, incoming: Pod, pod: Pod, home: Node, hardWeight: int, ghost es: seq<Entry>)
      returns (r: Option<ScoreMap>)
    requires Records(m, es)
    ensures r.Some? <==> PodReadable(pod, hardWeight)
    ensures r.Some? ==> Records(r.value, es + ForeignEntries(incoming, pod, home, hardWeight))
  {
    var s, a := m, Rules(pod.affinity.podAffinity);
    ghost var hard: seq<Entry> := [];
    assert es + hard == es;
    if hardWeight > 0 {
      if !Convertible(a.required) {
        return None;
      }
      hard := AllEntries(Hard(pod, a.required, hardWeight), incoming, home, 1);
      s := ProcessTerms(s, Hard(pod, a.required, hardWeight), incoming, home, 1, es);
    }
    r := ProcessSoft(s, incoming, pod, home, es + hard);
    assert forall x: seq<Entry> :: es + hard + x == es + (hard + x);
  }

  /** The soft terms of an existing pod. */
  function SoftEntries(incoming: Pod, pod: Pod, home: Node): seq<Entry> {
    var a, b := Rules(pod.affinity.podAffinity), Rules(pod.affinity.podAntiAffinity);
    if SoftConvertible(a.preferred)
    then AllEntries(Soft(pod, a.preferred), incoming, home, 1) + AllEntries(Soft(pod, b.preferred), incoming, home, -1)
    else []
  }

  predicate SoftReadable(pod: Pod) {
    SoftConvertible(Rules(pod.affinity.podAffinity).preferred) ==>
      SoftConvertible(Rules(pod.affinity.podAntiAffinity).preferred)
  }

  method ProcessSoft(m: ScoreMap, incoming: Pod, pod: Pod, home: Node, ghost es: seq<Entry>)
    returns (r: Option<ScoreMap>)
    requires Records(m, es)
    ensures r.Some? <==> SoftReadable(pod)
    ensures r.Some? ==> Records(r.value, es + SoftEntries(incoming, pod, home))
  {
    var a, b := Rules(pod.affinity.podAffinity), Rules(pod.affinity.podAntiAffinity);
    if !SoftConvertible(a.preferred) {
      assert es + [] == es;
      return Some(m);
    }
    var s := ProcessTerms(m, Soft(pod, a.preferred), incoming, home, 1, es);
    if !SoftConvertible(b.preferred) {
      return None;
    }
    ghost var soft := AllEntries(Soft(pod, a.preferred), incoming, home, 1);
    ghost var minus := AllEntries(Soft(pod, b.preferred), incoming, home, -1);
    s := ProcessTerms(s, Soft(pod, b.preferred), incoming, home, -1, es + soft);
    assert es + soft + minus == es + (soft + minus);
    r := Some(s);
  }

  predicate PodsReadable(pods: seq<Pod>, hardWeight: int, n: nat)
    requires n <= |pods|
  {
    n > 0 ==> PodsReadable(pods, hardWeight, n - 1) && PodReadable(pods[n - 1], hardWeight)
  }

  lemma {:induction false} PodUnreadableStays(pods: seq<Pod>, hardWeight: int, i: nat, n: nat)
    requires i < n <= |pods| && !PodReadable(pods[i], hardWeight)
    ensures !PodsReadable(pods, hardWeight, n)
  {
    if i < n - 1 {
      PodUnreadableStays(pods, hardWeight, i, n - 1);
    }
  }

  /** processNode; absent on an error. */
  method ProcessNode(incoming: Pod, v: NodeView, hardWeight: int) returns (r: Option<ScoreMap>)
    ensures var pods := PodsToProcess(incoming, v);
            r.Some? <==> (v.node.Some? ==> PodsReadable(pods, hardWeight, |pods|))
    ensures r.Some? ==> Records(r.value, NodeEntries(incoming, v, hardWeight))
  {
    var m: ScoreMap := map[];
    if v.node.None? {
      return Some(m);
    }
    var pods, home := PodsToProcess(incoming, v), v.node.value;
    ghost var es: seq<Entry> := [];
    for i := 0 to |pods|
      invariant PodsReadable(pods, hardWeight, i)
      invariant es == PodsEntries(incoming, home, pods, hardWeight, i) && Records(m, es)
    {
      var one := ProcessExistingPod(m, incoming, pods[i], home, hardWeight, es);
      es := es + PodEntries(incoming, pods[i], home, hardWeight);
      if one.None? {
        PodUnreadableStays(pods, hardWeight, i, |pods|);
        return None;
      }
      m := one.value;
    }
    r := Some(m);
  }

  datatype PreScored = Failed | Unwritten | Written(topologyScore: ScoreMap)

  predicate NodeReadable(incoming: Pod, v: NodeView, hardWeight: int) {
    v.node.Some? ==> PodsReadable(PodsToProcess(incoming, v), hardWeight, |PodsToProcess(incoming, v)|)
  }

  /** The first n entries are processed without an error. */
  predicate AllReadable(incoming: Pod, nodes: seq<NodeView>, hardWeight: int, n: nat)
    requires n <= |nodes|
  {
    n > 0 ==> AllReadable(incoming, nodes, hardWeight, n - 1) && NodeReadable(incoming, nodes[n - 1], hardWeight)
  }

  lemma {:induction false} UnreadableStays(incoming: Pod, nodes: seq<NodeView>, hardWeight: int, i: nat, n: nat)
    requires i < n <= |nodes| && !NodeReadable(incoming, nodes[i], hardWeight)
    ensures !AllReadable(incoming, nodes, hardWeight, n)
  {
    if i < n - 1 {
      UnreadableStays(incoming, nodes, hardWeight, i, n - 1);
    }
  }

  predicate OwnReadable(incoming: Pod) {
    && SoftConvertible(Rules(incoming.affinity.podAffinity).preferred)
    && SoftConvertible(Rules(incoming.affinity.podAntiAffinity).preferred)
  }

  /** The nodes one after the other, each merged when it is done. */
  method MergeNodes(incoming: Pod, nodes: seq<NodeView>, hardWeight: int) returns (r: Option<ScoreMap>)
    ensures r.Some? <==> AllReadable(incoming, nodes, hardWeight, |nodes|)
    ensures r.Some? ==> Records(r.value, NodesEntries(incoming, nodes, hardWeight, |nodes|))
  {
    var m: ScoreMap := map[];
    for i := 0 to |nodes|
      invariant AllReadable(incoming, nodes, hardWeight, i)
      invariant Records(m, NodesEntries(incoming, nodes, hardWeight, i))
    {
      ghost var done, more := NodesEntries(incoming, nodes, hardWeight, i), NodeEntries(incoming, nodes[i], hardWeight);
      var topoScore := ProcessNode(incoming, nodes[i], hardWeight);
      if topoScore.None? {
        UnreadableStays(incoming, nodes, hardWeight, i, |nodes|);
        return None;
      }
      MergedHolds(m, topoScore.value, done, more);
      m := Merged(m, topoScore.value);
    }
    r := Some(m);
  }

  /** The entries PreScore looks at: all of them for a pod with affinity, and otherwise those
      of the affinity list. */
  function NodesToProcess(incoming: Pod, allNodes: seq<NodeView>, affinityNodes: seq<NodeView>): seq<NodeView> {
    if incoming.HasAffinity() then allNodes else affinityNodes
  }

  /** PreScore for at least one node to score. */
  method PreScore(incoming: Pod, allNodes: seq<NodeView>, affinityNodes: seq<NodeView>, hardWeight: int)
    returns (r: PreScored)
    ensures r.Unwritten? <==> !OwnReadable(incoming)
    ensures var nodes := NodesToProcess(incoming, allNodes, affinityNodes);
            && (r.Failed? ==> !AllReadable(incoming, nodes, hardWeight, |nodes|))
            && (r.Written? ==> AllReadable(incoming, nodes, hardWeight, |nodes|) &&
                               Records(r.topologyScore, NodesEntries(incoming, nodes, hardWeight, |nodes|)))
  {
    if !OwnReadable(incoming) {
      return Unwritten;
    }
    var m := MergeNodes(incoming, NodesToProcess(incoming, allNodes, affinityNodes), hardWeight);
    r := if m.Some? then Written(m.value) else Failed;
  }

  // ---- the definition over all pods ----

  /** The signed weights of the terms that a target matches on a node in the topology of the
      scored node. */
  function TermsScore(ws: seq<Weighted>, target: Pod, home: Node, scored: Node, n: nat): int
    requires n <= |ws|
  {
    if n == 0 then 0
    else
      var w := ws[n - 1];
      TermsScore(ws, target, home, scored, n - 1) +
      if Matches(target, w.term) && SameTopology(scored, home, w.term.topologyKey) then w.weight else 0
  }

  function AllTerms(ws: seq<Weighted>, target: Pod, home: Node, scored: Node): int {
    TermsScore(ws, target, home, scored, |ws|)
  }

  /** The weight of one term as it stands in its owner, if it selects the target and the node
      of the pod is in its topology. */
  function Worth(owner: Pod, t: AffinityTerm, weight: int, target: Pod, home: Node, scored: Node): int {
    if Selects(owner, t, target) && SameTopology(scored, home, t.topologyKey) then weight else 0
  }

  function SoftWorth(owner: Pod, target: Pod, home: Node, scored: Node): WeightedTerm -> int {
    (t: WeightedTerm) => Worth(owner, t.term, t.weight, target, home, scored)
  }

  function HardWorth(owner: Pod, weight: int, target: Pod, home: Node, scored: Node): AffinityTerm -> int {
    (t: AffinityTerm) => Worth(owner, t, weight, target, home, scored)
  }

  /** All soft terms, each with its own weight. */
  function PreferredWorth(owner: Pod, rules: Option<AffinityRules>, target: Pod, home: Node, scored: Node): int {
    match rules
    case None => 0
    case Some(r) => Sum(SoftWorth(owner, target, home, scored), r.preferred, |r.preferred|)
  }

  /** All hard terms, with the configured weight. */
  function RequiredWorth(owner: Pod, rules: Option<AffinityRules>, weight: int, target: Pod, home: Node, scored: Node):
    int
  {
    match rules
    case None => 0
    case Some(r) => Sum(HardWorth(owner, weight, target, home, scored), r.required, |r.required|)
  }

  ghost predicate PreferredReadable(rules: Option<AffinityRules>) {
    rules.Some? ==> forall t :: t in rules.value.preferred ==> !t.term.selector.Malformed?
  }

  /** What an existing pod on `home` is worth to the scored node: its match with the soft terms
      of the incoming pod, and the match of the incoming pod with its hard and soft terms. */
  ghost function PodScore(incoming: Pod, pod: Pod, home: Node, scored: Node, hardWeight: int): int {
    PreferredWorth(incoming, incoming.affinity.podAffinity, pod, home, scored) -
    PreferredWorth(incoming, incoming.affinity.podAntiAffinity, pod, home, scored) +
    (if hardWeight > 0 then RequiredWorth(pod, pod.affinity.podAffinity, hardWeight, incoming, home, scored) else 0) +
    (if PreferredReadable(pod.affinity.podAffinity)
     then PreferredWorth(pod, pod.affinity.podAffinity, incoming, home, scored)
       - PreferredWorth(pod, pod.affinity.podAntiAffinity, incoming, home, scored)
     else 0)
  }

  lemma {:induction false} SoftTermsWorth(owner: Pod, ts: seq<WeightedTerm>, target: Pod, home: Node, scored: Node,
          n: nat)
    requires n <= |ts|
    ensures TermsScore(Soft(owner, ts), target, home, scored, n) == Sum(SoftWorth(owner, target, home, scored), ts, n)
  {
    if n > 0 {
      SoftTermsWorth(owner, ts, target, home, scored, n - 1);
      MatchesIffSelects(owner, ts[n - 1].term, target);
    }
  }

  lemma {:induction false} HardTermsWorth(owner: Pod, ts: seq<AffinityTerm>, weight: int, target: Pod, home: Node,
          scored: Node, n: nat)
    requires n <= |ts|
    ensures TermsScore(Hard(owner, ts, weight), target, home, scored, n) ==
            Sum(HardWorth(owner, weight, target, home, scored), ts, n)
  {
    if n > 0 {
      HardTermsWorth(owner, ts, weight, target, home, scored, n - 1);
      MatchesIffSelects(owner, ts[n - 1], target);
    }
  }

  /** The processed terms are worth what the terms in the pods are. */
  lemma SoftIsWorth(owner: Pod, rules: Option<AffinityRules>, target: Pod, home: Node, scored: Node)
    ensures AllTerms(Soft(owner, Rules(rules).preferred), target, home, scored)
      == PreferredWorth(owner, rules, target, home, scored)
    ensures SoftConvertible(Rules(rules).preferred) <==> PreferredReadable(rules)
  {
    var ts := Rules(rules).preferred;
    SoftTermsWorth(owner, ts, target, home, scored, |ts|);
    assert forall i :: 0 <= i < |ts| ==> ts[i] in ts;
  }

  lemma HardIsWorth(owner: Pod, rules: Option<AffinityRules>, weight: int, target: Pod, home: Node, scored: Node)
    ensures AllTerms(Hard(owner, Rules(rules).required, weight), target, home, scored)
      == RequiredWorth(owner, rules, weight, target, home, scored)
  {
    HardTermsWorth(owner, Rules(rules).required, weight, target, home, scored, |Rules(rules).required|);
  }

  ghost function ScoreOn(incoming: Pod, home: Node, scored: Node, hardWeight: int): Pod -> int {
    (pod: Pod) => PodScore(incoming, pod, home, scored, hardWeight)
  }

  /** All pods of an entry. */
  ghost function EntryScore(incoming: Pod, scored: Node, hardWeight: int): NodeView -> int {
    (v: NodeView) => if v.node.None? then 0
      else Sum(ScoreOn(incoming, v.node.value, scored, hardWeight), v.pods, |v.pods|)
  }

  /** The score by brute force: over all pods on all nodes. */
  ghost function BruteForceScore(incoming: Pod, nodes: seq<NodeView>, scored: Node, hardWeight: int): int {
    Sum(EntryScore(incoming, scored, hardWeight), nodes, |nodes|)
  }

  lemma {:induction false} TermsAreScored(ws: seq<Weighted>, target: Pod, home: Node, sign: int, scored: Node, n: nat)
    requires n <= |ws|
    ensures var es := TermsEntries(ws, target, home, sign, n);
            Sum(OnLabels(scored.labels), es, |es|) == sign * TermsScore(ws, target, home, scored, n)
  {
    if n > 0 {
      TermsAreScored(ws, target, home, sign, scored, n - 1);
      var a, b := TermsEntries(ws, target, home, sign, n - 1), TermEntries(ws[n - 1], target, home, sign);
      SumAppend(OnLabels(scored.labels), a, b);
      TermIsScored(ws[n - 1], target, home, sign, scored);
      Distribute(sign, TermsScore(ws, target, home, scored, n - 1),
                 if Matches(target, ws[n - 1].term) && SameTopology(scored, home, ws[n - 1].term.topologyKey)
                 then ws[n - 1].weight else 0);
    }
  }

  lemma TermIsScored(w: Weighted, target: Pod, home: Node, sign: int, scored: Node)
    ensures var es := TermEntries(w, target, home, sign);
            Sum(OnLabels(scored.labels), es, |es|) ==
            sign * if Matches(target, w.term) && SameTopology(scored, home, w.term.topologyKey) then w.weight else 0
  {
    var es := TermEntries(w, target, home, sign);
    if es != [] {
      SumOne(OnLabels(scored.labels), es[0]);
    }
  }

  lemma Distribute(a: int, b: int, c: int)
    ensures a * (b + c) == a * b + a * c
  {
  }

  lemma PodIsScored(incoming: Pod, pod: Pod, home: Node, scored: Node, hardWeight: int)
    ensures var es := PodEntries(incoming, pod, home, hardWeight);
            Sum(OnLabels(scored.labels), es, |es|) == PodScore(incoming, pod, home, scored, hardWeight)
  {
    OwnIsScored(incoming, pod, home, scored);
    ForeignIsScored(incoming, pod, home, scored, hardWeight);
    SumAppend(OnLabels(scored.labels), OwnEntries(incoming, pod, home),
              ForeignEntries(incoming, pod, home, hardWeight));
  }

  lemma OwnIsScored(incoming: Pod, pod: Pod, home: Node, scored: Node)
    ensures var es := OwnEntries(incoming, pod, home);
            Sum(OnLabels(scored.labels), es, |es|) ==
            PreferredWorth(incoming, incoming.affinity.podAffinity, pod, home, scored) -
            PreferredWorth(incoming, incoming.affinity.podAntiAffinity, pod, home, scored)
  {
    SoftPairIsScored(incoming, pod, home, scored, incoming.affinity.podAffinity, incoming.affinity.podAntiAffinity);
  }

  /** The soft terms of both kinds of one owner. */
  lemma SoftPairIsScored(owner: Pod, target: Pod, home: Node, scored: Node, a: Option<AffinityRules>,
          b: Option<AffinityRules>)
    ensures var p, q := Soft(owner, Rules(a).preferred), Soft(owner, Rules(b).preferred);
            var es := AllEntries(p, target, home, 1) + AllEntries(q, target, home, -1);
            Sum(OnLabels(scored.labels), es, |es|) ==
            PreferredWorth(owner, a, target, home, scored) - PreferredWorth(owner, b, target, home, scored)
  {
    var p, q := Soft(owner, Rules(a).preferred), Soft(owner, Rules(b).preferred);
    TermsAreScored(p, target, home, 1, scored, |p|);
    TermsAreScored(q, target, home, -1, scored, |q|);
    SumAppend(OnLabels(scored.labels), AllEntries(p, target, home, 1), AllEntries(q, target, home, -1));
    SoftIsWorth(owner, a, target, home, scored);
    SoftIsWorth(owner, b, target, home, scored);
  }

  lemma ForeignIsScored(incoming: Pod, pod: Pod, home: Node, scored: Node, hardWeight: int)
    ensures var es := ForeignEntries(incoming, pod, home, hardWeight);
            var a, b := pod.affinity.podAffinity, pod.affinity.podAntiAffinity;
            Sum(OnLabels(scored.labels), es, |es|) ==
            (if hardWeight > 0 then RequiredWorth(pod, a, hardWeight, incoming, home, scored) else 0) +
            (if PreferredReadable(a)
             then PreferredWorth(pod, a, incoming, home, scored) - PreferredWorth(pod, b, incoming, home, scored)
             else 0)
  {
    var f, a, b := OnLabels(scored.labels), pod.affinity.podAffinity, pod.affinity.podAntiAffinity;
    var h := Hard(pod, Rules(a).required, hardWeight);
    TermsAreScored(h, incoming, home, 1, scored, |h|);
    HardIsWorth(pod, a, hardWeight, incoming, home, scored);
    SoftIsWorth(pod, a, incoming, home, scored);
    SoftPairIsScored(pod, incoming, home, scored, a, b);
    SumAppend(f, if hardWeight > 0 then AllEntries(h, incoming, home, 1) else [], SoftEntries(incoming, pod, home));
  }

  // ---- errors ----

  /** An existing pod is an error if a hard affinity selector of it, when those count, cannot be
      converted, or a soft anti-affinity one while its soft affinity ones can. */
  lemma PodReadableIff(pod: Pod, hardWeight: int)
    ensures PodReadable(pod, hardWeight) <==>
            && !(hardWeight > 0 && exists t :: Demands(pod.affinity.podAffinity, t) && t.selector.Malformed?)
            && (PreferredReadable(pod.affinity.podAffinity) ==> PreferredReadable(pod.affinity.podAntiAffinity))
  {
    var a, b := pod.affinity.podAffinity, pod.affinity.podAntiAffinity;
    var ts, ps, qs := Rules(a).required, Rules(a).preferred, Rules(b).preferred;
    assert forall t :: t in ts <==> Demands(a, t);
    assert forall i :: 0 <= i < |ts| ==> ts[i] in ts;
    assert forall i :: 0 <= i < |ps| ==> ps[i] in ps;
    assert forall i :: 0 <= i < |qs| ==> qs[i] in qs;
  }

  /** The entry has a node and holds the pod, which has affinity unless the incoming pod has. */
  predicate ProcessedOn(incoming: Pod, v: NodeView, pod: Pod) {
    v.node.Some? && if incoming.HasAffinity() then pod in v.pods else pod in v.podsWithAffinity
  }

  lemma {:induction false} PodsReadableIff(pods: seq<Pod>, hardWeight: int, n: nat)
    requires n <= |pods|
    ensures PodsReadable(pods, hardWeight, n) <==> forall i :: 0 <= i < n ==> PodReadable(pods[i], hardWeight)
  {
    if n > 0 {
      PodsReadableIff(pods, hardWeight, n - 1);
    }
  }

  /** The nodes are processed without an error if and only if no pod processed on an entry with
      a node is one. */
  lemma {:induction false} AllReadableIff(incoming: Pod, nodes: seq<NodeView>, hardWeight: int, n: nat)
    requires n <= |nodes|
    ensures AllReadable(incoming, nodes, hardWeight, n) <==>
            forall i, pod :: 0 <= i < n && ProcessedOn(incoming, nodes[i], pod) ==> PodReadable(pod, hardWeight)
  {
    if n > 0 {
      AllReadableIff(incoming, nodes, hardWeight, n - 1);
      var pods := PodsToProcess(incoming, nodes[n - 1]);
      PodsReadableIff(pods, hardWeight, |pods|);
      assert forall i :: 0 <= i < |pods| ==> pods[i] in pods;
    }
  }

  // ---- the map gives the score of the definition ----

  lemma PodsAreScored(incoming: Pod, home: Node, pods: seq<Pod>, scored: Node, hardWeight: int)
    ensures var es := PodsEntries(incoming, home, pods, hardWeight, |pods|);
            Sum(OnLabels(scored.labels), es, |es|) == Sum(ScoreOn(incoming, home, scored, hardWeight), pods, |pods|)
  {
    var f, g, total := OnLabels(scored.labels), EntriesOn(incoming, home, hardWeight),
      ScoreOn(incoming, home, scored, hardWeight);
    forall pod | pod in pods
      ensures Sum(f, g(pod), |g(pod)|) == total(pod)
    {
      PodIsScored(incoming, pod, home, scored, hardWeight);
    }
    SumGather(f, g, pods, |pods|, total);
  }

  lemma NothingWithoutAffinity(incoming: Pod, pod: Pod, home: Node, scored: Node, hardWeight: int)
    requires !incoming.HasAffinity() && !pod.HasAffinity()
    ensures PodScore(incoming, pod, home, scored, hardWeight) == 0
  {
  }

  /** Pods without affinity are worth nothing to a pod without affinity, so the affinity
      slice of an entry is enough. */
  lemma SliceIsEnough(incoming: Pod, v: NodeView, scored: Node, hardWeight: int, home: Node)
    requires !incoming.HasAffinity() && AffinitySubset(v)
    ensures var f := ScoreOn(incoming, home, scored, hardWeight);
            Sum(f, v.podsWithAffinity, |v.podsWithAffinity|) == Sum(f, v.pods, |v.pods|)
  {
    var f, keep := ScoreOn(incoming, home, scored, hardWeight), (pod: Pod) => pod.HasAffinity();
    forall pod | !keep(pod)
      ensures f(pod) == 0
    {
      NothingWithoutAffinity(incoming, pod, home, scored, hardWeight);
    }
    SumFilter(f, keep, v.pods, |v.pods|);
    var kept := Filter(keep, v.pods, |v.pods|);
    forall pod
      ensures multiset(v.podsWithAffinity)[pod] == multiset(kept)[pod]
    {
      FilterMultiset(keep, v.pods, |v.pods|, pod);
      assert v.pods[..|v.pods|] == v.pods;
    }
    SumOfMultiset(f, v.podsWithAffinity, kept);
  }

  lemma EntryIsScored(incoming: Pod, v: NodeView, scored: Node, hardWeight: int)
    requires AffinitySubset(v)
    ensures var es := NodeEntries(incoming, v, hardWeight);
            Sum(OnLabels(scored.labels), es, |es|) == EntryScore(incoming, scored, hardWeight)(v)
  {
    if v.node.Some? {
      var home, pods := v.node.value, PodsToProcess(incoming, v);
      PodsAreScored(incoming, home, pods, scored, hardWeight);
      if !incoming.HasAffinity() {
        SliceIsEnough(incoming, v, scored, hardWeight, home);
      }
    }
  }

  lemma NodesAreScored(incoming: Pod, nodes: seq<NodeView>, scored: Node, hardWeight: int)
    requires forall v :: v in nodes ==> AffinitySubset(v)
    ensures var es := NodesEntries(incoming, nodes, hardWeight, |nodes|);
            Sum(OnLabels(scored.labels), es, |es|) == Sum(EntryScore(incoming, scored, hardWeight), nodes, |nodes|)
  {
    var f, g, total := OnLabels(scored.labels), EntriesOf(incoming, hardWeight),
      EntryScore(incoming, scored, hardWeight);
    forall v | v in nodes
      ensures Sum(f, g(v), |g(v)|) == total(v)
    {
      EntryIsScored(incoming, v, scored, hardWeight);
    }
    SumGather(f, g, nodes, |nodes|, total);
  }

  /** Leaving out the entries without pods with affinity changes nothing for a pod without
      affinity. */
  lemma ListIsEnough(incoming: Pod, nodes: seq<NodeView>, scored: Node, hardWeight: int)
    requires !incoming.HasAffinity() && forall v :: v in nodes ==> AffinitySubset(v)
    ensures var h, f := Filter((v: NodeView) => |v.podsWithAffinity| > 0, nodes, |nodes|),
      EntryScore(incoming, scored, hardWeight);
            Sum(f, h, |h|) == Sum(f, nodes, |nodes|)
  {
    ListPrefixIsEnough(incoming, nodes, scored, hardWeight, |nodes|);
  }

  lemma {:induction false} ListPrefixIsEnough(incoming: Pod, nodes: seq<NodeView>, scored: Node, hardWeight: int,
          n: nat)
    requires n <= |nodes| && !incoming.HasAffinity() && forall v :: v in nodes ==> AffinitySubset(v)
    ensures var h, f := Filter((v: NodeView) => |v.podsWithAffinity| > 0, nodes, n),
      EntryScore(incoming, scored, hardWeight);
            Sum(f, h, |h|) == Sum(f, nodes, n)
  {
    if n > 0 {
      ListPrefixIsEnough(incoming, nodes, scored, hardWeight, n - 1);
      var v, f := nodes[n - 1], EntryScore(incoming, scored, hardWeight);
      var h := Filter((v: NodeView) => |v.podsWithAffinity| > 0, nodes, n - 1);
      if |v.podsWithAffinity| > 0 {
        SumAppend(f, h, [v]);
        SumOne(f, v);
      } else if v.node.Some? {
        SliceIsEnough(incoming, v, scored, hardWeight, v.node.value);
      }
    }
  }

  /** The score read from the map is the brute-force sum, in whatever order the maps of the
      nodes were merged, and although pods and entries without affinity are skipped when the
      incoming pod has none. */
  lemma ScoreIsBruteForce(incoming: Pod, allNodes: seq<NodeView>, scored: Node, hardWeight: int, es: seq<Entry>)
    requires forall v :: v in allNodes ==> AffinitySubset(v)
    requires var h := Filter((v: NodeView) => |v.podsWithAffinity| > 0, allNodes, |allNodes|);
             var nodes := NodesToProcess(incoming, allNodes, h);
             multiset(es) == multiset(NodesEntries(incoming, nodes, hardWeight, |nodes|))
    ensures Sum(OnLabels(scored.labels), es, |es|) == BruteForceScore(incoming, allNodes, scored, hardWeight)
  {
    var h := Filter((v: NodeView) => |v.podsWithAffinity| > 0, allNodes, |allNodes|);
    var nodes := NodesToProcess(incoming, allNodes, h);
    SumOfMultiset(OnLabels(scored.labels), es, NodesEntries(incoming, nodes, hardWeight, |nodes|));
    FilterInside((v: NodeView) => |v.podsWithAffinity| > 0, allNodes, |allNodes|);
    NodesAreScored(incoming, nodes, scored, hardWeight);
    if !incoming.HasAffinity() {
      ListIsEnough(incoming, allNodes, scored, hardWeight);
    }
  }
}
