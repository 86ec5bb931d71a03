/** Taking a pod out of the affinity counters
    (framework/plugins/interpodaffinity/filtering.go, updateWithPod with multiplier -1). */
module AffinityRemovals {
  import opened Api
  import opened NodeInfos
  import opened Sequences
  import opened Counters
  import opened AffinityTerms
  import opened AffinityFilter
  import opened AffinityUpdates

  /** How often a pod contributes a pair. */
  function TimesOf(kind: Kind, incoming: Pod, node: Node, p: Pair): Pod -> int {
    (pod: Pod) => Times(PairsOfPod(kind, incoming, pod, node), p)
  }

  lemma {:induction false} PodsTimes(kind: Kind, incoming: Pod, node: Node, pods: seq<Pod>, n: nat, p: Pair)
    requires n <= |pods|
    ensures Times(PairsOfPods(kind, incoming, node, pods, n), p) == Sum(TimesOf(kind, incoming, node, p), pods, n)
  {
    if n > 0 {
      PodsTimes(kind, incoming, node, pods, n - 1, p);
      TimesConcat(PairsOfPods(kind, incoming, node, pods, n - 1), PairsOfPod(kind, incoming, pods[n - 1], node), p);
    }
  }

  /** Entries with the same pods, up to order. */
  ghost predicate SameHeld(v: NodeView, w: NodeView) {
    v.node == w.node && multiset(v.pods) == multiset(w.pods) &&
      multiset(v.podsWithAffinity) == multiset(w.podsWithAffinity)
  }

  lemma SameHeldTimes(kind: Kind, incoming: Pod, v: NodeView, w: NodeView, p: Pair)
    requires SameHeld(v, w)
    ensures Times(PairsOfNode(kind, incoming, v), p) == Times(PairsOfNode(kind, incoming, w), p)
  {
    if v.node.Some? {
      var a, b := PodsFor(kind, v), PodsFor(kind, w);
      PodsTimes(kind, incoming, v.node.value, a, |a|, p);
      PodsTimes(kind, incoming, v.node.value, b, |b|, p);
      SumOfMultiset(TimesOf(kind, incoming, v.node.value, p), a, b);
    }
  }

  /** The order of the pods of an entry does not matter to the counters. */
  lemma SameHeldTally(kind: Kind, incoming: Pod, nodes: seq<NodeView>, i: nat, w: NodeView)
    requires i < |nodes| && SameHeld(nodes[i], w)
    ensures Tally(kind, incoming, nodes[i := w]) == Tally(kind, incoming, nodes)
  {
    var n, parts, part := |nodes|, NodeParts(kind, incoming, nodes), PairsOfNode(kind, incoming, w);
    assert NodeParts(kind, incoming, nodes[i := w]) == parts[i := part];
    forall p
      ensures Times(PairsOfNodes(kind, incoming, nodes[i := w], n), p)
        == Times(PairsOfNodes(kind, incoming, nodes, n), p)
    {
      SameHeldTimes(kind, incoming, nodes[i], w, p);
      OccursFlat(parts, n, p);
      OccursFlat(parts[i := part], n, p);
      OccursInUpdate(parts, i, part, n, p);
    }
    TalliedSame(PairsOfNodes(kind, incoming, nodes[i := w], n), PairsOfNodes(kind, incoming, nodes, n));
  }

  lemma SameHeldState(incoming: Pod, nodes: seq<NodeView>, i: nat, w: NodeView)
    requires i < |nodes| && SameHeld(nodes[i], w)
    ensures StateOver(incoming, nodes[i := w]) == StateOver(incoming, nodes)
  {
    SameHeldTally(Existing, incoming, nodes, i, w);
    SameHeldTally(OwnAffinity, incoming, nodes, i, w);
    SameHeldTally(OwnAnti, incoming, nodes, i, w);
  }

  lemma SubsetDetermines(a: seq<Pod>, b: seq<Pod>, x: seq<Pod>, y: seq<Pod>)
    requires multiset(a) == multiset(b) && NodeInfos.Subset(a, x) && NodeInfos.Subset(b, y)
    ensures multiset(x) == multiset(y)
  {
  }

  /** A pod that is taken from an entry and put back leaves the entry with the same pods. */
  lemma PutBack(v: NodeView, k: nat, g: int)
    requires Conserved(v) && k < |v.pods|
    ensures var w := RemovePodFrom(v, v.pods[k], g);
            w.node == v.node && SameHeld(v, AddPodTo(w, v.pods[k], g))
  {
    var pod := v.pods[k];
    var w := RemovePodFrom(v, pod, g);
    var x := AddPodTo(w, pod, g);
    PositionUnique(v.pods, k);
    assert w.pods == SwapDelete(v.pods, k);
    SwapDeleteMultiset(v.pods, k);
    assert pod in multiset(v.pods);
    assert multiset(x.pods) == multiset(v.pods);
    RemovePodConservesIff(v, pod, k, g);
    assert SameWeights(pod, pod);
    AddPodSums(w, pod, g);
    SubsetDetermines(v.pods, x.pods, v.podsWithAffinity, x.podsWithAffinity);
  }

  /** Taking a pod out of the counters equals computing them without it if and only if the
      pod updates right. */
  lemma RemovalIsRecomputeIff(incoming: Pod, nodes: seq<NodeView>, i: nat, k: nat, g: int)
    requires i < |nodes| && nodes[i].node.Some? && Conserved(nodes[i]) && k < |nodes[i].pods|
    ensures var pod, home := nodes[i].pods[k], nodes[i].node.value;
            var after := nodes[i := RemovePodFrom(nodes[i], pod, g)];
            UpdatedWith(StateOver(incoming, nodes), pod, incoming, home, -1) == StateOver(incoming, after) <==>
            UpdatesRight(incoming, pod, home)
  {
    var pod, home := nodes[i].pods[k], nodes[i].node.value;
    var w := RemovePodFrom(nodes[i], pod, g);
    var after, x := nodes[i := w], AddPodTo(w, pod, g);
    PutBack(nodes[i], k, g);
    SameHeldState(incoming, nodes, i, x);
    assert after[i := x] == nodes[i := x];
    UpdateIsRecomputeIff(incoming, after, i, pod, g);
    StateOverClean(incoming, nodes);
    StateOverClean(incoming, after);
    UpdateUndone(StateOver(incoming, after), pod, incoming, home, 1);
    UpdateUndone(StateOver(incoming, nodes), pod, incoming, home, -1);
  }

  // ---- runs of changes ----

  /** A pod is placed on entry i, or the pod at place k of entry i is taken away; g is the
      generation the entry takes. */
  datatype Edit = Placed(i: nat, pod: Pod, g: int) | Taken(i: nat, k: nat, g: int)

  /** The entry is there, the pod is new to it or on it, and the pod updates right. */
  ghost predicate EditRight(incoming: Pod, nodes: seq<NodeView>, e: Edit) {
    && e.i < |nodes| && nodes[e.i].node.Some?
    && (e.Placed? ==> e.pod.uid != "" && !NodeInfos.Holds(nodes[e.i].pods, e.pod.uid))
    && (e.Taken? ==> e.k < |nodes[e.i].pods|)
    && Convertible(AntiAffinityTermsOf(PodOf(nodes, e)))
    && UpdatesRight(incoming, PodOf(nodes, e), nodes[e.i].node.value)
  }

  ghost function PodOf(nodes: seq<NodeView>, e: Edit): Pod
    requires e.i < |nodes| && (e.Taken? ==> e.k < |nodes[e.i].pods|)
  {
    match e
    case Placed(_, pod, _) => pod
    case Taken(i, k, _) => nodes[i].pods[k]
  }

  ghost function Edited(incoming: Pod, nodes: seq<NodeView>, e: Edit): seq<NodeView>
    requires EditRight(incoming, nodes, e)
  {
    match e
    case Placed(i, pod, g) => nodes[i := AddPodTo(nodes[i], pod, g)]
    case Taken(i, k, g) => nodes[i := RemovePodFrom(nodes[i], nodes[i].pods[k], g)]
  }

  ghost predicate AllConserved(nodes: seq<NodeView>) { forall i :: 0 <= i < |nodes| ==> Conserved(nodes[i]) }

  /** What the plugin is told of an edit. */
  ghost function ChangeOf(incoming: Pod, nodes: seq<NodeView>, e: Edit): Change
    requires EditRight(incoming, nodes, e)
  {
    Change(PodOf(nodes, e), nodes[e.i].node.value, e.Placed?)
  }

  lemma PlacedIsRecompute(incoming: Pod, nodes: seq<NodeView>, i: nat, pod: Pod, g: int)
    requires AllConserved(nodes) && EditRight(incoming, nodes, Placed(i, pod, g))
    ensures var after := nodes[i := AddPodTo(nodes[i], pod, g)];
            AllConserved(after) && StateOver(incoming, after)
              == UpdatedWith(StateOver(incoming, nodes), pod, incoming, nodes[i].node.value, 1)
  {
    AddPodConserves(nodes[i], pod, g);
    UpdateIsRecomputeIff(incoming, nodes, i, pod, g);
  }

  lemma TakenIsRecompute(incoming: Pod, nodes: seq<NodeView>, i: nat, k: nat, g: int)
    requires AllConserved(nodes) && EditRight(incoming, nodes, Taken(i, k, g))
    ensures var pod := nodes[i].pods[k];
            var after := nodes[i := RemovePodFrom(nodes[i], pod, g)];
            AllConserved(after) && StateOver(incoming, after)
              == UpdatedWith(StateOver(incoming, nodes), pod, incoming, nodes[i].node.value, -1)
  {
    RemovePodConservesIff(nodes[i], nodes[i].pods[k], k, g);
    assert SameWeights(nodes[i].pods[k], nodes[i].pods[k]);
    RemovalIsRecomputeIff(incoming, nodes, i, k, g);
  }

  lemma EditIsRecompute(incoming: Pod, nodes: seq<NodeView>, e: Edit)
    requires AllConserved(nodes) && EditRight(incoming, nodes, e)
    ensures AllConserved(Edited(incoming, nodes, e))
    ensures var c := ChangeOf(incoming, nodes, e);
            StateOver(incoming, Edited(incoming, nodes, e))
              == UpdatedWith(StateOver(incoming, nodes), c.pod, incoming, c.node, if c.added then 1 else -1)
  {
    match e {
      case Placed(i, pod, g) => PlacedIsRecompute(incoming, nodes, i, pod, g);
      case Taken(i, k, g) => TakenIsRecompute(incoming, nodes, i, k, g);
    }
  }

  /** A list of edits, each right where it comes, with the entries at the end and the changes
      that the plugin is told. */
  ghost predicate Leads(incoming: Pod, nodes: seq<NodeView>, edits: seq<Edit>, changes: seq<Change>,
          last: seq<NodeView>)
    decreases |edits|
  {
    && |changes| == |edits|
    && if edits == [] then last == nodes
       else
         && EditRight(incoming, nodes, edits[0]) && changes[0] == ChangeOf(incoming, nodes, edits[0])
         && Leads(incoming, Edited(incoming, nodes, edits[0]), edits[1..], changes[1..], last)
  }

  lemma {:induction false} StateAfterFirst(s: PreFilterState, incoming: Pod, changes: seq<Change>, n: nat)
    requires 0 < n <= |changes|
    ensures StateAfter(s, incoming, changes, n)
      == StateAfter(StateAfter(s, incoming, changes, 1), incoming, changes[1..], n - 1)
  {
    if n > 1 {
      StateAfterFirst(s, incoming, changes, n - 1);
      assert changes[1..][n - 2] == changes[n - 1];
    }
  }

  lemma FirstChange(s: PreFilterState, incoming: Pod, changes: seq<Change>)
    requires changes != [] && Convertible(AntiAffinityTermsOf(changes[0].pod))
    ensures var c := changes[0];
            StateAfter(s, incoming, changes, 1) == UpdatedWith(s, c.pod, incoming, c.node, if c.added then 1 else -1)
  {
    assert StateAfter(s, incoming, changes, 0) == s;
  }

  lemma FirstEdit(incoming: Pod, nodes: seq<NodeView>, edits: seq<Edit>, changes: seq<Change>, last: seq<NodeView>,
          s: PreFilterState)
    returns (next: seq<NodeView>)
    requires AllConserved(nodes) && Leads(incoming, nodes, edits, changes, last) && edits != []
    requires s == StateOver(incoming, nodes)
    ensures AllConserved(next) && Leads(incoming, next, edits[1..], changes[1..], last)
    ensures changes != [] && StateAfter(s, incoming, changes, 1) == StateOver(incoming, next)
  {
    next := Edited(incoming, nodes, edits[0]);
    EditIsRecompute(incoming, nodes, edits[0]);
    FirstChange(s, incoming, changes);
  }

  /** s and end are what the counters of the entries are before and after. */
  lemma {:induction false} RunFrom(incoming: Pod, nodes: seq<NodeView>, edits: seq<Edit>, changes: seq<Change>,
          last: seq<NodeView>, s: PreFilterState, end: PreFilterState)
    requires AllConserved(nodes) && Leads(incoming, nodes, edits, changes, last)
    requires s == StateOver(incoming, nodes) && end == StateOver(incoming, last)
    ensures StateAfter(s, incoming, changes, |changes|) == end
    decreases |edits|
  {
    if edits == [] {
      assert StateAfter(s, incoming, changes, 0) == s;
    } else {
      var next := FirstEdit(incoming, nodes, edits, changes, last, s);
      var t := StateAfter(s, incoming, changes, 1);
      StateAfterFirst(s, incoming, changes, |changes|);
      RunFrom(incoming, next, edits[1..], changes[1..], last, t, end);
    }
  }

  /** Over a run of such edits the incremental state stays the recomputed one. */
  lemma RunIsRecompute(incoming: Pod, nodes: seq<NodeView>, edits: seq<Edit>, changes: seq<Change>,
          last: seq<NodeView>)
    requires AllConserved(nodes) && Leads(incoming, nodes, edits, changes, last)
    ensures StateAfter(StateOver(incoming, nodes), incoming, changes, |changes|) == StateOver(incoming, last)
  {
    RunFrom(incoming, nodes, edits, changes, last, StateOver(incoming, nodes), StateOver(incoming, last));
  }
}
