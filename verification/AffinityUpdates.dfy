/** Keeping the affinity counters in step while pods come and go
    (framework/plugins/interpodaffinity/filtering.go, updateWithPod). */
module AffinityUpdates {
  import opened Api
  import opened NodeInfos
  import opened Counters
  import opened AffinityTerms
  import opened AffinityFilter

  /** The anti-affinity terms of the updated pod as updateWithPod processes them: empty
      namespaces stand for that of the incoming pod, not of their owner. */
  function ForeignTerms(incoming: Pod, updated: Pod): seq<Term> { AllProcessed(incoming, AntiAffinityTermsOf(updated)) }

  function ForeignPairs(incoming: Pod, updated: Pod, node: Node): seq<Pair> {
    AntiPairs(incoming, node, ForeignTerms(incoming, updated), |ForeignTerms(incoming, updated)|)
  }

  /** The counters of the incoming pod's own terms change only for a pod on a named node. */
  function OwnPairs(kind: Kind, incoming: Pod, updated: Pod, node: Node): seq<Pair> {
    if updated.nodeName == "" then [] else PairsOfPod(kind, incoming, updated, node)
  }

  function Bumped(m: Counts<Pair>, keys: seq<Pair>, value: int): Counts<Pair> { BumpAll(m, keys, |keys|, value) }

  function UpdatedWith(s: PreFilterState, updated: Pod, incoming: Pod, node: Node, multiplier: int): PreFilterState {
    PreFilterState(Bumped(s.existing, ForeignPairs(incoming, updated, node), multiplier),
                   Bumped(s.affinity, OwnPairs(OwnAffinity, incoming, updated, node), multiplier),
                   Bumped(s.antiAffinity, OwnPairs(OwnAnti, incoming, updated, node), multiplier))
  }

  lemma NoTermsNoUpdate(kind: Kind, incoming: Pod, updated: Pod, node: Node)
    requires !kind.Existing?
    requires updated.nodeName == "" ||
      (if kind.OwnAnti? then AntiAffinityTermsOf(incoming) else AffinityTermsOf(incoming)) == []
    ensures OwnPairs(kind, incoming, updated, node) == []
  {
  }

  /** The counter of the existing pods' terms; absent if a selector of the pod does not
      convert. */
  method UpdateExisting(m: Counts<Pair>, updated: Pod, incoming: Pod, node: Node, multiplier: int)
    returns (r: Option<Counts<Pair>>)
    ensures r == if Convertible(AntiAffinityTermsOf(updated))
                 then Some(Bumped(m, ForeignPairs(incoming, updated, node), multiplier)) else None
  {
    if updated.affinity.podAntiAffinity.None? {
      return Some(m);
    }
    var terms := GetAffinityTerms(incoming, AntiAffinityTermsOf(updated));
    if terms.None? {
      return None;
    }
    var existing := UpdateWithAntiAffinityTerms(m, incoming, node, terms.value, multiplier);
    r := Some(existing);
  }

  method UpdateOwnAffinity(m: Counts<Pair>, updated: Pod, incoming: Pod, node: Node, multiplier: int)
    returns (r: Counts<Pair>)
    requires Convertible(AffinityTermsOf(incoming))
    ensures r == Bumped(m, OwnPairs(OwnAffinity, incoming, updated, node), multiplier)
  {
    if incoming.affinity.podAffinity.Some? && updated.nodeName != "" {
      var terms := GetAffinityTerms(incoming, AffinityTermsOf(incoming));
      r := UpdateWithAffinityTerms(m, updated, node, terms.value, multiplier);
    } else {
      NoTermsNoUpdate(OwnAffinity, incoming, updated, node);
      r := m;
    }
  }

  method UpdateOwnAnti(m: Counts<Pair>, updated: Pod, incoming: Pod, node: Node, multiplier: int)
    returns (r: Counts<Pair>)
    requires Convertible(AntiAffinityTermsOf(incoming))
    ensures r == Bumped(m, OwnPairs(OwnAnti, incoming, updated, node), multiplier)
  {
    if incoming.affinity.podAntiAffinity.Some? && updated.nodeName != "" {
      var terms := GetAffinityTerms(incoming, AntiAffinityTermsOf(incoming));
      r := UpdateWithAntiAffinityTerms(m, updated, node, terms.value, multiplier);
    } else {
      NoTermsNoUpdate(OwnAnti, incoming, updated, node);
      r := m;
    }
  }

  /** updateWithPod, once the selectors of the pod to schedule were converted before. */
  method UpdateWithPod(s: PreFilterState, updated: Pod, incoming: Pod, node: Node, multiplier: int)
      returns (r: PreFilterState, ok: bool)
    requires OwnConvertible(incoming)
    ensures ok == Convertible(AntiAffinityTermsOf(updated))
    ensures r == if ok then UpdatedWith(s, updated, incoming, node, multiplier) else s
  {
    var existing := UpdateExisting(s.existing, updated, incoming, node, multiplier);
    if existing.None? {
      return s, false;
    }
    var affinity := UpdateOwnAffinity(s.affinity, updated, incoming, node, multiplier);
    var antiAffinity := UpdateOwnAnti(s.antiAffinity, updated, incoming, node, multiplier);
    r, ok := PreFilterState(existing.value, affinity, antiAffinity), true;
  }

  // ---- adding and taking back ----

  predicate Clean(s: PreFilterState) { NoZero(s.existing) && NoZero(s.affinity) && NoZero(s.antiAffinity) }

  /** The counters PreFilter computes hold no zero entries, and updates keep it so. */
  lemma PreFilterClean(incoming: Pod, allNodes: seq<NodeView>, affinityNodes: seq<NodeView>)
    requires PreFilterOf(incoming, allNodes, affinityNodes).Some?
    ensures Clean(PreFilterOf(incoming, allNodes, affinityNodes).value)
  {
    TallyClean(PairsOfNodes(Existing, incoming, affinityNodes, |affinityNodes|));
    TallyClean(PairsOfNodes(OwnAffinity, incoming, allNodes, |allNodes|));
    TallyClean(PairsOfNodes(OwnAnti, incoming, allNodes, |allNodes|));
  }

  lemma TallyClean(keys: seq<Pair>)
    ensures NoZero(Tallied(keys))
  {
    BumpAllNoZero(map[], keys, |keys|, 1);
  }

  lemma UpdateClean(s: PreFilterState, updated: Pod, incoming: Pod, node: Node, multiplier: int)
    requires Clean(s)
    ensures Clean(UpdatedWith(s, updated, incoming, node, multiplier))
  {
    var a, b, c := ForeignPairs(incoming, updated, node), OwnPairs(OwnAffinity, incoming, updated, node),
                   OwnPairs(OwnAnti, incoming, updated, node);
    BumpAllNoZero(s.existing, a, |a|, multiplier);
    BumpAllNoZero(s.affinity, b, |b|, multiplier);
    BumpAllNoZero(s.antiAffinity, c, |c|, multiplier);
  }

  /** A pod that is added to or taken from the state, with the node it is on. */
  datatype Change = Change(pod: Pod, node: Node, added: bool)

  /** The state after the first n changes; a pod whose selectors do not convert is an error
      and changes nothing. */
  function StateAfter(s: PreFilterState, incoming: Pod, changes: seq<Change>, n: nat): PreFilterState
    requires n <= |changes|
  {
    if n == 0 then s
    else
      var t, c := StateAfter(s, incoming, changes, n - 1), changes[n - 1];
      if Convertible(AntiAffinityTermsOf(c.pod))
      then UpdatedWith(t, c.pod, incoming, c.node, if c.added then 1 else -1) else t
  }

  /** Over any run of updates no counter is ever zero. */
  lemma {:induction false} RunClean(s: PreFilterState, incoming: Pod, changes: seq<Change>, n: nat)
    requires Clean(s) && n <= |changes|
    ensures Clean(StateAfter(s, incoming, changes, n))
  {
    if n > 0 {
      RunClean(s, incoming, changes, n - 1);
      var c := changes[n - 1];
      UpdateClean(StateAfter(s, incoming, changes, n - 1), c.pod, incoming, c.node, if c.added then 1 else -1);
    }
  }

  /** Adding a pod and removing it again restores the counters. */
  lemma UpdateUndone(s: PreFilterState, updated: Pod, incoming: Pod, node: Node, multiplier: int)
    requires Clean(s)
    ensures UpdatedWith(UpdatedWith(s, updated, incoming, node, multiplier), updated, incoming, node, -multiplier) == s
  {
    BumpBack(s.existing, ForeignPairs(incoming, updated, node), multiplier);
    BumpBack(s.affinity, OwnPairs(OwnAffinity, incoming, updated, node), multiplier);
    BumpBack(s.antiAffinity, OwnPairs(OwnAnti, incoming, updated, node), multiplier);
  }

  // ---- against a computation from scratch ----

  /** The term is taken to be about the incoming pod only because its namespaces are read
      as those of the incoming pod, and it counts on this node. */
  predicate Misread(incoming: Pod, pod: Pod, node: Node, t: AffinityTerm) {
    && t.namespaces == [] && pod.namespace != incoming.namespace
    && t.selector.Matches(incoming.labels) && t.topologyKey in node.labels
  }

  lemma TermReadings(incoming: Pod, pod: Pod, node: Node, t: AffinityTerm)
    ensures Matches(incoming, Processed(pod, t)) ==> Matches(incoming, Processed(incoming, t))
    ensures Misread(incoming, pod, node, t) <==>
      !Matches(incoming, Processed(pod, t)) && Matches(incoming, Processed(incoming, t)) && t.topologyKey in node.labels
  {
  }

  lemma {:induction false} ForeignAtLeast(incoming: Pod, pod: Pod, node: Node, ts: seq<AffinityTerm>, n: nat, p: Pair)
    requires n <= |ts|
    ensures var a, b := AntiPairs(incoming, node, AllProcessed(incoming, ts), n),
                        AntiPairs(incoming, node, AllProcessed(pod, ts), n);
            && Occurs(a, |a|, p) >= Occurs(b, |b|, p)
            && (Occurs(a, |a|, p) == Occurs(b, |b|, p) <==>
                 forall i :: 0 <= i < n && Misread(incoming, pod, node, ts[i]) ==>
                   PairOf(node, Processed(pod, ts[i])) != [p])
  {
    if n > 0 {
      ForeignAtLeast(incoming, pod, node, ts, n - 1, p);
      var t := ts[n - 1];
      TermReadings(incoming, pod, node, t);
      var a, b := AntiPairs(incoming, node, AllProcessed(incoming, ts), n - 1),
                  AntiPairs(incoming, node, AllProcessed(pod, ts), n - 1);
      var x := if Matches(incoming, Processed(incoming, t)) then PairOf(node, Processed(incoming, t)) else [];
      var y := if Matches(incoming, Processed(pod, t)) then PairOf(node, Processed(pod, t)) else [];
      OccursConcat(a, x, |x|, p);
      OccursConcat(b, y, |y|, p);
      OccursSingle(x, p);
      OccursSingle(y, p);
    }
  }

  lemma OccursSingle(x: seq<Pair>, p: Pair)
    requires |x| <= 1
    ensures Occurs(x, |x|, p) == if x == [p] then 1 else 0
  {
    if |x| == 1 {
      assert Occurs(x, 0, p) == 0;
    }
  }

  lemma {:induction false} PairsPrefix(kind: Kind, incoming: Pod, node: Node, a: seq<Pod>, b: seq<Pod>, n: nat)
    requires n <= |a| && n <= |b| && forall i :: 0 <= i < n ==> a[i] == b[i]
    ensures PairsOfPods(kind, incoming, node, a, n) == PairsOfPods(kind, incoming, node, b, n)
  {
    if n > 0 {
      PairsPrefix(kind, incoming, node, a, b, n - 1);
    }
  }

  /** One more pod on an entry contributes its pairs, whether or not it is listed among the
      pods with affinity. */
  lemma PairsOfAdded(kind: Kind, incoming: Pod, v: NodeView, pod: Pod, g: int)
    requires v.node.Some?
    ensures PairsOfNode(kind, incoming, AddPodTo(v, pod, g)) ==
            PairsOfNode(kind, incoming, v) + PairsOfPod(kind, incoming, pod, v.node.value)
  {
    var w := AddPodTo(v, pod, g);
    AddKeepsNode(v, pod, g);
    var a, b := PodsFor(kind, v), PodsFor(kind, w);
    if kind.Existing? && !pod.HasAffinity() {
      assert PairsOfPod(kind, incoming, pod, v.node.value) == [];
    } else {
      assert b == a + [pod];
      PairsPrefix(kind, incoming, v.node.value, a, b, |a|);
    }
  }

  function Times(keys: seq<Pair>, p: Pair): nat { Occurs(keys, |keys|, p) }

  lemma TimesConcat(a: seq<Pair>, b: seq<Pair>, p: Pair)
    ensures Times(a + b, p) == Times(a, p) + Times(b, p)
  {
    OccursConcat(a, b, |b|, p);
  }

  /** The affinity list of a snapshot: those of the first n entries with pods with
      affinity, in order. */
  function Having(nodes: seq<NodeView>, n: nat): seq<NodeView>
    requires n <= |nodes|
  {
    if n == 0 then []
    else if |nodes[n - 1].podsWithAffinity| > 0 then Having(nodes, n - 1) + [nodes[n - 1]]
    else Having(nodes, n - 1)
  }

  lemma PairsAppend(kind: Kind, incoming: Pod, nodes: seq<NodeView>, v: NodeView)
    ensures PairsOfNodes(kind, incoming, nodes + [v], |nodes| + 1) ==
            PairsOfNodes(kind, incoming, nodes, |nodes|) + PairsOfNode(kind, incoming, v)
  {
    var a, b := NodeParts(kind, incoming, nodes), NodeParts(kind, incoming, nodes + [v]);
    FlatPrefix(a, b, |nodes|);
  }

  lemma NothingExisting(incoming: Pod, v: NodeView)
    requires |v.podsWithAffinity| == 0
    ensures PairsOfNode(Existing, incoming, v) == []
  {
  }

  /** Looking at the affinity list only misses nothing. */
  lemma {:induction false} HavingIsEnough(incoming: Pod, nodes: seq<NodeView>, n: nat)
    requires n <= |nodes|
    ensures var h := Having(nodes, n);
      PairsOfNodes(Existing, incoming, h, |h|) == PairsOfNodes(Existing, incoming, nodes, n)
  {
    if n > 0 {
      HavingIsEnough(incoming, nodes, n - 1);
      var pairs := PairsOfNodes(Existing, incoming, nodes, n - 1);
      HavingNext(incoming, nodes, n, pairs);
    }
  }

  lemma HavingNext(incoming: Pod, nodes: seq<NodeView>, n: nat, pairs: seq<Pair>)
    requires 0 < n <= |nodes| && pairs == PairsOfNodes(Existing, incoming, nodes, n - 1)
    requires var h := Having(nodes, n - 1); PairsOfNodes(Existing, incoming, h, |h|) == pairs
    ensures PairsOfNodes(Existing, incoming, nodes, n) == pairs + PairsOfNode(Existing, incoming, nodes[n - 1])
    ensures var h := Having(nodes, n);
      PairsOfNodes(Existing, incoming, h, |h|) == pairs + PairsOfNode(Existing, incoming, nodes[n - 1])
  {
    HavingOneMore(incoming, Having(nodes, n - 1), Having(nodes, n), nodes[n - 1]);
  }

  lemma HavingOneMore(incoming: Pod, h: seq<NodeView>, k: seq<NodeView>, v: NodeView)
    requires k == if |v.podsWithAffinity| > 0 then h + [v] else h
    ensures PairsOfNodes(Existing, incoming, k, |k|)
      == PairsOfNodes(Existing, incoming, h, |h|) + PairsOfNode(Existing, incoming, v)
  {
    PairsAppend(Existing, incoming, h, v);
    if |v.podsWithAffinity| == 0 {
      NothingExisting(incoming, v);
    }
  }

  /** So PreFilter computes its counters as if from all entries. */
  lemma PreFilterOverAll(incoming: Pod, nodes: seq<NodeView>)
    ensures var r := PreFilterOf(incoming, nodes, Having(nodes, |nodes|));
            r.Some? ==> r.value == StateOver(incoming, nodes)
  {
    HavingIsEnough(incoming, nodes, |nodes|);
  }

  /** One entry with more pairs adds exactly these to the list. */
  lemma TimesOfNodes(kind: Kind, incoming: Pod, nodes: seq<NodeView>, i: nat, w: NodeView, extra: seq<Pair>, p: Pair)
    requires i < |nodes| && PairsOfNode(kind, incoming, w) == PairsOfNode(kind, incoming, nodes[i]) + extra
    ensures Times(PairsOfNodes(kind, incoming, nodes[i := w], |nodes|), p) ==
            Times(PairsOfNodes(kind, incoming, nodes, |nodes|), p) + Times(extra, p)
  {
    var n, parts := |nodes|, NodeParts(kind, incoming, nodes);
    assert NodeParts(kind, incoming, nodes[i := w]) == parts[i := parts[i] + extra];
    OccursFlat(parts, n, p);
    OccursFlat(parts[i := parts[i] + extra], n, p);
    OccursInUpdate(parts, i, parts[i] + extra, n, p);
    TimesConcat(parts[i], extra, p);
  }

  /** Two lists with each pair as often tally to one map. */
  lemma TalliedSame(a: seq<Pair>, b: seq<Pair>)
    requires forall p :: Times(a, p) == Times(b, p)
    ensures Tallied(a) == Tallied(b)
  {
    TallyClean(a);
    TallyClean(b);
    forall p
      ensures Count(Tallied(a), p) == Count(Tallied(b), p)
    {
      var empty: Counts<Pair> := map[];
      BumpAllCount(empty, a, |a|, 1, p);
      BumpAllCount(empty, b, |b|, 1, p);
      assert Times(a, p) == Times(b, p);
    }
    SameCounts(Tallied(a), Tallied(b));
  }

  /** The counters from scratch with one more pod are the old ones bumped by its pairs. */
  lemma TallyAdded(kind: Kind, incoming: Pod, nodes: seq<NodeView>, i: nat, pod: Pod, g: int)
    requires i < |nodes| && nodes[i].node.Some?
    ensures Tally(kind, incoming, nodes[i := AddPodTo(nodes[i], pod, g)]) ==
            Bumped(Tally(kind, incoming, nodes), PairsOfPod(kind, incoming, pod, nodes[i].node.value), 1)
  {
    PairsOfAdded(kind, incoming, nodes[i], pod, g);
    TallyExtended(kind, incoming, nodes, i, AddPodTo(nodes[i], pod, g),
      PairsOfPod(kind, incoming, pod, nodes[i].node.value));
  }

  lemma TallyExtended(kind: Kind, incoming: Pod, nodes: seq<NodeView>, i: nat, w: NodeView, extra: seq<Pair>)
    requires i < |nodes| && PairsOfNode(kind, incoming, w) == PairsOfNode(kind, incoming, nodes[i]) + extra
    ensures Tally(kind, incoming, nodes[i := w]) == Bumped(Tally(kind, incoming, nodes), extra, 1)
  {
    var keys, more := PairsOfNodes(kind, incoming, nodes, |nodes|),
      PairsOfNodes(kind, incoming, nodes[i := w], |nodes|);
    forall p
      ensures Times(more, p) == Times(keys, p) + Times(extra, p)
    {
      TimesOfNodes(kind, incoming, nodes, i, w, extra, p);
    }
    TalliedMore(keys, more, extra);
  }

  lemma TalliedMore(keys: seq<Pair>, more: seq<Pair>, extra: seq<Pair>)
    requires forall p :: Times(more, p) == Times(keys, p) + Times(extra, p)
    ensures Tallied(more) == Bumped(Tallied(keys), extra, 1)
  {
    BumpAllConcat(map[], keys, extra, |extra|, 1);
    forall p
      ensures Times(more, p) == Times(keys + extra, p)
    {
      TimesConcat(keys, extra, p);
    }
    TalliedSame(more, keys + extra);
  }

  lemma BumpedSameIff(m: Counts<Pair>, a: seq<Pair>, b: seq<Pair>)
    requires NoZero(m)
    ensures Bumped(m, a, 1) == Bumped(m, b, 1) <==> forall p :: Times(a, p) == Times(b, p)
  {
    BumpAllNoZero(m, a, |a|, 1);
    BumpAllNoZero(m, b, |b|, 1);
    if Bumped(m, a, 1) == Bumped(m, b, 1) {
      forall p
        ensures Times(a, p) == Times(b, p)
      {
        BumpAllCount(m, a, |a|, 1, p);
        BumpAllCount(m, b, |b|, 1, p);
      }
    }
    if forall p :: Times(a, p) == Times(b, p) {
      forall p
        ensures Count(Bumped(m, a, 1), p) == Count(Bumped(m, b, 1), p)
      {
        BumpAllCount(m, a, |a|, 1, p);
        BumpAllCount(m, b, |b|, 1, p);
        assert Times(a, p) == Times(b, p);
      }
      SameCounts(Bumped(m, a, 1), Bumped(m, b, 1));
    }
  }

  lemma BumpedSameAsNone(m: Counts<Pair>, b: seq<Pair>)
    requires NoZero(m)
    ensures m == Bumped(m, b, 1) <==> b == []
  {
    var none: seq<Pair> := [];
    BumpedSameIff(m, none, b);
    assert Bumped(m, none, 1) == m;
    if b != [] {
      OccursIff(b, |b|, b[0]);
      assert Times(none, b[0]) == 0;
    }
  }

  /** The existing pods' counter comes out right exactly when no term is misread. */
  lemma ForeignIff(m: Counts<Pair>, incoming: Pod, pod: Pod, node: Node)
    requires NoZero(m)
    ensures (Bumped(m, ForeignPairs(incoming, pod, node), 1)
             == Bumped(m, PairsOfPod(Existing, incoming, pod, node), 1)) <==>
            forall t :: t in AntiAffinityTermsOf(pod) ==> !Misread(incoming, pod, node, t)
  {
    var ts := AntiAffinityTermsOf(pod);
    var a, b := ForeignPairs(incoming, pod, node), PairsOfPod(Existing, incoming, pod, node);
    BumpedSameIff(m, a, b);
    if forall t :: t in ts ==> !Misread(incoming, pod, node, t) {
      forall p
        ensures Times(a, p) == Times(b, p)
      {
        ForeignAtLeast(incoming, pod, node, ts, |ts|, p);
        assert forall i :: 0 <= i < |ts| ==> ts[i] in ts;
      }
    } else {
      var t :| t in ts && Misread(incoming, pod, node, t);
      var i :| 0 <= i < |ts| && ts[i] == t;
      var p := (t.topologyKey, node.labels[t.topologyKey]);
      ForeignAtLeast(incoming, pod, node, ts, |ts|, p);
      assert PairOf(node, Processed(pod, ts[i])) == [p];
      assert Times(a, p) != Times(b, p);
    }
  }

  /** The state computed from scratch. */
  function StateOver(incoming: Pod, nodes: seq<NodeView>): PreFilterState {
    PreFilterState(Tally(Existing, incoming, nodes), Tally(OwnAffinity, incoming, nodes),
      Tally(OwnAnti, incoming, nodes))
  }

  lemma StateOverClean(incoming: Pod, nodes: seq<NodeView>)
    ensures Clean(StateOver(incoming, nodes))
  {
    TallyClean(PairsOfNodes(Existing, incoming, nodes, |nodes|));
    TallyClean(PairsOfNodes(OwnAffinity, incoming, nodes, |nodes|));
    TallyClean(PairsOfNodes(OwnAnti, incoming, nodes, |nodes|));
  }

  /** The pod names a node or has no pair with the terms of the incoming pod, and none of its
      own terms is misread. */
  predicate UpdatesRight(incoming: Pod, pod: Pod, home: Node) {
    && (pod.nodeName != "" ||
        (PairsOfPod(OwnAffinity, incoming, pod, home) == [] && PairsOfPod(OwnAnti, incoming, pod, home) == []))
    && (forall t :: t in AntiAffinityTermsOf(pod) ==> !Misread(incoming, pod, home, t))
  }

  /** Adding a pod to the counters equals computing them with the pod present if and only if
      the pod updates right. */
  lemma UpdateIsRecomputeIff(incoming: Pod, nodes: seq<NodeView>, i: nat, pod: Pod, g: int)
    requires i < |nodes| && nodes[i].node.Some?
    ensures var home, after := nodes[i].node.value, nodes[i := AddPodTo(nodes[i], pod, g)];
            UpdatedWith(StateOver(incoming, nodes), pod, incoming, home, 1) == StateOver(incoming, after) <==>
            UpdatesRight(incoming, pod, home)
  {
    var home := nodes[i].node.value;
    TallyAdded(Existing, incoming, nodes, i, pod, g);
    TallyAdded(OwnAffinity, incoming, nodes, i, pod, g);
    TallyAdded(OwnAnti, incoming, nodes, i, pod, g);
    StateOverClean(incoming, nodes);
    ForeignIff(Tally(Existing, incoming, nodes), incoming, pod, home);
    BumpedSameAsNone(Tally(OwnAffinity, incoming, nodes), PairsOfPod(OwnAffinity, incoming, pod, home));
    BumpedSameAsNone(Tally(OwnAnti, incoming, nodes), PairsOfPod(OwnAnti, incoming, pod, home));
  }
}
