/** Affinity terms and the topology pairs they contribute
    (framework/plugins/interpodaffinity/filtering.go, scheduler/util/topologies.go). */
module AffinityTerms {
  import opened Api

  type Pair = (string, string)

  /** A term as getAffinityTerms processes it. */
  datatype Term = Term(namespaces: set<string>, selector: LabelSelector, topologyKey: string)

  /** GetNamespacesFromPodAffinityTerm: no namespaces stand for that of the owner. */
  function Namespaces(owner: Pod, t: AffinityTerm): set<string> {
    if t.namespaces == [] then {owner.namespace} else set n | n in t.namespaces
  }

  function Processed(owner: Pod, t: AffinityTerm): Term { Term(Namespaces(owner, t), t.selector, t.topologyKey) }

  predicate Convertible(ts: seq<AffinityTerm>) { forall i :: 0 <= i < |ts| ==> !ts[i].selector.Malformed? }

  function AllProcessed(owner: Pod, ts: seq<AffinityTerm>): (r: seq<Term>)
    ensures |r| == |ts|
  {
    seq(|ts|, i requires 0 <= i < |ts| => Processed(owner, ts[i]))
  }

  /** getAffinityTerms; absent on a selector that cannot be converted. */
  method GetAffinityTerms(owner: Pod, ts: seq<AffinityTerm>) returns (r: Option<seq<Term>>)
    ensures r == if Convertible(ts) then Some(AllProcessed(owner, ts)) else None
  {
    var terms: seq<Term> := [];
    for i := 0 to |ts|
      invariant Convertible(ts[..i]) && terms == AllProcessed(owner, ts[..i])
    {
      assert ts[..i + 1] == ts[..i] + [ts[i]];
      if ts[i].selector.Malformed? {
        return None;
      }
      terms := terms + [Processed(owner, ts[i])];
    }
    assert ts[..|ts|] == ts;
    r := Some(terms);
  }

  function AffinityTermsOf(pod: Pod): seq<AffinityTerm> {
    if pod.affinity.podAffinity.Some? then pod.affinity.podAffinity.value.required else []
  }

  function AntiAffinityTermsOf(pod: Pod): seq<AffinityTerm> {
    if pod.affinity.podAntiAffinity.Some? then pod.affinity.podAntiAffinity.value.required else []
  }

  /** PodMatchesTermsNamespaceAndSelector. */
  predicate Matches(pod: Pod, t: Term) { pod.namespace in t.namespaces && t.selector.Matches(pod.labels) }

  /** The term selects the pod: it is in a namespace that the term names, or, if it names none,
      in that of the owner, and its labels meet the selector. */
  predicate Selects(owner: Pod, t: AffinityTerm, target: Pod) {
    && (if t.namespaces == [] then target.namespace == owner.namespace else target.namespace in t.namespaces)
    && t.selector.Matches(target.labels)
  }

  /** The rules have the term as a hard one. */
  predicate Demands(rules: Option<AffinityRules>, t: AffinityTerm) { rules.Some? && t in rules.value.required }

  /** There is a hard affinity term, and each of them selects the pod. */
  ghost predicate SelectedByAll(owner: Pod, target: Pod) {
    var rules := owner.affinity.podAffinity;
    rules.Some? && rules.value.required != [] && forall t :: t in rules.value.required ==> Selects(owner, t, target)
  }

  /** A processed term matches what the term selects. */
  lemma MatchesIffSelects(owner: Pod, t: AffinityTerm, target: Pod)
    ensures Matches(target, Processed(owner, t)) <==> Selects(owner, t, target)
    ensures Processed(owner, t).topologyKey == t.topologyKey
  {
  }

  /** podMatchesAllAffinityTerms: without terms nothing matches. */
  predicate MatchesAll(pod: Pod, ts: seq<Term>) { |ts| > 0 && forall i :: 0 <= i < |ts| ==> Matches(pod, ts[i]) }

  /** The topology pair of the node under the key of the term, if it has one. */
  function PairOf(node: Node, t: Term): seq<Pair> {
    if t.topologyKey in node.labels then [(t.topologyKey, node.labels[t.topologyKey])] else []
  }

  /** What the first n terms contribute for a pod that matches all of them. */
  function AffinityPairs(node: Node, ts: seq<Term>, n: nat): seq<Pair>
    requires n <= |ts|
  {
    if n == 0 then [] else AffinityPairs(node, ts, n - 1) + PairOf(node, ts[n - 1])
  }

  /** What the first n terms contribute, each that the target matches. */
  function AntiPairs(target: Pod, node: Node, ts: seq<Term>, n: nat): seq<Pair>
    requires n <= |ts|
  {
    if n == 0 then []
    else AntiPairs(target, node, ts, n - 1) + if Matches(target, ts[n - 1]) then PairOf(node, ts[n - 1]) else []
  }

  lemma SomeMatchesIff(owner: Pod, ts: seq<AffinityTerm>, target: Pod, key: string)
    ensures (exists t :: t in AllProcessed(owner, ts) && Matches(target, t) && t.topologyKey == key) <==>
            (exists t :: t in ts && Selects(owner, t, target) && t.topologyKey == key)
  {
    var ps := AllProcessed(owner, ts);
    if t :| t in ps && Matches(target, t) && t.topologyKey == key {
      var i :| 0 <= i < |ts| && ps[i] == t;
      MatchesIffSelects(owner, ts[i], target);
    }
    if t :| t in ts && Selects(owner, t, target) && t.topologyKey == key {
      var i :| 0 <= i < |ts| && ts[i] == t;
      MatchesIffSelects(owner, t, target);
      assert ps[i] in ps;
    }
  }

  lemma KeyNamedIff(owner: Pod, ts: seq<AffinityTerm>, key: string)
    ensures (exists t :: t in AllProcessed(owner, ts) && t.topologyKey == key) <==>
            (exists t :: t in ts && t.topologyKey == key)
  {
    var ps := AllProcessed(owner, ts);
    if t :| t in ts && t.topologyKey == key {
      var i :| 0 <= i < |ts| && ts[i] == t;
      assert ps[i] in ps;
    }
  }

  lemma MatchesAllIff(owner: Pod, target: Pod)
    ensures MatchesAll(target, AllProcessed(owner, AffinityTermsOf(owner))) <==> SelectedByAll(owner, target)
  {
    var ts := AffinityTermsOf(owner);
    var ps := AllProcessed(owner, ts);
    forall i | 0 <= i < |ts|
      ensures Matches(target, ps[i]) <==> Selects(owner, ts[i], target)
    {
      MatchesIffSelects(owner, ts[i], target);
    }
    if MatchesAll(target, ps) {
      forall t | t in ts
        ensures Selects(owner, t, target)
      {
        var i :| 0 <= i < |ts| && ts[i] == t;
      }
    }
  }

  predicate SameTopology(a: Node, b: Node, key: string) {
    key in a.labels && key in b.labels && a.labels[key] == b.labels[key]
  }

  predicate OnPair(node: Node, p: Pair) { p.0 in node.labels && node.labels[p.0] == p.1 }

  lemma {:induction false} InAffinityPairs(node: Node, ts: seq<Term>, n: nat, p: Pair)
    requires n <= |ts|
    ensures p in AffinityPairs(node, ts, n) <==> OnPair(node, p) && exists i :: 0 <= i < n && ts[i].topologyKey == p.0
  {
    if n > 0 {
      InAffinityPairs(node, ts, n - 1, p);
    }
  }

  lemma {:induction false} InAntiPairs(target: Pod, node: Node, ts: seq<Term>, n: nat, p: Pair)
    requires n <= |ts|
    ensures p in AntiPairs(target, node, ts, n) <==>
            OnPair(node, p) && exists i :: 0 <= i < n && ts[i].topologyKey == p.0 && Matches(target, ts[i])
  {
    if n > 0 {
      InAntiPairs(target, node, ts, n - 1, p);
    }
  }
}
