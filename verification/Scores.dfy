/** Score maps by topology key and value (framework/plugins/interpodaffinity/scoring.go). */
module Scores {
  import opened Sequences
  import opened AffinityTerms

  type ScoreMap = map<string, map<string, int>>

  /** A weight under a topology pair. */
  datatype Entry = Entry(pair: Pair, weight: int)

  function Lookup(m: ScoreMap, p: Pair): int { if p.0 in m && p.1 in m[p.0] then m[p.0][p.1] else 0 }

  /** processTerm, once the term counts. */
  function Put(m: ScoreMap, e: Entry): ScoreMap {
    var scores := if e.pair.0 in m then m[e.pair.0] else map[];
    m[e.pair.0 := scores[e.pair.1 := Lookup(m, e.pair) + e.weight]]
  }

  function At(p: Pair): Entry -> int { (e: Entry) => if e.pair == p then e.weight else 0 }

  /** The map holds exactly the entries, summed by pair. */
  ghost predicate Records(m: ScoreMap, es: seq<Entry>) {
    && (forall p :: Lookup(m, p) == Sum(At(p), es, |es|))
    && (forall i :: 0 <= i < |es| ==> es[i].pair.0 in m)
  }

  lemma SumAppend<T>(f: T -> int, a: seq<T>, b: seq<T>)
    ensures Sum(f, a + b, |a + b|) == Sum(f, a, |a|) + Sum(f, b, |b|)
  {
    SumConcat(f, a, b, |b|);
  }

  lemma SumOne<T>(f: T -> int, x: T)
    ensures Sum(f, [x], 1) == f(x)
  {
    assert Sum(f, [x], 0) == 0;
  }

  lemma PutHolds(m: ScoreMap, es: seq<Entry>, e: Entry)
    requires Records(m, es)
    ensures Records(Put(m, e), es + [e])
  {
    forall p
      ensures Lookup(Put(m, e), p) == Sum(At(p), es + [e], |es + [e]|)
    {
      SumAppend(At(p), es, [e]);
      SumOne(At(p), e);
    }
  }

  /** append: scores of a topology that is new are taken over, others are added. */
  function Merged(m: ScoreMap, other: ScoreMap): ScoreMap {
    m + map t | t in other :: if t in m then Added(m[t], other[t]) else other[t]
  }

  function Added(a: map<string, int>, b: map<string, int>): map<string, int> {
    a + map v | v in b :: (if v in a then a[v] else 0) + b[v]
  }

  lemma MergedHolds(m: ScoreMap, other: ScoreMap, a: seq<Entry>, b: seq<Entry>)
    requires Records(m, a) && Records(other, b)
    ensures Records(Merged(m, other), a + b)
  {
    forall p
      ensures Lookup(Merged(m, other), p) == Sum(At(p), a + b, |a + b|)
    {
      SumAppend(At(p), a, b);
      assert Lookup(m, p) == Sum(At(p), a, |a|) && Lookup(other, p) == Sum(At(p), b, |b|);
    }
  }

  // ---- reading the score of a node ----

  /** The weight of an entry for a node with these labels, looking at some keys only. */
  function Within(labels: map<string, string>, keys: set<string>): Entry -> int {
    (e: Entry) => if e.pair.0 in keys && e.pair.0 in labels && labels[e.pair.0] == e.pair.1 then e.weight else 0
  }

  function OnLabels(labels: map<string, string>): Entry -> int {
    (e: Entry) => if e.pair.0 in labels && labels[e.pair.0] == e.pair.1 then e.weight else 0
  }

  lemma {:induction false} OneMoreKey(labels: map<string, string>, keys: set<string>, k: string, es: seq<Entry>, n: nat)
    requires k !in keys && n <= |es|
    ensures Sum(Within(labels, keys + {k}), es, n) ==
            Sum(Within(labels, keys), es, n) + if k in labels then Sum(At((k, labels[k])), es, n) else 0
  {
    if n > 0 {
      OneMoreKey(labels, keys, k, es, n - 1);
    }
  }

  lemma {:induction false} AllKeys(labels: map<string, string>, keys: set<string>, es: seq<Entry>, n: nat)
    requires n <= |es| && forall i :: 0 <= i < n ==> es[i].pair.0 in keys
    ensures Sum(Within(labels, keys), es, n) == Sum(OnLabels(labels), es, n)
  {
    if n > 0 {
      AllKeys(labels, keys, es, n - 1);
    }
  }

  lemma {:induction false} NoKeys(labels: map<string, string>, es: seq<Entry>, n: nat)
    requires n <= |es|
    ensures Sum(Within(labels, {}), es, n) == 0
  {
    if n > 0 {
      NoKeys(labels, es, n - 1);
    }
  }

  /** Score: one lookup per topology key of the map gives the sum over all entries that
      share a pair with the node. */
  method Score(m: ScoreMap, labels: map<string, string>, ghost es: seq<Entry>) returns (score: int)
    requires Records(m, es)
    ensures score == Sum(OnLabels(labels), es, |es|)
  {
    score := 0;
    var rest := m.Keys;
    NoKeys(labels, es, |es|);
    assert m.Keys - rest == {};
    while rest != {}
      invariant rest <= m.Keys && score == Sum(Within(labels, m.Keys - rest), es, |es|)
    {
      var key :| key in rest;
      OneMoreKey(labels, m.Keys - rest, key, es, |es|);
      assert m.Keys - (rest - {key}) == (m.Keys - rest) + {key};
      rest := rest - {key};
      if key in labels {
        assert Lookup(m, (key, labels[key])) == Sum(At((key, labels[key])), es, |es|);
        score := score + Lookup(m, (key, labels[key]));
      }
    }
    assert m.Keys - rest == m.Keys;
    AllKeys(labels, m.Keys, es, |es|);
  }

  /** Per-node maps may be merged in any order. */
  lemma OrderIrrelevant(m: ScoreMap, k: ScoreMap, a: seq<Entry>, b: seq<Entry>, p: Pair)
    requires Records(m, a) && Records(k, b) && multiset(a) == multiset(b)
    ensures Lookup(m, p) == Lookup(k, p)
  {
    SumOfMultiset(At(p), a, b);
  }
}
