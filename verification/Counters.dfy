/** Counters by key that are bumped in place and never hold a zero
    (framework/plugins/interpodaffinity/filtering.go, topologyToMatchedTermCount). */
module Counters {
  type Counts<K> = map<K, int>

  function Count<K>(m: Counts<K>, k: K): int { if k in m then m[k] else 0 }

  predicate NoZero<K>(m: Counts<K>) { forall k :: k in m ==> m[k] != 0 }

  predicate AllPositive<K>(m: Counts<K>) { forall k :: k in m ==> m[k] > 0 }

  /** Adding to one entry, which is deleted when it comes down to zero. */
  function Bump<K>(m: Counts<K>, k: K, value: int): Counts<K> {
    if Count(m, k) + value == 0 then m - {k} else m[k := Count(m, k) + value]
  }

  /** Adding the same value to the first n keys of a list, one after the other. */
  function BumpAll<K>(m: Counts<K>, keys: seq<K>, n: nat, value: int): Counts<K>
    requires n <= |keys|
  {
    if n == 0 then m else Bump(BumpAll(m, keys, n - 1, value), keys[n - 1], value)
  }

  /** How often a key stands in a list. */
  function Occurs<K(==)>(keys: seq<K>, n: nat, k: K): nat
    requires n <= |keys|
  {
    if n == 0 then 0 else Occurs(keys, n - 1, k) + if keys[n - 1] == k then 1 else 0
  }

  lemma {:induction false} BumpAllCount<K>(m: Counts<K>, keys: seq<K>, n: nat, value: int, k: K)
    requires n <= |keys|
    ensures Count(BumpAll(m, keys, n, value), k) == Count(m, k) + value * Occurs(keys, n, k)
  {
    if n > 0 {
      BumpAllCount(m, keys, n - 1, value, k);
      Distribute(value, Occurs(keys, n - 1, k), if keys[n - 1] == k then 1 else 0);
    }
  }

  lemma Distribute(a: int, b: int, c: int)
    ensures a * (b + c) == a * b + a * c
  {
  }

  lemma {:induction false} BumpAllNoZero<K>(m: Counts<K>, keys: seq<K>, n: nat, value: int)
    requires NoZero(m) && n <= |keys|
    ensures NoZero(BumpAll(m, keys, n, value))
  {
    if n > 0 {
      BumpAllNoZero(m, keys, n - 1, value);
    }
  }

  lemma {:induction false} BumpAllPositive<K>(m: Counts<K>, keys: seq<K>, n: nat, value: int)
    requires AllPositive(m) && n <= |keys| && value > 0
    ensures AllPositive(BumpAll(m, keys, n, value))
  {
    if n > 0 {
      BumpAllPositive(m, keys, n - 1, value);
    }
  }

  /** Without zeros the counts determine the map. */
  lemma SameCounts<K(!new)>(a: Counts<K>, b: Counts<K>)
    requires NoZero(a) && NoZero(b) && forall k :: Count(a, k) == Count(b, k)
    ensures a == b
  {
    forall k
      ensures k in a <==> k in b
    {
      assert Count(a, k) == Count(b, k);
    }
    forall k | k in a
      ensures a[k] == b[k]
    {
      assert Count(a, k) == Count(b, k);
    }
  }

  lemma {:induction false} OccursConcat<K>(a: seq<K>, b: seq<K>, n: nat, k: K)
    requires n <= |b|
    ensures Occurs(a + b, |a| + n, k) == Occurs(a, |a|, k) + Occurs(b, n, k)
  {
    if n == 0 {
      OccursPrefix(a + b, a, |a|, k);
    } else {
      OccursConcat(a, b, n - 1, k);
    }
  }

  lemma {:induction false} OccursPrefix<K>(a: seq<K>, b: seq<K>, n: nat, k: K)
    requires n <= |a| && n <= |b| && forall i :: 0 <= i < n ==> a[i] == b[i]
    ensures Occurs(a, n, k) == Occurs(b, n, k)
  {
    if n > 0 {
      OccursPrefix(a, b, n - 1, k);
    }
  }

  lemma {:induction false} OccursIff<K>(keys: seq<K>, n: nat, k: K)
    requires n <= |keys|
    ensures Occurs(keys, n, k) > 0 <==> exists i :: 0 <= i < n && keys[i] == k
  {
    if n > 0 {
      OccursIff(keys, n - 1, k);
    }
  }

  lemma {:induction false} OccursIsMultiplicity<K>(keys: seq<K>, n: nat, k: K)
    requires n <= |keys|
    ensures Occurs(keys, n, k) == multiset(keys[..n])[k]
  {
    if n > 0 {
      OccursIsMultiplicity(keys, n - 1, k);
      assert keys[..n] == keys[..n - 1] + [keys[n - 1]];
    }
  }

  /** Bumping up and down again restores the map. */
  lemma BumpBack<K(!new)>(m: Counts<K>, keys: seq<K>, value: int)
    requires NoZero(m)
    ensures BumpAll(BumpAll(m, keys, |keys|, value), keys, |keys|, -value) == m
  {
    var t := BumpAll(m, keys, |keys|, value);
    var u := BumpAll(t, keys, |keys|, -value);
    BumpAllNoZero(m, keys, |keys|, value);
    BumpAllNoZero(t, keys, |keys|, -value);
    forall k
      ensures Count(u, k) == Count(m, k)
    {
      BumpAllCount(m, keys, |keys|, value, k);
      BumpAllCount(t, keys, |keys|, -value, k);
      Negate(value, Occurs(keys, |keys|, k));
    }
    SameCounts(u, m);
  }

  lemma Negate(a: int, b: int)
    ensures a * b + (-a) * b == 0
  {
  }

  /** Only how often each key comes matters, not in which order. */
  lemma OrderIrrelevant<K(!new)>(m: Counts<K>, a: seq<K>, b: seq<K>, value: int)
    requires NoZero(m) && multiset(a) == multiset(b)
    ensures BumpAll(m, a, |a|, value) == BumpAll(m, b, |b|, value)
  {
    BumpAllNoZero(m, a, |a|, value);
    BumpAllNoZero(m, b, |b|, value);
    forall k
      ensures Count(BumpAll(m, a, |a|, value), k) == Count(BumpAll(m, b, |b|, value), k)
    {
      BumpAllCount(m, a, |a|, value, k);
      BumpAllCount(m, b, |b|, value, k);
      OccursIsMultiplicity(a, |a|, k);
      OccursIsMultiplicity(b, |b|, k);
      assert a[..|a|] == a && b[..|b|] == b;
    }
    SameCounts(BumpAll(m, a, |a|, value), BumpAll(m, b, |b|, value));
  }

  lemma {:induction false} BumpAllConcat<K>(m: Counts<K>, a: seq<K>, b: seq<K>, n: nat, value: int)
    requires n <= |b|
    ensures BumpAll(m, a + b, |a| + n, value) == BumpAll(BumpAll(m, a, |a|, value), b, n, value)
  {
    if n == 0 {
      BumpAllPrefix(m, a + b, a, |a|, value);
    } else {
      BumpAllConcat(m, a, b, n - 1, value);
    }
  }

  lemma {:induction false} BumpAllPrefix<K>(m: Counts<K>, a: seq<K>, b: seq<K>, n: nat, value: int)
    requires n <= |a| && n <= |b| && forall i :: 0 <= i < n ==> a[i] == b[i]
    ensures BumpAll(m, a, n, value) == BumpAll(m, b, n, value)
  {
    if n > 0 {
      BumpAllPrefix(m, a, b, n - 1, value);
    }
  }

  // ---- lists of lists ----

  /** The first n lists one behind the other. */
  function Flat<K>(parts: seq<seq<K>>, n: nat): seq<K>
    requires n <= |parts|
  {
    if n == 0 then [] else Flat(parts, n - 1) + parts[n - 1]
  }

  lemma {:induction false} FlatPrefix<K>(a: seq<seq<K>>, b: seq<seq<K>>, n: nat)
    requires n <= |a| && n <= |b| && forall i :: 0 <= i < n ==> a[i] == b[i]
    ensures Flat(a, n) == Flat(b, n)
  {
    if n > 0 {
      FlatPrefix(a, b, n - 1);
    }
  }

  lemma {:induction false} InFlat<K>(parts: seq<seq<K>>, n: nat, k: K)
    requires n <= |parts|
    ensures k in Flat(parts, n) <==> exists i :: 0 <= i < n && k in parts[i]
  {
    if n > 0 {
      InFlat(parts, n - 1, k);
    }
  }

  /** How often a key stands in the first n lists. */
  function OccursIn<K(==)>(parts: seq<seq<K>>, n: nat, k: K): nat
    requires n <= |parts|
  {
    if n == 0 then 0 else OccursIn(parts, n - 1, k) + Occurs(parts[n - 1], |parts[n - 1]|, k)
  }

  lemma {:induction false} OccursFlat<K>(parts: seq<seq<K>>, n: nat, k: K)
    requires n <= |parts|
    ensures Occurs(Flat(parts, n), |Flat(parts, n)|, k) == OccursIn(parts, n, k)
  {
    if n > 0 {
      OccursFlat(parts, n - 1, k);
      OccursConcat(Flat(parts, n - 1), parts[n - 1], |parts[n - 1]|, k);
    }
  }

  lemma {:induction false} OccursInUpdate<K>(parts: seq<seq<K>>, i: nat, part: seq<K>, n: nat, k: K)
    requires n <= |parts| && i < |parts|
    ensures OccursIn(parts[i := part], n, k) ==
            OccursIn(parts, n, k) + if i < n then Occurs(part, |part|, k) - Occurs(parts[i], |parts[i]|, k) else 0
  {
    if n > 0 {
      OccursInUpdate(parts, i, part, n - 1, k);
    }
  }

  // ---- merging ----

  /** append: entry by entry; a sum of zero would stay in the map. */
  function Merged<K>(m: Counts<K>, d: Counts<K>): Counts<K> {
    m + map k | k in d :: Count(m, k) + d[k]
  }

  /** Merging the tally of a list of keys is tallying the list on top. */
  lemma MergeTally<K(!new)>(m: Counts<K>, keys: seq<K>)
    requires AllPositive(m)
    ensures Merged(m, BumpAll(map[], keys, |keys|, 1)) == BumpAll(m, keys, |keys|, 1)
    ensures AllPositive(BumpAll(m, keys, |keys|, 1))
  {
    var empty: Counts<K> := map[];
    var d, t := BumpAll(empty, keys, |keys|, 1), BumpAll(m, keys, |keys|, 1);
    BumpAllPositive(empty, keys, |keys|, 1);
    BumpAllPositive(m, keys, |keys|, 1);
    forall k
      ensures Count(Merged(m, d), k) == Count(t, k)
    {
      BumpAllCount(empty, keys, |keys|, 1, k);
      BumpAllCount(m, keys, |keys|, 1, k);
    }
    SameCounts(Merged(m, d), t);
  }

  method Append<K>(m: Counts<K>, toAppend: Counts<K>) returns (r: Counts<K>)
    ensures r == Merged(m, toAppend)
  {
    r := m;
    var rest := toAppend.Keys;
    while rest != {}
      invariant rest <= toAppend.Keys
      invariant r == m + map k | k in toAppend && k !in rest :: Count(m, k) + toAppend[k]
    {
      var k :| k in rest;
      r := r[k := Count(r, k) + toAppend[k]];
      rest := rest - {k};
    }
  }
}
