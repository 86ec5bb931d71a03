/** Facts about sequences that several components use: sums of a weight and
    removal by swapping with the last element. */
module Sequences {
  /** The weight of the first n elements. */
  function Sum<T>(f: T -> int, s: seq<T>, n: nat): int
    requires n <= |s|
  {
    if n == 0 then 0 else Sum(f, s, n - 1) + f(s[n - 1])
  }

  lemma {:induction false} SumDominates<T>(f: T -> int, g: T -> int, s: seq<T>, n: nat)
    requires n <= |s| && forall i :: 0 <= i < n ==> f(s[i]) >= g(s[i])
    ensures Sum(f, s, n) >= Sum(g, s, n)
  {
    if n > 0 {
      SumDominates(f, g, s, n - 1);
    }
  }

  lemma {:induction false} SumPrefix<T>(f: T -> int, a: seq<T>, b: seq<T>, n: nat)
    requires n <= |a| && n <= |b| && forall i :: 0 <= i < n ==> a[i] == b[i]
    ensures Sum(f, a, n) == Sum(f, b, n)
  {
    if n > 0 {
      SumPrefix(f, a, b, n - 1);
    }
  }

  /** Two sequences that differ in one element. */
  lemma {:induction false} SumReplace<T>(f: T -> int, s: seq<T>, t: seq<T>, i: nat, n: nat)
    requires i < n <= |s| && n <= |t| && forall j :: 0 <= j < n && j != i ==> s[j] == t[j]
    ensures Sum(f, t, n) == Sum(f, s, n) - f(s[i]) + f(t[i])
  {
    if i == n - 1 {
      SumPrefix(f, s, t, n - 1);
    } else {
      SumReplace(f, s, t, i, n - 1);
    }
  }

  lemma {:induction false} SumConcat<T>(f: T -> int, a: seq<T>, b: seq<T>, n: nat)
    requires n <= |b|
    ensures Sum(f, a + b, |a| + n) == Sum(f, a, |a|) + Sum(f, b, n)
  {
    if n == 0 {
      SumPrefix(f, a + b, a, |a|);
    } else {
      SumConcat(f, a, b, n - 1);
    }
  }

  /** The slice with element i overwritten by the last one and cut by one. */
  function SwapDelete<T>(s: seq<T>, i: nat): seq<T>
    requires i < |s|
  {
    s[i := s[|s| - 1]][..|s| - 1]
  }

  lemma SwapDeleteAt<T>(s: seq<T>, i: nat)
    requires i < |s|
    ensures |SwapDelete(s, i)| == |s| - 1
    ensures forall j :: 0 <= j < |s| - 1 ==> SwapDelete(s, i)[j] == if j == i then s[|s| - 1] else s[j]
  {
  }

  /** d is s with the last element moved to place i. */
  lemma SumCut<T>(f: T -> int, s: seq<T>, d: seq<T>, i: nat)
    requires i < |s| && |d| == |s| - 1
    requires forall j :: 0 <= j < |d| ==> d[j] == if j == i then s[|s| - 1] else s[j]
    ensures Sum(f, d, |s| - 1) == Sum(f, s, |s|) - f(s[i])
  {
    var n := |d|;
    if i == n {
      SumPrefix(f, s, d, n);
    } else {
      SumReplace(f, s, d, i, n);
    }
  }

  lemma SumSwapDelete<T>(f: T -> int, s: seq<T>, i: nat)
    requires i < |s|
    ensures Sum(f, SwapDelete(s, i), |s| - 1) == Sum(f, s, |s|) - f(s[i])
  {
    SwapDeleteAt(s, i);
    SumCut(f, s, SwapDelete(s, i), i);
  }

  lemma SwapDeleteMultiset<T>(s: seq<T>, i: nat)
    requires i < |s|
    ensures multiset(SwapDelete(s, i)) == multiset(s) - multiset{s[i]}
  {
    var n, last := |s| - 1, s[|s| - 1];
    var t := s[i := last];
    assert t == SwapDelete(s, i) + [last];
    assert multiset(t) == multiset(SwapDelete(s, i)) + multiset([last]);
    MultisetUpdate(s, i, last);
    var a, b := multiset(SwapDelete(s, i)), multiset(s) - multiset{s[i]};
    assert a + multiset{last} == b + multiset{last};
    assert a == (a + multiset{last}) - multiset{last};
  }

  lemma MultisetUpdate<T>(s: seq<T>, i: nat, x: T)
    requires i < |s|
    ensures multiset(s[i := x]) == multiset(s) - multiset{s[i]} + multiset{x}
  {
    assert s == s[..i] + [s[i]] + s[i + 1..];
    assert s[i := x] == s[..i] + [x] + s[i + 1..];
  }

  /** A sum depends on the elements, not on their order. */
  lemma {:induction false} SumOfMultiset<T>(f: T -> int, a: seq<T>, b: seq<T>)
    requires multiset(a) == multiset(b)
    ensures |a| == |b| && Sum(f, a, |a|) == Sum(f, b, |b|)
    decreases |a|
  {
    assert |multiset(a)| == |a| && |multiset(b)| == |b|;
    if a != [] {
      var n := |a| - 1;
      assert a[n] in multiset(b);
      var j :| 0 <= j < |b| && b[j] == a[n];
      assert a == a[..n] + [a[n]];
      SwapDeleteMultiset(b, j);
      SumOfMultiset(f, a[..n], SwapDelete(b, j));
      SumSwapDelete(f, b, j);
      SumPrefix(f, a[..n], a, n);
    }
  }

  /** What the first n elements give, one behind the other. */
  function Gather<S, T>(g: S -> seq<T>, s: seq<S>, n: nat): seq<T>
    requires n <= |s|
  {
    if n == 0 then [] else Gather(g, s, n - 1) + g(s[n - 1])
  }

  lemma {:induction false} SumGather<S, T>(f: T -> int, g: S -> seq<T>, s: seq<S>, n: nat, total: S -> int)
    requires n <= |s| && forall x :: x in s ==> Sum(f, g(x), |g(x)|) == total(x)
    ensures Sum(f, Gather(g, s, n), |Gather(g, s, n)|) == Sum(total, s, n)
  {
    if n > 0 {
      SumGather(f, g, s, n - 1, total);
      SumConcat(f, Gather(g, s, n - 1), g(s[n - 1]), |g(s[n - 1])|);
      assert s[n - 1] in s;
    }
  }

  /** The elements that are kept, in order. */
  function Filter<T>(keep: T -> bool, s: seq<T>, n: nat): seq<T>
    requires n <= |s|
  {
    if n == 0 then []
    else if keep(s[n - 1]) then Filter(keep, s, n - 1) + [s[n - 1]]
    else Filter(keep, s, n - 1)
  }

  lemma {:induction false} FilterInside<T>(keep: T -> bool, s: seq<T>, n: nat)
    requires n <= |s|
    ensures forall x :: x in Filter(keep, s, n) ==> x in s
  {
    if n > 0 {
      FilterInside(keep, s, n - 1);
    }
  }

  lemma {:induction false} InFilter<T>(keep: T -> bool, s: seq<T>, n: nat, x: T)
    requires n <= |s|
    ensures x in Filter(keep, s, n) <==> keep(x) && x in s[..n]
  {
    if n > 0 {
      InFilter(keep, s, n - 1, x);
      assert s[..n] == s[..n - 1] + [s[n - 1]];
    }
  }

  /** Elements without weight may be left out of a sum. */
  lemma {:induction false} SumFilter<T(!new)>(f: T -> int, keep: T -> bool, s: seq<T>, n: nat)
    requires n <= |s| && forall x :: !keep(x) ==> f(x) == 0
    ensures Sum(f, Filter(keep, s, n), |Filter(keep, s, n)|) == Sum(f, s, n)
  {
    if n > 0 {
      SumFilter(f, keep, s, n - 1);
      if keep(s[n - 1]) {
        var r := Filter(keep, s, n - 1);
        SumPrefix(f, r + [s[n - 1]], r, |r|);
      }
    }
  }

  lemma {:induction false} FilterMultiset<T>(keep: T -> bool, s: seq<T>, n: nat, x: T)
    requires n <= |s|
    ensures multiset(Filter(keep, s, n))[x] == if keep(x) then multiset(s[..n])[x] else 0
  {
    if n > 0 {
      FilterMultiset(keep, s, n - 1, x);
      assert s[..n] == s[..n - 1] + [s[n - 1]];
    }
  }

  // ---- lists without repetition ----

  predicate NoDuplicates<T(==)>(s: seq<T>) { forall i, j :: 0 <= i < j < |s| ==> s[i] != s[j] }

  lemma AppendOnce<T>(s: seq<T>, x: T)
    ensures NoDuplicates(s + [x]) <==> NoDuplicates(s) && x !in s
  {
    var t := s + [x];
    assert forall i :: 0 <= i < |s| ==> t[i] == s[i];
    if NoDuplicates(t) {
      assert forall i :: 0 <= i < |s| ==> t[i] != t[|s|];
      assert x !in s;
    }
  }

  /** No repetition means that every element counts once. */
  lemma {:induction false} NoDuplicatesMultiset<T>(s: seq<T>)
    ensures NoDuplicates(s) <==> forall x :: x in s ==> multiset(s)[x] == 1
    decreases |s|
  {
    if s != [] {
      var r, y := s[..|s| - 1], s[|s| - 1];
      NoDuplicatesMultiset(r);
      assert s == r + [y];
      AppendOnce(r, y);
      if forall x :: x in s ==> multiset(s)[x] == 1 {
        assert y in s && multiset(r)[y] == 0;
        forall x | x in r
          ensures multiset(r)[x] == 1
        {
          assert x in s && x in multiset(r);
        }
      }
    }
  }

  /** So repetition does not depend on the order. */
  lemma SameMultiset<T>(a: seq<T>, b: seq<T>)
    requires multiset(a) == multiset(b)
    ensures NoDuplicates(a) <==> NoDuplicates(b)
  {
    NoDuplicatesMultiset(a);
    NoDuplicatesMultiset(b);
    assert forall x :: x in a <==> x in multiset(a);
    assert forall x :: x in b <==> x in multiset(b);
  }

  /** Index of the first occurrence, or the length. */
  function IndexOf<T(==)>(s: seq<T>, x: T, from: nat): (i: nat)
    requires from <= |s|
    ensures from <= i <= |s|
    ensures i < |s| ==> s[i] == x
    ensures forall j :: from <= j < i ==> s[j] != x
    decreases |s| - from
  {
    if from == |s| || s[from] == x then from else IndexOf(s, x, from + 1)
  }

  /** The list without the first occurrence of x. */
  function Without<T(==)>(s: seq<T>, x: T): seq<T> {
    var i := IndexOf(s, x, 0);
    if i < |s| then s[..i] + s[i + 1..] else s
  }

  lemma WithoutRemoves<T>(s: seq<T>, x: T)
    requires NoDuplicates(s)
    ensures NoDuplicates(Without(s, x))
    ensures forall y :: y in Without(s, x) <==> y in s && y != x
  {
    var i := IndexOf(s, x, 0);
    if i < |s| {
      var w := Without(s, x);
      forall y | y in s && y != x
        ensures y in w
      {
        var k :| 0 <= k < |s| && s[k] == y;
        assert w[if k < i then k else k - 1] == y;
      }
    }
  }

  lemma NoDuplicatesAppend<T>(s: seq<T>, x: T)
    requires NoDuplicates(s) && x !in s
    ensures NoDuplicates(s + [x])
    ensures forall y :: y in s + [x] <==> y in s || y == x
  {
  }

  // ---- lists by decreasing stamp ----

  function ToFront<T(==)>(order: seq<T>, x: T): seq<T> { [x] + Without(order, x) }

  /** Every key once, from the newest stamp to the oldest, none above the bound. */
  ghost predicate Decreasing<T(!new)>(order: seq<T>, stamps: map<T, int>, bound: int) {
    && NoDuplicates(order)
    && (forall n :: n in order <==> n in stamps)
    && (forall i, j :: 0 <= i < j < |order| ==> stamps[order[i]] > stamps[order[j]])
    && (forall n :: n in stamps ==> stamps[n] <= bound)
  }

  lemma WithoutAt<T>(s: seq<T>, x: T, i: nat)
    requires i < |Without(s, x)|
    ensures var k := if i < IndexOf(s, x, 0) then i else i + 1; k < |s| && Without(s, x)[i] == s[k]
  {
  }

  /** Leaving one element out keeps the order of the others. */
  lemma WithoutKeepsOrder<T>(order: seq<T>, x: T, i: nat, j: nat) returns (a: nat, b: nat)
    requires i < j < |Without(order, x)|
    ensures a < b < |order| && order[a] == Without(order, x)[i] && order[b] == Without(order, x)[j]
  {
    var k := IndexOf(order, x, 0);
    WithoutAt(order, x, i);
    WithoutAt(order, x, j);
    a, b := if i < k then i else i + 1, if j < k then j else j + 1;
  }

  lemma WithoutDecreasing<T(!new)>(order: seq<T>, stamps: map<T, int>, bound: int, x: T)
    requires Decreasing(order, stamps, bound)
    ensures Decreasing(Without(order, x), stamps - {x}, bound)
  {
    var w := Without(order, x);
    WithoutRemoves(order, x);
    forall i, j | 0 <= i < j < |w|
      ensures stamps[w[i]] > stamps[w[j]] && w[i] != x && w[j] != x
    {
      assert w[i] in w && w[j] in w;
      var a, b := WithoutKeepsOrder(order, x, i, j);
    }
  }

  lemma PrependDecreasing<T(!new)>(w: seq<T>, stamps: map<T, int>, bound: int, x: T, g: int)
    requires Decreasing(w, stamps, bound) && g > bound && x !in w
    ensures Decreasing([x] + w, stamps[x := g], g)
  {
    var f, h := [x] + w, stamps[x := g];
    forall j | 0 < j < |f|
      ensures f[j] == w[j - 1] && f[j] in stamps && f[j] != x && h[f[j]] == stamps[w[j - 1]]
    {
      assert w[j - 1] in w;
    }
    assert forall n :: n in f <==> n == x || n in w;
  }

  lemma ToFrontDecreasing<T(!new)>(order: seq<T>, stamps: map<T, int>, bound: int, x: T, g: int)
    requires Decreasing(order, stamps, bound) && g > bound
    ensures Decreasing(ToFront(order, x), stamps[x := g], g)
  {
    WithoutRemoves(order, x);
    WithoutDecreasing(order, stamps, bound, x);
    PrependDecreasing(Without(order, x), stamps - {x}, bound, x, g);
    assert (stamps - {x})[x := g] == stamps[x := g];
  }

  // ---- unions of a list of sets ----

  /** The union of the first n sets. */
  ghost function Union<T>(sets: seq<set<T>>, n: nat): set<T>
    requires n <= |sets|
  {
    if n == 0 then {} else Union(sets, n - 1) + sets[n - 1]
  }

  lemma {:induction false} InUnion<T>(sets: seq<set<T>>, n: nat, x: T)
    requires n <= |sets|
    ensures x in Union(sets, n) <==> exists i :: 0 <= i < n && x in sets[i]
  {
    if n > 0 {
      InUnion(sets, n - 1, x);
    }
  }

  lemma {:induction false} UnionPrefix<T>(a: seq<set<T>>, b: seq<set<T>>, n: nat)
    requires n <= |a| && n <= |b| && forall i :: 0 <= i < n ==> a[i] == b[i]
    ensures Union(a, n) == Union(b, n)
  {
    if n > 0 {
      UnionPrefix(a, b, n - 1);
    }
  }

  lemma InUnionBeside<T>(sets: seq<set<T>>, i: nat, x: T)
    requires i < |sets|
    ensures x in Union(SwapDelete(sets, i), |sets| - 1) <==> exists j :: 0 <= j < |sets| && j != i && x in sets[j]
  {
    var rest, n := SwapDelete(sets, i), |sets| - 1;
    InUnion(rest, n, x);
    if j :| 0 <= j < n && x in rest[j] {
      assert rest[j] == sets[if j == i then n else j];
    }
    if j :| 0 <= j < |sets| && j != i && x in sets[j] {
      assert rest[if j == n then i else j] == sets[j];
    }
  }

  /** Taking the elements of one set out of the union leaves the union of the others if and
      only if it shares none with them. */
  lemma UnionWithoutIff<T(!new)>(sets: seq<set<T>>, i: nat)
    requires i < |sets|
    ensures Union(sets, |sets|) - sets[i] == Union(SwapDelete(sets, i), |sets| - 1) <==>
            forall j :: 0 <= j < |sets| && j != i ==> sets[j] !! sets[i]
  {
    var all, others := Union(sets, |sets|), Union(SwapDelete(sets, i), |sets| - 1);
    forall x
      ensures x in all <==> x in others || x in sets[i]
    {
      InUnion(sets, |sets|, x);
      InUnionBeside(sets, i, x);
    }
    forall x | x in sets[i]
      ensures x in others <==> exists j :: 0 <= j < |sets| && j != i && x in sets[j]
    {
      InUnionBeside(sets, i, x);
    }
  }
}
