/** Why the greedy choice of the smallest fitting volume binds as many claims as possible
    (pkg/controller/volume/scheduling/scheduler_binder.go, findMatchingVolumes). */
module GreedyMatching {
  import opened Api

  /** For each claim the volume it gets, if any. */
  type Assignment<V> = seq<Option<V>>

  function Count<V>(a: Assignment<V>): nat {
    if a == [] then 0 else (if a[0].Some? then 1 else 0) + Count(a[1..])
  }

  /** Claim i may take the volumes of fits[i]; none is taken twice, and none of `used`. */
  ghost predicate Valid<V>(fits: seq<set<V>>, a: Assignment<V>, used: set<V>) {
    && |a| == |fits|
    && (forall i :: 0 <= i < |a| && a[i].Some? ==> a[i].value in fits[i] && a[i].value !in used)
    && (forall i, j :: 0 <= i < j < |a| && a[i].Some? && a[j].Some? ==> a[i].value != a[j].value)
  }

  function Taken<V>(o: Option<V>): set<V> { if o.Some? then {o.value} else {} }

  /** Each claim in turn takes a smallest volume that fits and is left, and goes without
      only when none is. */
  ghost predicate Greedy<V>(fits: seq<set<V>>, size: V -> int, a: Assignment<V>, used: set<V>)
    decreases |a|
  {
    && |a| == |fits|
    && (a != [] ==> Turn(fits[0], size, a[0], used) && Greedy(fits[1..], size, a[1..], used + Taken(a[0])))
  }

  /** The turn of one claim. */
  ghost predicate Turn<V>(fits: set<V>, size: V -> int, o: Option<V>, used: set<V>) {
    && (o.None? ==> fits <= used)
    && (o.Some? ==> o.value in fits - used && forall u :: u in fits - used ==> size(o.value) <= size(u))
  }

  /** The volumes that the first n claims take. */
  ghost function UsedBy<V>(a: Assignment<V>, n: nat): set<V>
    requires n <= |a|
  {
    if n == 0 then {} else UsedBy(a, n - 1) + Taken(a[n - 1])
  }

  lemma {:induction false} TurnsAreGreedy<V>(fits: seq<set<V>>, size: V -> int, a: Assignment<V>, k: nat)
    requires k <= |a| == |fits| && forall i :: k <= i < |a| ==> Turn(fits[i], size, a[i], UsedBy(a, i))
    ensures Greedy(fits[k..], size, a[k..], UsedBy(a, k))
    decreases |a| - k
  {
    if k < |a| {
      TurnsAreGreedy(fits, size, a, k + 1);
      assert fits[k..][1..] == fits[k + 1..] && a[k..][1..] == a[k + 1..];
    }
  }

  /** A volume that fits one claim and is no smaller than another that fits it serves every
      claim that the other serves. */
  ghost predicate Exchangeable<V>(fits: seq<set<V>>, size: V -> int) {
    forall i, j, v, u ::
      (0 <= i < |fits| && 0 <= j < |fits| && v in fits[i] && u in fits[i] && v in fits[j] && size(v) <= size(u)) ==>
      u in fits[j]
  }

  lemma {:induction false} CountUpdate<V>(a: Assignment<V>, j: nat, o: Option<V>)
    requires j < |a|
    ensures Count(a[j := o]) == Count(a) - (if a[j].Some? then 1 else 0) + if o.Some? then 1 else 0
  {
    if j > 0 {
      CountUpdate(a[1..], j - 1, o);
      assert a[j := o][1..] == a[1..][j - 1 := o];
    } else {
      assert a[0 := o][1..] == a[1..];
    }
  }

  /** The exchange: when the first claim takes v, what is left of another assignment serves
      at most one claim less. */
  lemma Exchange<V>(fits: seq<set<V>>, size: V -> int, m: Assignment<V>, used: set<V>, v: V)
    returns (rest: Assignment<V>)
    requires Valid(fits, m, used) && Exchangeable(fits, size) && fits != []
    requires v in fits[0] - used && forall u :: u in fits[0] - used ==> size(v) <= size(u)
    ensures Valid(fits[1..], rest, used + {v}) && Count(m) <= 1 + Count(rest)
  {
    if j :| 1 <= j < |m| && m[j] == Some(v) {
      rest := m[1..][j - 1 := m[0]];
      CountUpdate(m[1..], j - 1, m[0]);
      if m[0].Some? {
        var u := m[0].value;
        assert u in fits[0] - used && v in fits[0] && v in fits[j] && size(v) <= size(u);
        assert u in fits[j];
      }
      assert forall i :: 0 <= i < |rest| ==> rest[i] == if i == j - 1 then m[0] else m[i + 1];
    } else {
      rest := m[1..];
      assert forall i :: 0 <= i < |rest| ==> rest[i] == m[i + 1] && m[i + 1] != Some(v);
    }
    forall i | 0 <= i < |rest| && rest[i].Some?
      ensures rest[i].value in fits[1..][i] && rest[i].value !in used + {v}
    {
      assert fits[1..][i] == fits[i + 1];
    }
  }

  /** No assignment serves more claims than the greedy one, whatever the order of claims. */
  lemma {:induction false} GreedyIsMaximum<V>(fits: seq<set<V>>, size: V -> int, a: Assignment<V>, m: Assignment<V>,
          used: set<V>)
    requires Greedy(fits, size, a, used) && Valid(fits, m, used) && Exchangeable(fits, size)
    ensures Count(m) <= Count(a)
    decreases |a|
  {
    if a != [] {
      assert Exchangeable(fits[1..], size);
      var rest := m[1..];
      if a[0].Some? {
        rest := Exchange(fits, size, m, used, a[0].value);
      }
      assert Valid(fits[1..], rest, used + Taken(a[0]));
      GreedyIsMaximum(fits[1..], size, a[1..], rest, used + Taken(a[0]));
    }
  }

  lemma {:induction false} CountFull<V>(a: Assignment<V>)
    ensures Count(a) <= |a| && (Count(a) == |a| <==> forall i :: 0 <= i < |a| ==> a[i].Some?)
  {
    if a != [] {
      CountFull(a[1..]);
      assert forall i :: 0 < i < |a| ==> a[i] == a[1..][i - 1];
    }
  }

  /** If all claims can be served together the greedy choice serves them all. */
  lemma GreedyIsComplete<V>(fits: seq<set<V>>, size: V -> int, a: Assignment<V>, m: Assignment<V>)
    requires Greedy(fits, size, a, {}) && Valid(fits, m, {}) && Exchangeable(fits, size)
    requires forall i :: 0 <= i < |m| ==> m[i].Some?
    ensures forall i :: 0 <= i < |a| ==> a[i].Some?
  {
    GreedyIsMaximum(fits, size, a, m, {});
    CountFull(a);
    CountFull(m);
  }

  /** The greedy choice is an assignment. */
  lemma {:induction false} GreedyIsValid<V>(fits: seq<set<V>>, size: V -> int, a: Assignment<V>, used: set<V>)
    requires Greedy(fits, size, a, used)
    ensures Valid(fits, a, used)
    decreases |a|
  {
    if a != [] {
      GreedyIsValid(fits[1..], size, a[1..], used + Taken(a[0]));
      assert forall i :: 0 < i < |a| ==> a[i] == a[1..][i - 1] && fits[i] == fits[1..][i - 1];
    }
  }
}
