/** The round-robin cursor of the short job scheduler (short_job_scheduler/scheduler.go).
    The node list is given as the suitability of its nodes in name order. */
module ShortJobs {
  /** OutOfRange stands for the panic of an index beyond the list. */
  datatype Scheduled = Bound(index: nat) | NoNode | OutOfRange

  /** The place d steps behind i on a circle of n. */
  function Behind(i: nat, d: nat, n: nat): (k: nat)
    requires i < n && d <= n
    ensures k < n
  {
    if i + d < n then i + d else i + d - n
  }

  /** How many steps lead from i to k, where a full circle counts as n. */
  function Steps(i: nat, k: nat, n: nat): (d: nat)
    requires i < n && k < n
    ensures 0 < d <= n && Behind(i, d, n) == k
    ensures forall e :: 0 < e <= n && Behind(i, e, n) == k ==> e == d
  {
    if k > i then k - i else k + n - i
  }

  lemma WrapIs(i: nat, n: nat)
    requires i < n
    ensures (i + 1) % n == Behind(i, 1, n)
  {
    if i + 1 < n {
      assert (i + 1) % n == i + 1;
    }
  }

  class ShortJobScheduler {
    var previousNodeIndex: nat

    constructor (index: nat)
      ensures previousNodeIndex == index
    {
      previousNodeIndex := index;
    }

    /** The first suitable node behind the previous one, around the circle; if there is
        none the cursor is back where it was. */
    method Schedule(suitable: seq<bool>) returns (r: Scheduled)
      modifies this
      ensures r.OutOfRange? <==> suitable != [] && old(previousNodeIndex) >= |suitable|
      ensures r.NoNode? <==> !r.OutOfRange? && forall i :: 0 <= i < |suitable| ==> !suitable[i]
      ensures !r.Bound? ==> previousNodeIndex == old(previousNodeIndex)
      ensures r.Bound? ==> previousNodeIndex == r.index < |suitable| && suitable[r.index]
      ensures r.Bound? ==> forall d :: 0 < d < Steps(old(previousNodeIndex), r.index, |suitable|) ==>
        !suitable[Behind(old(previousNodeIndex), d, |suitable|)]
    {
      var n := |suitable|;
      ghost var p := previousNodeIndex;
      for d := 0 to n
        invariant d == 0 ==> previousNodeIndex == p
        invariant d > 0 ==> p < n && previousNodeIndex == Behind(p, d, n)
        invariant forall e :: 0 < e <= d ==> !suitable[Behind(p, e, n)]
      {
        if previousNodeIndex >= n {
          return OutOfRange;
        }
        WrapIs(previousNodeIndex, n);
        var index := (previousNodeIndex + 1) % n;
        previousNodeIndex := index;
        if suitable[index] {
          return Bound(index);
        }
      }
      forall i | 0 <= i < n
        ensures !suitable[i]
      {
        assert Behind(p, Steps(p, i, n), n) == i;
      }
      r := NoNode;
    }
  }

  // ---- load ----

  /** The node that call number k takes when every node is suitable; p is the cursor at the
      start. */
  function Taken(p: nat, n: nat, k: nat): (i: nat)
    requires p < n
    ensures i < n
  {
    if k == 0 then p else Behind(Taken(p, n, k - 1), 1, n)
  }

  /** How often the first k calls took node i. */
  function Load(p: nat, n: nat, k: nat, i: nat): nat
    requires p < n
  {
    if k == 0 then 0 else Load(p, n, k - 1, i) + if Taken(p, n, k) == i then 1 else 0
  }

  /** Full circles made by k calls, and the calls after them. */
  function Circles(n: nat, k: nat): (nat, nat)
    requires n > 0
    ensures Circles(n, k).1 < n
  {
    if k == 0 then (0, 0)
    else
      var (q, r) := Circles(n, k - 1);
      if r + 1 == n then (q + 1, 0) else (q, r + 1)
  }

  lemma {:induction false} LoadIs(p: nat, n: nat, k: nat, i: nat)
    requires p < n && i < n
    ensures Taken(p, n, k) == Behind(p, Circles(n, k).1, n)
    ensures Load(p, n, k, i) == Circles(n, k).0 + if Steps(p, i, n) <= Circles(n, k).1 then 1 else 0
  {
    if k > 0 {
      LoadIs(p, n, k - 1, i);
    }
  }

  /** With every node suitable, no node ever has two jobs more than another. */
  lemma LoadsEven(p: nat, n: nat, k: nat, i: nat, j: nat)
    requires p < n && i < n && j < n
    ensures Load(p, n, k, i) <= Load(p, n, k, j) + 1
  {
    LoadIs(p, n, k, i);
    LoadIs(p, n, k, j);
  }

  /** One call for each of k jobs, with every node suitable: the jobs go to the nodes that
      Taken names, and every two nodes end with loads that differ by at most one. */
  method ScheduleEach(scheduler: ShortJobScheduler, suitable: seq<bool>, k: nat) returns (nodes: seq<nat>)
    requires scheduler.previousNodeIndex < |suitable|
    requires forall i :: 0 <= i < |suitable| ==> suitable[i]
    modifies scheduler
    ensures |nodes| == k
    ensures forall c :: 0 <= c < k ==> nodes[c] == Taken(old(scheduler.previousNodeIndex), |suitable|, c + 1)
    ensures scheduler.previousNodeIndex == Taken(old(scheduler.previousNodeIndex), |suitable|, k)
    ensures forall i, j :: 0 <= i < |suitable| && 0 <= j < |suitable| ==>
      multiset(nodes)[i] <= multiset(nodes)[j] + 1
  {
    var n := |suitable|;
    ghost var p := scheduler.previousNodeIndex;
    nodes := [];
    for c := 0 to k
      invariant |nodes| == c && scheduler.previousNodeIndex == Taken(p, n, c)
      invariant forall e :: 0 <= e < c ==> nodes[e] == Taken(p, n, e + 1)
      invariant forall i: nat :: multiset(nodes)[i] == Load(p, n, c, i)
    {
      var r := scheduler.Schedule(suitable);
      assert suitable[Behind(Taken(p, n, c), 1, n)];
      assert r.Bound? && r.index == Taken(p, n, c + 1);
      nodes := nodes + [r.index];
    }
    forall i, j | 0 <= i < n && 0 <= j < n
      ensures multiset(nodes)[i] <= multiset(nodes)[j] + 1
    {
      LoadsEven(p, n, k, i, j);
    }
  }
}
