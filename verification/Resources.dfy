/** Resource vectors and the request of a pod
    (framework/v1alpha1/types.go, scheduler/util/non_zero.go). */
module Resources {
  import opened Api
  import opened Sequences

  const DEFAULT_MILLI_CPU_REQUEST := 100
  const DEFAULT_MEMORY_REQUEST := 209715200 // 200 MB

  /** A resource vector: the named fields of the struct and its scalar map as one map.
      An absent entry is zero. */
  type Resource = map<ResourceName, int>

  /** The amount of one resource in a vector. */
  function Quantity(r: Resource, k: ResourceName): int {
    if k in r then r[k] else 0
  }

  /** What a resource list asks of one resource; unrecognized names are skipped. */
  function Requested(rl: ResourceList, k: ResourceName): int {
    if k in rl && !k.Unrecognized? then rl[k] else 0
  }

  /** The dimensions a pod consumes; the pod count is kept by the number of pods. */
  predicate Consumable(k: ResourceName) { !k.Pods? && !k.Unrecognized? }

  /** Adding a whole list: every dimension at once. */
  function AddList(r: Resource, rl: ResourceList): Resource {
    r + map k | k in rl && !k.Unrecognized? :: Quantity(r, k) + rl[k]
  }

  /** The loop of the source over the entries of the list, in any order. */
  method Add(r: Resource, rl: ResourceList) returns (s: Resource)
    ensures s == AddList(r, rl)
  {
    s := r;
    var rest := rl.Keys;
    while rest != {}
      invariant rest <= rl.Keys
      invariant forall k :: k in s <==> k in r || (k in rl && k !in rest && !k.Unrecognized?)
      invariant forall k :: k in s ==> s[k] == Quantity(r, k) + if k in rest then 0 else Requested(rl, k)
    {
      var k :| k in rest;
      if !k.Unrecognized? {
        s := s[k := Quantity(s, k) + rl[k]];
      }
      rest := rest - {k};
    }
  }

  /** Raising to a list: an entry is written only when the value is larger. */
  function MaxList(r: Resource, rl: ResourceList): Resource {
    r + map k | k in rl && Consumable(k) && rl[k] > Quantity(r, k) :: rl[k]
  }

  method SetMaxResource(r: Resource, rl: ResourceList) returns (s: Resource)
    ensures s == MaxList(r, rl)
  {
    s := r;
    var rest := rl.Keys;
    while rest != {}
      invariant rest <= rl.Keys
      invariant forall k :: k in s <==> k in r || (k in rl && k !in rest && Consumable(k) && rl[k] > Quantity(r, k))
      invariant forall k :: k in s ==>
        s[k] == if k in rl && k !in rest && Consumable(k) && rl[k] > Quantity(r, k) then rl[k] else Quantity(r, k)
    {
      var k :| k in rest;
      if Consumable(k) && rl[k] > Quantity(s, k) {
        s := s[k := rl[k]];
      }
      rest := rest - {k};
    }
  }

  /** The sum over the first n containers. */
  function SumContainers(cs: seq<Container>, n: nat): Resource
    requires n <= |cs|
  {
    if n == 0 then map[] else AddList(SumContainers(cs, n - 1), cs[n - 1].requests)
  }

  /** r raised to the first n containers. */
  function MaxContainers(r: Resource, cs: seq<Container>, n: nat): Resource
    requires n <= |cs|
  {
    if n == 0 then r else MaxList(MaxContainers(r, cs, n - 1), cs[n - 1].requests)
  }

  /** max(sum of the containers, each init container) plus the overhead. */
  function PodRequest(pod: Pod): Resource {
    var sum := SumContainers(pod.containers, |pod.containers|);
    AddList(MaxContainers(sum, pod.initContainers, |pod.initContainers|), pod.overhead)
  }

  /** The request with the scoring default where nothing is asked for. */
  function NonZeroRequest(rl: ResourceList, k: ResourceName, default: int): int {
    if k in rl then rl[k] else default
  }

  function SumNonZero(cs: seq<Container>, n: nat, k: ResourceName, default: int): int
    requires n <= |cs|
  {
    if n == 0 then 0 else SumNonZero(cs, n - 1, k, default) + NonZeroRequest(cs[n - 1].requests, k, default)
  }

  function MaxNonZero(q: int, cs: seq<Container>, n: nat, k: ResourceName, default: int): int
    requires n <= |cs|
  {
    if n == 0 then q
    else
      var m := MaxNonZero(q, cs, n - 1, k, default);
      var c := NonZeroRequest(cs[n - 1].requests, k, default);
      if m < c then c else m
  }

  function NonZeroOf(pod: Pod, k: ResourceName, default: int): int {
    var sum := SumNonZero(pod.containers, |pod.containers|, k, default);
    MaxNonZero(sum, pod.initContainers, |pod.initContainers|, k, default) + Quantity(pod.overhead, k)
  }

  function NonZeroCPU(pod: Pod): int { NonZeroOf(pod, Cpu, DEFAULT_MILLI_CPU_REQUEST) }

  function NonZeroMemory(pod: Pod): int { NonZeroOf(pod, Memory, DEFAULT_MEMORY_REQUEST) }

  method CalculateResource(pod: Pod) returns (res: Resource, non0CPU: int, non0Mem: int)
    ensures res == PodRequest(pod)
    ensures non0CPU == NonZeroCPU(pod) && non0Mem == NonZeroMemory(pod)
  {
    res, non0CPU, non0Mem := map[], 0, 0;
    var cs := pod.containers;
    for i := 0 to |cs|
      invariant res == SumContainers(cs, i)
      invariant non0CPU == SumNonZero(cs, i, Cpu, DEFAULT_MILLI_CPU_REQUEST)
      invariant non0Mem == SumNonZero(cs, i, Memory, DEFAULT_MEMORY_REQUEST)
    {
      res := Add(res, cs[i].requests);
      non0CPU := non0CPU + NonZeroRequest(cs[i].requests, Cpu, DEFAULT_MILLI_CPU_REQUEST);
      non0Mem := non0Mem + NonZeroRequest(cs[i].requests, Memory, DEFAULT_MEMORY_REQUEST);
    }
    var ics := pod.initContainers;
    ghost var sum, cpu, mem := res, non0CPU, non0Mem;
    for i := 0 to |ics|
      invariant res == MaxContainers(sum, ics, i)
      invariant non0CPU == MaxNonZero(cpu, ics, i, Cpu, DEFAULT_MILLI_CPU_REQUEST)
      invariant non0Mem == MaxNonZero(mem, ics, i, Memory, DEFAULT_MEMORY_REQUEST)
    {
      res := SetMaxResource(res, ics[i].requests);
      var c := NonZeroRequest(ics[i].requests, Cpu, DEFAULT_MILLI_CPU_REQUEST);
      if non0CPU < c {
        non0CPU := c;
      }
      var m := NonZeroRequest(ics[i].requests, Memory, DEFAULT_MEMORY_REQUEST);
      if non0Mem < m {
        non0Mem := m;
      }
    }
    res := Add(res, pod.overhead);
    non0CPU := non0CPU + Quantity(pod.overhead, Cpu);
    non0Mem := non0Mem + Quantity(pod.overhead, Memory);
  }

  // ---- what a request means, one resource at a time ----

  lemma AddListQuantity(r: Resource, rl: ResourceList, k: ResourceName)
    ensures Quantity(AddList(r, rl), k) == Quantity(r, k) + if k.Unrecognized? then 0 else Quantity(rl, k)
  {
  }

  /** The dimensions that totals are kept of. */
  lemma ConsumableIff(k: ResourceName)
    ensures Consumable(k) <==> k == Cpu || k == Memory || k == EphemeralStorage || k.Extended? || k.PrefixedNative?
  {
  }

  lemma MaxListQuantity(r: Resource, rl: ResourceList, k: ResourceName)
    ensures Quantity(MaxList(r, rl), k) ==
      if k != Pods && !k.Unrecognized? && k in rl && rl[k] > Quantity(r, k) then rl[k] else Quantity(r, k)
  {
  }

  /** What the first n containers ask for together. */
  function Total(cs: seq<Container>, n: nat, k: ResourceName): int
    requires n <= |cs|
  {
    if n == 0 then 0 else Total(cs, n - 1, k) + Quantity(cs[n - 1].requests, k)
  }

  lemma {:induction false} SumContainersIsTotal(cs: seq<Container>, n: nat, k: ResourceName)
    requires n <= |cs| && Consumable(k)
    ensures Quantity(SumContainers(cs, n), k) == Total(cs, n, k)
  {
    if n > 0 {
      SumContainersIsTotal(cs, n - 1, k);
      AddListQuantity(SumContainers(cs, n - 1), cs[n - 1].requests, k);
    }
  }

  lemma {:induction false} MaxContainersIsLeastBound(r: Resource, cs: seq<Container>, n: nat, k: ResourceName)
    requires Consumable(k) && n <= |cs|
    ensures var q := Quantity(MaxContainers(r, cs, n), k);
            && q >= Quantity(r, k)
            && (forall i :: 0 <= i < n && k in cs[i].requests ==> q >= cs[i].requests[k])
            && (q == Quantity(r, k) || exists i :: 0 <= i < n && k in cs[i].requests && q == cs[i].requests[k])
  {
    if n > 0 {
      MaxContainersIsLeastBound(r, cs, n - 1, k);
      MaxListQuantity(MaxContainers(r, cs, n - 1), cs[n - 1].requests, k);
    }
  }

  /** The request of a pod in one dimension, without overhead, is the larger of what
      its containers need together and what any one init container needs alone. */
  lemma PodRequestIsPeakDemand(pod: Pod, k: ResourceName)
    requires Consumable(k)
    ensures var peak := Quantity(PodRequest(pod), k) - Quantity(pod.overhead, k);
            var total := Total(pod.containers, |pod.containers|, k);
            var inits := pod.initContainers;
            && peak >= total
            && (forall i :: 0 <= i < |inits| && k in inits[i].requests ==> peak >= inits[i].requests[k])
            && (peak == total ||
                exists i :: 0 <= i < |inits| && k in inits[i].requests && peak == inits[i].requests[k])
  {
    var sum := SumContainers(pod.containers, |pod.containers|);
    SumContainersIsTotal(pod.containers, |pod.containers|, k);
    MaxContainersIsLeastBound(sum, pod.initContainers, |pod.initContainers|, k);
    AddListQuantity(MaxContainers(sum, pod.initContainers, |pod.initContainers|), pod.overhead, k);
  }

  // ---- the amounts with defaults ----

  /** What a container counts for in scoring: what it asks for, also if that is zero, and 100
      milli-units of CPU or 200 MB of memory if it does not say. */
  function Counted(k: ResourceName): Container -> int {
    (c: Container) => if k in c.requests then c.requests[k] else if k.Cpu? then 100 else 200 * 1048576
  }

  lemma {:induction false} SumNonZeroIs(cs: seq<Container>, n: nat)
    requires n <= |cs|
    ensures SumNonZero(cs, n, Cpu, DEFAULT_MILLI_CPU_REQUEST) == Sum(Counted(Cpu), cs, n)
    ensures SumNonZero(cs, n, Memory, DEFAULT_MEMORY_REQUEST) == Sum(Counted(Memory), cs, n)
  {
    if n > 0 {
      SumNonZeroIs(cs, n - 1);
    }
  }

  lemma {:induction false} MaxNonZeroIs(q: int, cs: seq<Container>, n: nat, k: ResourceName, default: int)
    requires n <= |cs| && forall i :: 0 <= i < n ==> NonZeroRequest(cs[i].requests, k, default) == Counted(k)(cs[i])
    ensures var m := MaxNonZero(q, cs, n, k, default);
            && m >= q && (forall i :: 0 <= i < n ==> m >= Counted(k)(cs[i]))
            && (m == q || exists i :: 0 <= i < n && m == Counted(k)(cs[i]))
  {
    if n > 0 {
      MaxNonZeroIs(q, cs, n - 1, k, default);
    }
  }

  /** The amount is the larger of what the containers count for together and what any one init
      container counts for alone, plus the overhead. */
  ghost predicate PeakOf(amount: int, pod: Pod, k: ResourceName) {
    var peak := amount - Quantity(pod.overhead, k);
    var total := Sum(Counted(k), pod.containers, |pod.containers|);
    var inits := pod.initContainers;
    && peak >= total && (forall i :: 0 <= i < |inits| ==> peak >= Counted(k)(inits[i]))
    && (peak == total || exists i :: 0 <= i < |inits| && peak == Counted(k)(inits[i]))
  }

  lemma NonZeroIsPeakDemand(pod: Pod)
    ensures PeakOf(NonZeroCPU(pod), pod, Cpu) && PeakOf(NonZeroMemory(pod), pod, Memory)
  {
    var cs, inits := pod.containers, pod.initContainers;
    SumNonZeroIs(cs, |cs|);
    MaxNonZeroIs(SumNonZero(cs, |cs|, Cpu, DEFAULT_MILLI_CPU_REQUEST), inits, |inits|, Cpu, DEFAULT_MILLI_CPU_REQUEST);
    MaxNonZeroIs(SumNonZero(cs, |cs|, Memory, DEFAULT_MEMORY_REQUEST), inits, |inits|, Memory, DEFAULT_MEMORY_REQUEST);
  }

  lemma {:induction false} SumNonZeroAbove(cs: seq<Container>, n: nat, k: ResourceName, default: nat)
    requires Consumable(k) && n <= |cs|
    ensures SumNonZero(cs, n, k, default) >= Quantity(SumContainers(cs, n), k)
  {
    if n > 0 {
      SumNonZeroAbove(cs, n - 1, k, default);
      AddListQuantity(SumContainers(cs, n - 1), cs[n - 1].requests, k);
    }
  }

  lemma {:induction false} MaxNonZeroAbove(q: int, r: Resource, cs: seq<Container>, n: nat, k: ResourceName,
          default: nat)
    requires Consumable(k) && n <= |cs| && q >= Quantity(r, k)
    ensures MaxNonZero(q, cs, n, k, default) >= Quantity(MaxContainers(r, cs, n), k)
  {
    if n > 0 {
      MaxNonZeroAbove(q, r, cs, n - 1, k, default);
      MaxListQuantity(MaxContainers(r, cs, n - 1), cs[n - 1].requests, k);
    }
  }

  lemma NonZeroOfAbove(pod: Pod, k: ResourceName, default: nat)
    requires Consumable(k)
    ensures NonZeroOf(pod, k, default) >= Quantity(PodRequest(pod), k)
  {
    var sum := SumContainers(pod.containers, |pod.containers|);
    SumNonZeroAbove(pod.containers, |pod.containers|, k, default);
    MaxNonZeroAbove(SumNonZero(pod.containers, |pod.containers|, k, default), sum,
                    pod.initContainers, |pod.initContainers|, k, default);
    AddListQuantity(MaxContainers(sum, pod.initContainers, |pod.initContainers|), pod.overhead, k);
  }

  /** The scoring request is never below the real one. */
  lemma NonZeroAboveRequest(pod: Pod)
    ensures NonZeroCPU(pod) >= Quantity(PodRequest(pod), Cpu)
    ensures NonZeroMemory(pod) >= Quantity(PodRequest(pod), Memory)
  {
    NonZeroOfAbove(pod, Cpu, DEFAULT_MILLI_CPU_REQUEST);
    NonZeroOfAbove(pod, Memory, DEFAULT_MEMORY_REQUEST);
  }
}
