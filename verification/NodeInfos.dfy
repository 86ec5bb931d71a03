/** Per-node running state (framework/v1alpha1/types.go NodeInfo). */
module NodeInfos {
  import opened Api
  import opened Resources
  import opened HostPorts
  import opened Sequences

  /** The value of a NodeInfo object. */
  datatype NodeView = NodeView(
    node: Option<Node>,
    pods: seq<Pod>,
    podsWithAffinity: seq<Pod>,
    usedPorts: HostPortInfo,
    requested: Resource,
    nonZeroCPU: int,
    nonZeroMemory: int,
    allocatable: Resource,
    generation: int)

  /** What RemovePod reports. Its "not found" message reads the name of the node, so
      on an entry without a node the call does not return an error but panics. */
  datatype RemoveOutcome = Removed | NoKey | NotFound | NilNodePanic

  function Blank(generation: int): NodeView {
    NodeView(None, [], [], map[], map[], 0, 0, map[], generation)
  }

  // ---- running totals ----

  /** The pod count of a request is not added to the total. */
  function Plus(r: Resource, d: Resource): Resource {
    r + map k | k in d && Consumable(k) :: Quantity(r, k) + d[k]
  }

  function Minus(r: Resource, d: Resource): Resource {
    r + map k | k in d && Consumable(k) :: Quantity(r, k) - d[k]
  }

  // ---- removal from a slice ----

  /** Index of the first pod with this key, or the length. */
  function Position(pods: seq<Pod>, uid: string, from: nat): (i: nat)
    requires from <= |pods|
    ensures from <= i <= |pods|
    ensures i < |pods| ==> pods[i].uid == uid
    ensures forall j :: from <= j < i ==> pods[j].uid != uid
    decreases |pods| - from
  {
    if from == |pods| || pods[from].uid == uid then from else Position(pods, uid, from + 1)
  }

  predicate Holds(pods: seq<Pod>, uid: string) { exists i :: 0 <= i < |pods| && pods[i].uid == uid }

  function RemoveKey(pods: seq<Pod>, uid: string): seq<Pod> {
    var i := Position(pods, uid, 0);
    if i < |pods| then SwapDelete(pods, i) else pods
  }

  // ---- the operations on values ----

  function AddPodTo(v: NodeView, pod: Pod, generation: int): NodeView {
    v.(pods := v.pods + [pod],
       podsWithAffinity := if pod.HasAffinity() then v.podsWithAffinity + [pod] else v.podsWithAffinity,
       usedPorts := AddContainers(v.usedPorts, pod.containers, |pod.containers|),
       requested := Plus(v.requested, PodRequest(pod)),
       nonZeroCPU := v.nonZeroCPU + NonZeroCPU(pod),
       nonZeroMemory := v.nonZeroMemory + NonZeroMemory(pod),
       generation := generation)
  }

  function RemoveOutcomeOf(v: NodeView, pod: Pod): RemoveOutcome {
    if pod.uid == "" then NoKey
    else if Position(v.pods, pod.uid, 0) < |v.pods| then Removed
    else if v.node.None? then NilNodePanic
    else NotFound
  }

  /** The affinity slice is edited before the pod is looked up, and the totals are
      reduced by the pod given, not by the pod held. */
  function RemovePodFrom(v: NodeView, pod: Pod, generation: int): NodeView {
    match RemoveOutcomeOf(v, pod)
    case NoKey => v
    case Removed =>
      v.(pods := RemoveKey(v.pods, pod.uid),
         podsWithAffinity := RemoveKey(v.podsWithAffinity, pod.uid),
         usedPorts := RemoveContainers(v.usedPorts, pod.containers, |pod.containers|),
         requested := Minus(v.requested, PodRequest(pod)),
         nonZeroCPU := v.nonZeroCPU - NonZeroCPU(pod),
         nonZeroMemory := v.nonZeroMemory - NonZeroMemory(pod),
         generation := generation)
    case _ => v.(podsWithAffinity := RemoveKey(v.podsWithAffinity, pod.uid))
  }

  /** A removal leaves the node alone and renews the generation only if it succeeds. */
  lemma RemoveKeepsNode(v: NodeView, pod: Pod, g: int)
    ensures RemovePodFrom(v, pod, g).node == v.node
    ensures RemovePodFrom(v, pod, g).generation == if RemoveOutcomeOf(v, pod).Removed? then g else v.generation
  {
  }

  lemma AddKeepsNode(v: NodeView, pod: Pod, g: int)
    ensures AddPodTo(v, pod, g).node == v.node && AddPodTo(v, pod, g).generation == g
  {
  }

  function SetNodeOf(v: NodeView, node: Node, generation: int): NodeView {
    v.(node := Some(node), allocatable := AddList(map[], node.allocatable), generation := generation)
  }

  // ---- the object ----

  /** The package-level generation number, taken by incrementing it. */
  class GenerationCounter {
    var value: int

    constructor ()
      ensures value == 0
    {
      value := 0;
    }
  }

  class NodeInfo {
    var node: Option<Node>
    var pods: seq<Pod>
    var podsWithAffinity: seq<Pod>
    var usedPorts: HostPortInfo
    var requested: Resource
    var nonZeroCPU: int
    var nonZeroMemory: int
    var allocatable: Resource
    var generation: int

    function View(): NodeView
      reads this
    {
      NodeView(node, pods, podsWithAffinity, usedPorts, requested, nonZeroCPU, nonZeroMemory, allocatable, generation)
    }

    /** NewNodeInfo without pods: a new object takes a generation. */
    constructor (counter: GenerationCounter)
      modifies counter
      ensures counter.value == old(counter.value) + 1
      ensures View() == Blank(counter.value)
    {
      node, pods, podsWithAffinity, usedPorts := None, [], [], map[];
      requested, nonZeroCPU, nonZeroMemory, allocatable := map[], 0, 0, map[];
      counter.value := counter.value + 1;
      generation := counter.value;
    }

    /** The zero struct, which takes no generation. */
    constructor Empty()
      ensures View() == Blank(0)
    {
      node, pods, podsWithAffinity, usedPorts := None, [], [], map[];
      requested, nonZeroCPU, nonZeroMemory, allocatable := map[], 0, 0, map[];
      generation := 0;
    }

    method UpdateUsedPorts(pod: Pod, add: bool)
      modifies this`usedPorts
      ensures usedPorts == if add then AddContainers(old(usedPorts), pod.containers, |pod.containers|)
                           else RemoveContainers(old(usedPorts), pod.containers, |pod.containers|)
    {
      var cs := pod.containers;
      for j := 0 to |cs|
        invariant usedPorts == if add then AddContainers(old(usedPorts), cs, j)
                               else RemoveContainers(old(usedPorts), cs, j)
      {
        ghost var before := usedPorts;
        var ps := cs[j].ports;
        for k := 0 to |ps|
          invariant usedPorts == if add then AddPorts(before, ps, k) else RemovePorts(before, ps, k)
        {
          if add {
            usedPorts := HostPorts.AddPort(usedPorts, ps[k]);
          } else {
            usedPorts := HostPorts.RemovePort(usedPorts, ps[k]);
          }
        }
      }
    }

    method AddPod(pod: Pod, counter: GenerationCounter)
      modifies this, counter
      ensures counter.value == old(counter.value) + 1
      ensures View() == AddPodTo(old(View()), pod, counter.value)
    {
      Charge(pod);
      Enlist(pod);
      UpdateUsedPorts(pod, true);
      counter.value := counter.value + 1;
      generation := counter.value;
    }

    /** The pod joins the slices. */
    method Enlist(pod: Pod)
      modifies this`pods, this`podsWithAffinity
      ensures pods == old(pods) + [pod]
      ensures podsWithAffinity == if pod.HasAffinity() then old(podsWithAffinity) + [pod] else old(podsWithAffinity)
    {
      pods := pods + [pod];
      if pod.HasAffinity() {
        podsWithAffinity := podsWithAffinity + [pod];
      }
    }

    /** The running totals grow by the request of the pod. */
    method Charge(pod: Pod)
      modifies this`requested, this`nonZeroCPU, this`nonZeroMemory
      ensures requested == Plus(old(requested), PodRequest(pod))
      ensures nonZeroCPU == old(nonZeroCPU) + NonZeroCPU(pod)
      ensures nonZeroMemory == old(nonZeroMemory) + NonZeroMemory(pod)
    {
      var res, non0CPU, non0Mem := CalculateResource(pod);
      requested := Plus(requested, res);
      nonZeroCPU := nonZeroCPU + non0CPU;
      nonZeroMemory := nonZeroMemory + non0Mem;
    }

    /** The first loop of RemovePod. */
    method DropFromAffinity(uid: string)
      modifies this`podsWithAffinity
      ensures podsWithAffinity == RemoveKey(old(podsWithAffinity), uid)
    {
      for i := 0 to |podsWithAffinity|
        invariant podsWithAffinity == old(podsWithAffinity)
        invariant Position(podsWithAffinity, uid, 0) >= i
      {
        if podsWithAffinity[i].uid == uid {
          podsWithAffinity := podsWithAffinity[i := podsWithAffinity[|podsWithAffinity| - 1]];
          podsWithAffinity := podsWithAffinity[..|podsWithAffinity| - 1];
          return;
        }
      }
    }

    /** What RemovePod does once the pod is out of the slices. */
    method Release(pod: Pod, counter: GenerationCounter)
      modifies this`usedPorts, this`requested, this`nonZeroCPU, this`nonZeroMemory, this`generation, counter
      ensures counter.value == old(counter.value) + 1 && generation == counter.value
      ensures usedPorts == RemoveContainers(old(usedPorts), pod.containers, |pod.containers|)
      ensures requested == Minus(old(requested), PodRequest(pod))
      ensures nonZeroCPU == old(nonZeroCPU) - NonZeroCPU(pod)
      ensures nonZeroMemory == old(nonZeroMemory) - NonZeroMemory(pod)
    {
      Discharge(pod);
      FreePorts(pod);
      Renew(counter);
    }

    method FreePorts(pod: Pod)
      modifies this`usedPorts
      ensures usedPorts == RemoveContainers(old(usedPorts), pod.containers, |pod.containers|)
    {
      UpdateUsedPorts(pod, false);
    }

    /** The entry takes the next generation. */
    method Renew(counter: GenerationCounter)
      modifies this`generation, counter
      ensures counter.value == old(counter.value) + 1 && generation == counter.value
    {
      counter.value := counter.value + 1;
      generation := counter.value;
    }

    method Discharge(pod: Pod)
      modifies this`requested, this`nonZeroCPU, this`nonZeroMemory
      ensures requested == Minus(old(requested), PodRequest(pod))
      ensures nonZeroCPU == old(nonZeroCPU) - NonZeroCPU(pod)
      ensures nonZeroMemory == old(nonZeroMemory) - NonZeroMemory(pod)
    {
      var res, non0CPU, non0Mem := CalculateResource(pod);
      requested := Minus(requested, res);
      nonZeroCPU := nonZeroCPU - non0CPU;
      nonZeroMemory := nonZeroMemory - non0Mem;
    }

    /** The last pod takes the place of the one found. */
    method DropAt(i: nat, ghost uid: string)
      requires i < |pods| && Position(pods, uid, 0) == i
      modifies this`pods
      ensures pods == RemoveKey(old(pods), uid)
    {
      pods := pods[i := pods[|pods| - 1]];
      pods := pods[..|pods| - 1];
    }

    method RemovePod(pod: Pod, counter: GenerationCounter) returns (outcome: RemoveOutcome)
      modifies this, counter
      ensures outcome == RemoveOutcomeOf(old(View()), pod)
      ensures counter.value == old(counter.value) + if outcome.Removed? then 1 else 0
      ensures View() == RemovePodFrom(old(View()), pod, counter.value)
    {
      if pod.uid == "" {
        return NoKey;
      }
      DropFromAffinity(pod.uid);
      ghost var w := View();
      for i := 0 to |pods|
        invariant View() == w && counter.value == old(counter.value)
        invariant Position(pods, pod.uid, 0) >= i
      {
        if pods[i].uid == pod.uid {
          DropAt(i, pod.uid);
          Release(pod, counter);
          return Removed;
        }
      }
      outcome := if node.None? then NilNodePanic else NotFound;
    }

    method SetNode(n: Node, counter: GenerationCounter)
      modifies this, counter
      ensures counter.value == old(counter.value) + 1
      ensures View() == SetNodeOf(old(View()), n, counter.value)
    {
      node := Some(n);
      allocatable := Resources.Add(map[], n.allocatable);
      counter.value := counter.value + 1;
      generation := counter.value;
    }

    method Clone() returns (c: NodeInfo)
      ensures fresh(c) && c.View() == View()
    {
      c := new NodeInfo.Empty();
      c.Overwrite(this);
    }

    /** The struct assignment `*existing = *clone`. */
    method Overwrite(other: NodeInfo)
      modifies this
      ensures View() == old(other.View())
    {
      node, pods, podsWithAffinity, usedPorts := other.node, other.pods, other.podsWithAffinity, other.usedPorts;
      requested, nonZeroCPU, nonZeroMemory := other.requested, other.nonZeroCPU, other.nonZeroMemory;
      allocatable, generation := other.allocatable, other.generation;
    }
  }

  // ---- conservation ----

  /** The totals a NodeInfo keeps. */
  datatype Measure = RequestOf(k: ResourceName) | NonZeroCpu | NonZeroMem

  predicate Measured(m: Measure) { m.RequestOf? ==> Consumable(m.k) }

  /** What one pod contributes. */
  function Weight(m: Measure, pod: Pod): int {
    match m
    case RequestOf(k) => Quantity(PodRequest(pod), k)
    case NonZeroCpu => NonZeroCPU(pod)
    case NonZeroMem => NonZeroMemory(pod)
  }

  /** What the entry has on record. */
  function Recorded(v: NodeView, m: Measure): int {
    match m
    case RequestOf(k) => Quantity(v.requested, k)
    case NonZeroCpu => v.nonZeroCPU
    case NonZeroMem => v.nonZeroMemory
  }

  function Weigher(m: Measure): Pod -> int { pod => Weight(m, pod) }

  function Total(m: Measure, pods: seq<Pod>): int { Sum(Weigher(m), pods, |pods|) }

  ghost predicate TotalsAreSums(v: NodeView) {
    forall m :: Measured(m) ==> Recorded(v, m) == Total(m, v.pods)
  }

  /** The affinity slice holds exactly the pods with affinity, each as often as the pod slice. */
  ghost predicate AffinitySubset(v: NodeView) {
    Subset(v.pods, v.podsWithAffinity)
  }

  /** The allocatable amounts are those of the node. */
  predicate Allotted(v: NodeView) { v.node.Some? ==> v.allocatable == AddList(map[], v.node.value.allocatable) }

  predicate DistinctKeys(pods: seq<Pod>) {
    && (forall i :: 0 <= i < |pods| ==> pods[i].uid != "")
    && (forall i, j :: 0 <= i < j < |pods| ==> pods[i].uid != pods[j].uid)
  }

  ghost predicate Conserved(v: NodeView) {
    TotalsAreSums(v) && AffinitySubset(v) && DistinctKeys(v.pods)
  }

  /** Two pods an entry cannot tell apart when one stands in for the other. */
  ghost predicate SameWeights(a: Pod, b: Pod) {
    forall m :: Measured(m) ==> Weight(m, a) == Weight(m, b)
  }

  lemma PlusQuantity(r: Resource, d: Resource, k: ResourceName)
    ensures Quantity(Plus(r, d), k) == Quantity(r, k) + if k == Pods || k.Unrecognized? then 0 else Quantity(d, k)
    ensures Quantity(Minus(r, d), k) == Quantity(r, k) - if k == Pods || k.Unrecognized? then 0 else Quantity(d, k)
  {
  }

  lemma AddPodRecorded(v: NodeView, pod: Pod, g: int, m: Measure)
    requires Measured(m)
    ensures Recorded(AddPodTo(v, pod, g), m) == Recorded(v, m) + Weight(m, pod)
  {
    if m.RequestOf? {
      PlusQuantity(v.requested, PodRequest(pod), m.k);
    }
  }

  lemma RemovePodRecorded(v: NodeView, pod: Pod, g: int, m: Measure)
    requires Measured(m) && RemoveOutcomeOf(v, pod).Removed?
    ensures Recorded(RemovePodFrom(v, pod, g), m) == Recorded(v, m) - Weight(m, pod)
  {
    if m.RequestOf? {
      PlusQuantity(v.requested, PodRequest(pod), m.k);
    }
  }

  /** Adding a pod with a new key keeps the entry conserved. */
  lemma AddPodConserves(v: NodeView, pod: Pod, g: int)
    requires Conserved(v) && pod.uid != "" && !Holds(v.pods, pod.uid)
    ensures Conserved(AddPodTo(v, pod, g))
  {
    AddPodSums(v, pod, g);
  }

  /** The totals and the affinity slice do not depend on the keys. */
  lemma AddPodSums(v: NodeView, pod: Pod, g: int)
    requires TotalsAreSums(v) && AffinitySubset(v)
    ensures TotalsAreSums(AddPodTo(v, pod, g)) && AffinitySubset(AddPodTo(v, pod, g))
  {
    var w := AddPodTo(v, pod, g);
    forall m | Measured(m)
      ensures Recorded(w, m) == Total(m, w.pods)
    {
      AddPodRecorded(v, pod, g, m);
      SumPrefix(Weigher(m), v.pods, w.pods, |v.pods|);
    }
  }

  lemma PositionUnique(pods: seq<Pod>, i: nat)
    requires DistinctKeys(pods) && i < |pods|
    ensures Position(pods, pods[i].uid, 0) == i
  {
  }

  lemma SwapDeleteDistinct(pods: seq<Pod>, i: nat)
    requires DistinctKeys(pods) && i < |pods|
    ensures DistinctKeys(SwapDelete(pods, i))
    ensures !Holds(SwapDelete(pods, i), pods[i].uid)
  {
  }

  /** The second slice has the pods with affinity of the first, each as often. */
  ghost predicate Subset(pods: seq<Pod>, withAffinity: seq<Pod>) {
    forall p: Pod :: multiset(withAffinity)[p] == if p.HasAffinity() then multiset(pods)[p] else 0
  }

  lemma BothLose(pods: seq<Pod>, withAffinity: seq<Pod>, i: nat, j: nat)
    requires Subset(pods, withAffinity) && i < |pods| && j < |withAffinity| && pods[i] == withAffinity[j]
    ensures Subset(SwapDelete(pods, i), SwapDelete(withAffinity, j))
  {
    var p := pods[i];
    assert p in multiset(withAffinity);
    SwapDeleteMultiset(pods, i);
    SwapDeleteMultiset(withAffinity, j);
  }

  lemma OneLoses(pods: seq<Pod>, withAffinity: seq<Pod>, i: nat)
    requires Subset(pods, withAffinity) && i < |pods| && pods[i] !in withAffinity
    ensures Subset(SwapDelete(pods, i), withAffinity)
  {
    var p := pods[i];
    assert multiset(pods)[p] > 0 && p !in multiset(withAffinity);
    SwapDeleteMultiset(pods, i);
  }

  /** With the affinity subset in place, both slices lose the same pod, and a failed
      removal changes nothing. */
  lemma RemoveKeyKeepsAffinity(v: NodeView, uid: string)
    requires AffinitySubset(v) && DistinctKeys(v.pods)
    ensures AffinitySubset(v.(pods := RemoveKey(v.pods, uid), podsWithAffinity := RemoveKey(v.podsWithAffinity, uid)))
    ensures !Holds(v.pods, uid) ==> RemoveKey(v.podsWithAffinity, uid) == v.podsWithAffinity
  {
    var i, j := Position(v.pods, uid, 0), Position(v.podsWithAffinity, uid, 0);
    assert Subset(v.pods, v.podsWithAffinity);
    if j < |v.podsWithAffinity| {
      var a := v.podsWithAffinity[j];
      assert a in multiset(v.podsWithAffinity);
      assert a in multiset(v.pods);
      var k :| 0 <= k < |v.pods| && v.pods[k] == a;
      PositionUnique(v.pods, k);
      BothLose(v.pods, v.podsWithAffinity, i, j);
    } else if i < |v.pods| {
      OneLoses(v.pods, v.podsWithAffinity, i);
    }
  }

  /** Removing through any pod object with the key of a held pod conserves the totals
      exactly when both weigh the same in every measure. */
  lemma RemovePodConservesIff(v: NodeView, pod: Pod, i: nat, g: int)
    requires Conserved(v) && i < |v.pods| && v.pods[i].uid == pod.uid
    ensures RemoveOutcomeOf(v, pod).Removed?
    ensures Conserved(RemovePodFrom(v, pod, g)) <==> SameWeights(pod, v.pods[i])
  {
    PositionUnique(v.pods, i);
    var w := RemovePodFrom(v, pod, g);
    RemoveKeyKeepsAffinity(v, pod.uid);
    SwapDeleteDistinct(v.pods, i);
    forall m | Measured(m)
      ensures Recorded(w, m) == Total(m, w.pods) <==> Weight(m, pod) == Weight(m, v.pods[i])
    {
      RemovePodRecorded(v, pod, g, m);
      SumSwapDelete(Weigher(m), v.pods, i);
    }
  }

  lemma NonZeroSumDominates(pods: seq<Pod>)
    ensures Total(NonZeroCpu, pods) >= Total(RequestOf(Cpu), pods)
    ensures Total(NonZeroMem, pods) >= Total(RequestOf(Memory), pods)
  {
    forall pod
      ensures Weigher(NonZeroCpu)(pod) >= Weigher(RequestOf(Cpu))(pod)
      ensures Weigher(NonZeroMem)(pod) >= Weigher(RequestOf(Memory))(pod)
    {
      NonZeroAboveRequest(pod);
    }
    SumDominates(Weigher(NonZeroCpu), Weigher(RequestOf(Cpu)), pods, |pods|);
    SumDominates(Weigher(NonZeroMem), Weigher(RequestOf(Memory)), pods, |pods|);
  }

  /** Of a conserved entry, the scoring totals are never below the real ones. */
  lemma NonZeroRequestedDominates(v: NodeView)
    requires Conserved(v)
    ensures v.nonZeroCPU >= Quantity(v.requested, Cpu)
    ensures v.nonZeroMemory >= Quantity(v.requested, Memory)
  {
    NonZeroSumDominates(v.pods);
    assert Recorded(v, NonZeroCpu) == Total(NonZeroCpu, v.pods);
    assert Recorded(v, NonZeroMem) == Total(NonZeroMem, v.pods);
    assert Recorded(v, RequestOf(Cpu)) == Total(RequestOf(Cpu), v.pods);
    assert Recorded(v, RequestOf(Memory)) == Total(RequestOf(Memory), v.pods);
  }

  /** A removal of an absent key panics exactly on an entry without a node. */
  lemma RemovePodPanicsIff(v: NodeView, pod: Pod)
    ensures RemoveOutcomeOf(v, pod).NilNodePanic? <==>
            pod.uid != "" && !Holds(v.pods, pod.uid) && v.node.None?
  {
  }
}
