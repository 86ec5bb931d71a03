/** Admission of pods to a node and what it guarantees over time
    (framework/plugins/noderesources/fit.go, framework/plugins/nodeports/node_ports.go). */
module Admission {
  import opened Api
  import opened Resources
  import opened HostPorts
  import opened Sequences
  import opened NodeInfos
  import Reservations

  datatype Insufficient = Insufficient(resource: ResourceName, requested: int, used: int, capacity: int)

  // ---- the verdict on a request ----

  /** The request that skips the resource checks: the three named amounts are zero and no
      scalar is mentioned, not even with amount zero. */
  predicate AsksNothing(req: Resource) {
    && Quantity(req, Cpu) == 0 && Quantity(req, Memory) == 0 && Quantity(req, EphemeralStorage) == 0
    && forall k :: k in req ==> !k.IsScalar()
  }

  predicate Ignored(k: ResourceName, ignored: set<string>) { k.Extended? && k.name in ignored }

  /** The resources that the checks look at. */
  predicate Checked(k: ResourceName, req: Resource, ignored: set<string>) {
    k == Cpu || k == Memory || k == EphemeralStorage || (k in req && k.IsScalar() && !Ignored(k, ignored))
  }

  function ReservedOf(r: (int, int, int), k: ResourceName): int {
    match k
    case Cpu => r.0
    case Memory => r.1
    case EphemeralStorage => r.2
    case _ => 0
  }

  /** The request, what is requested already and what is reserved fit together. */
  predicate Room(v: NodeView, req: Resource, reserved: (int, int, int), k: ResourceName) {
    Quantity(req, k) + Quantity(v.requested, k) + ReservedOf(reserved, k) <= Quantity(v.allocatable, k)
  }

  ghost predicate FitsResources(v: NodeView, req: Resource, reserved: (int, int, int), ignored: set<string>) {
    && |v.pods| + 1 <= Quantity(v.allocatable, Pods)
    && (AsksNothing(req) || forall k :: Checked(k, req, ignored) ==> Room(v, req, reserved, k))
  }

  function Shortage(v: NodeView, req: Resource, k: ResourceName): Insufficient {
    Insufficient(k, Quantity(req, k), Quantity(v.requested, k), Quantity(v.allocatable, k))
  }

  /** What fitsRequest reports of one more pod: too many pods, and the resources that lack
      room, each with the amounts at hand; nothing else. */
  ghost predicate ShortagesAre(v: NodeView, req: Resource, reserved: (int, int, int), ignored: set<string>,
          short: seq<Insufficient>)
  {
    && (forall s :: s in short ==>
         || (&& s == Insufficient(Pods, 1, |v.pods|, Quantity(v.allocatable, Pods))
             && |v.pods| + 1 > Quantity(v.allocatable, Pods))
         || (&& s.requested == Quantity(req, s.resource) && s.used == Quantity(v.requested, s.resource)
             && s.capacity == Quantity(v.allocatable, s.resource) && Lacks(v, req, reserved, ignored, s.resource)))
    && (|v.pods| + 1 > Quantity(v.allocatable, Pods) ==>
      Insufficient(Pods, 1, |v.pods|, Quantity(v.allocatable, Pods)) in short)
    && (forall k :: Lacks(v, req, reserved, ignored, k) ==>
          Insufficient(k, Quantity(req, k), Quantity(v.requested, k), Quantity(v.allocatable, k)) in short)
  }

  predicate Lacks(v: NodeView, req: Resource, reserved: (int, int, int), ignored: set<string>, k: ResourceName) {
    !AsksNothing(req) && Checked(k, req, ignored) && !Room(v, req, reserved, k)
  }

  /** fitsRequest: an empty list of shortages is the verdict that the pod fits. */
  method FitsRequest(v: NodeView, req: Resource, ignored: set<string>, now: int) returns (short: seq<Insufficient>)
    requires v.node.Some?
    ensures short == [] <==> FitsResources(v, req, Reservations.Reserved(v.node.value.conditions, now), ignored)
    ensures ShortagesAre(v, req, Reservations.Reserved(v.node.value.conditions, now), ignored, short)
  {
    var cpu, mem, disk := Reservations.ReservedAmounts(v.node.value.conditions, now);
    short := [];
    if |v.pods| + 1 > Quantity(v.allocatable, Pods) {
      short := [Insufficient(Pods, 1, |v.pods|, Quantity(v.allocatable, Pods))];
    }
    var nothing := AsksNothing(req);
    if nothing {
      return;
    }
    var named := CheckNamed(v, req, (cpu, mem, disk));
    var scalars := CheckScalars(v, req, (cpu, mem, disk), ignored);
    ShortagesIn(v, req, (cpu, mem, disk), ignored, short, named, scalars);
    short := short + named + scalars;
  }

  predicate NamedResource(k: ResourceName) { k == Cpu || k == Memory || k == EphemeralStorage }

  method CheckNamed(v: NodeView, req: Resource, reserved: (int, int, int)) returns (short: seq<Insufficient>)
    ensures forall s :: s in short ==>
      s == Shortage(v, req, s.resource) && NamedResource(s.resource) && !Room(v, req, reserved, s.resource)
    ensures forall k :: NamedResource(k) && !Room(v, req, reserved, k) ==> Shortage(v, req, k) in short
  {
    short := [];
    if !Room(v, req, reserved, Cpu) {
      short := short + [Shortage(v, req, Cpu)];
    }
    if !Room(v, req, reserved, Memory) {
      short := short + [Shortage(v, req, Memory)];
    }
    if !Room(v, req, reserved, EphemeralStorage) {
      short := short + [Shortage(v, req, EphemeralStorage)];
    }
  }

  predicate Scalar(k: ResourceName, req: Resource, ignored: set<string>) {
    k in req && k.IsScalar() && !Ignored(k, ignored)
  }

  method CheckScalars(v: NodeView, req: Resource, reserved: (int, int, int), ignored: set<string>)
    returns (short: seq<Insufficient>)
    ensures forall s :: s in short ==>
      s == Shortage(v, req, s.resource) && Scalar(s.resource, req, ignored) && !Room(v, req, reserved, s.resource)
    ensures forall k :: Scalar(k, req, ignored) && !Room(v, req, reserved, k) ==> Shortage(v, req, k) in short
  {
    short := [];
    var rest := req.Keys;
    while rest != {}
      invariant rest <= req.Keys
      invariant forall s :: s in short ==>
        s == Shortage(v, req, s.resource) && Scalar(s.resource, req, ignored) && !Room(v, req, reserved, s.resource)
      invariant forall k :: Scalar(k, req, ignored) && k !in rest && !Room(v, req, reserved, k) ==>
        Shortage(v, req, k) in short
    {
      var k :| k in rest;
      rest := rest - {k};
      if k.IsScalar() && !Ignored(k, ignored) && !Room(v, req, reserved, k) {
        short := short + [Shortage(v, req, k)];
      }
    }
  }

  /** The three parts of the list together. */
  lemma ShortagesIn(v: NodeView, req: Resource, reserved: (int, int, int), ignored: set<string>,
      pods: seq<Insufficient>, named: seq<Insufficient>, scalars: seq<Insufficient>)
    requires !AsksNothing(req)
    requires pods == if |v.pods| + 1 > Quantity(v.allocatable, Pods)
                     then [Insufficient(Pods, 1, |v.pods|, Quantity(v.allocatable, Pods))] else []
    requires forall s :: s in named ==>
      s == Shortage(v, req, s.resource) && NamedResource(s.resource) && !Room(v, req, reserved, s.resource)
    requires forall k :: NamedResource(k) && !Room(v, req, reserved, k) ==> Shortage(v, req, k) in named
    requires forall s :: s in scalars ==>
      s == Shortage(v, req, s.resource) && Scalar(s.resource, req, ignored) && !Room(v, req, reserved, s.resource)
    requires forall k :: Scalar(k, req, ignored) && !Room(v, req, reserved, k) ==> Shortage(v, req, k) in scalars
    ensures ShortagesAre(v, req, reserved, ignored, pods + named + scalars)
    ensures pods + named + scalars == [] <==> FitsResources(v, req, reserved, ignored)
  {
    var all := pods + named + scalars;
    assert forall s :: s in all <==> s in pods || s in named || s in scalars;
    assert forall k :: Checked(k, req, ignored) <==> NamedResource(k) || Scalar(k, req, ignored);
    if all != [] {
      assert all[0] in all;
    }
  }

  /** No named amount and no scalar resource is asked for. */
  ghost predicate NothingAsked(req: Resource) {
    && Quantity(req, Cpu) == 0 && Quantity(req, Memory) == 0 && Quantity(req, EphemeralStorage) == 0
    && forall k :: k in req ==> !k.Extended? && !k.PrefixedNative?
  }

  /** The three named amounts, with what is reserved of them, are within the node. */
  predicate NamedWithin(w: NodeView, reserved: (int, int, int)) {
    && Quantity(w.requested, Cpu) + reserved.0 <= Quantity(w.allocatable, Cpu)
    && Quantity(w.requested, Memory) + reserved.1 <= Quantity(w.allocatable, Memory)
    && Quantity(w.requested, EphemeralStorage) + reserved.2 <= Quantity(w.allocatable, EphemeralStorage)
  }

  /** Every scalar asked for that is not to be ignored is within the node. */
  ghost predicate ScalarsWithin(w: NodeView, req: Resource, ignored: set<string>) {
    forall k :: k in req && (k.PrefixedNative? || (k.Extended? && k.name !in ignored)) ==>
      Quantity(w.requested, k) <= Quantity(w.allocatable, k)
  }

  lemma RoomIff(v: NodeView, pod: Pod, g: int, reserved: (int, int, int), k: ResourceName)
    requires Consumable(k)
    ensures var w := AddPodTo(v, pod, g);
            Room(v, PodRequest(pod), reserved, k) <==>
            Quantity(w.requested, k) + ReservedOf(reserved, k) <= Quantity(w.allocatable, k)
  {
    AddPodRecorded(v, pod, g, RequestOf(k));
  }

  lemma NamedIff(v: NodeView, pod: Pod, g: int, reserved: (int, int, int))
    ensures var req := PodRequest(pod);
            (forall k :: NamedResource(k) ==> Room(v, req, reserved, k)) <==> NamedWithin(AddPodTo(v, pod, g), reserved)
  {
    RoomIff(v, pod, g, reserved, Cpu);
    RoomIff(v, pod, g, reserved, Memory);
    RoomIff(v, pod, g, reserved, EphemeralStorage);
  }

  lemma ScalarsIff(v: NodeView, pod: Pod, g: int, reserved: (int, int, int), ignored: set<string>)
    ensures var req := PodRequest(pod);
            (forall k :: Scalar(k, req, ignored) ==> Room(v, req, reserved, k)) <==>
            ScalarsWithin(AddPodTo(v, pod, g), req, ignored)
  {
    var req := PodRequest(pod);
    forall k | Scalar(k, req, ignored)
      ensures Room(v, req, reserved, k) <==>
        Quantity(AddPodTo(v, pod, g).requested, k) <= Quantity(AddPodTo(v, pod, g).allocatable, k)
    {
      RoomIff(v, pod, g, reserved, k);
    }
    assert forall k :: Scalar(k, req, ignored) <==>
      k in req && (k.PrefixedNative? || (k.Extended? && k.name !in ignored));
  }

  /** The verdict in terms of the node with the pod on it: the pods are not too many, and,
      unless the pod asks for nothing, all amounts are within the node. */
  lemma FitsIff(v: NodeView, pod: Pod, g: int, reserved: (int, int, int), ignored: set<string>)
    ensures var req, w := PodRequest(pod), AddPodTo(v, pod, g);
            FitsResources(v, req, reserved, ignored) <==>
            && |w.pods| <= Quantity(w.allocatable, Pods)
            && (NothingAsked(req) || (NamedWithin(w, reserved) && ScalarsWithin(w, req, ignored)))
  {
    var req := PodRequest(pod);
    NamedIff(v, pod, g, reserved);
    ScalarsIff(v, pod, g, reserved, ignored);
    assert AsksNothing(req) <==> NothingAsked(req);
    assert forall k :: Checked(k, req, ignored) <==> NamedResource(k) || Scalar(k, req, ignored);
  }

  // ---- one node over time ----

  /** The amounts of a pod are not negative. */
  ghost predicate NonNegative(pod: Pod) { forall k :: Consumable(k) ==> Quantity(PodRequest(pod), k) >= 0 }

  /** No resource that is checked is promised beyond what the node has. */
  ghost predicate NoOvercommit(v: NodeView, ignored: set<string>) {
    && |v.pods| <= Quantity(v.allocatable, Pods)
    && forall k :: Consumable(k) && !Ignored(k, ignored) ==> Quantity(v.requested, k) <= Quantity(v.allocatable, k)
  }

  lemma FitsKeepsAmount(v: NodeView, pod: Pod, g: int, reserved: (int, int, int), ignored: set<string>, k: ResourceName)
    requires NoOvercommit(v, ignored) && FitsResources(v, PodRequest(pod), reserved, ignored)
    requires reserved.0 >= 0 && reserved.1 >= 0 && reserved.2 >= 0
    requires Consumable(k) && !Ignored(k, ignored)
    ensures Quantity(AddPodTo(v, pod, g).requested, k) <= Quantity(v.allocatable, k)
  {
    var req := PodRequest(pod);
    AddPodRecorded(v, pod, g, RequestOf(k));
    if !AsksNothing(req) && Checked(k, req, ignored) {
      assert Room(v, req, reserved, k);
    } else {
      assert Quantity(req, k) == 0;
    }
  }

  /** A pod that fits, reservations included, does not overcommit the node, although a pod
      that asks for nothing is not checked and a scalar is checked only when asked for. */
  lemma FitsKeepsNoOvercommit(v: NodeView, pod: Pod, g: int, reserved: (int, int, int), ignored: set<string>)
    requires NoOvercommit(v, ignored) && FitsResources(v, PodRequest(pod), reserved, ignored)
    requires reserved.0 >= 0 && reserved.1 >= 0 && reserved.2 >= 0
    ensures NoOvercommit(AddPodTo(v, pod, g), ignored)
  {
    forall k | Consumable(k) && !Ignored(k, ignored)
      ensures Quantity(AddPodTo(v, pod, g).requested, k) <= Quantity(v.allocatable, k)
    {
      FitsKeepsAmount(v, pod, g, reserved, ignored, k);
    }
  }

  lemma RemovalKeepsNoOvercommit(v: NodeView, pod: Pod, g: int, ignored: set<string>)
    requires NoOvercommit(v, ignored) && NonNegative(pod) && RemoveOutcomeOf(v, pod).Removed?
    ensures NoOvercommit(RemovePodFrom(v, pod, g), ignored)
  {
    forall k | Consumable(k) && !Ignored(k, ignored)
      ensures Quantity(RemovePodFrom(v, pod, g).requested, k) <= Quantity(v.allocatable, k)
    {
      RemovePodRecorded(v, pod, g, RequestOf(k));
    }
  }

  // ---- host ports ----

  ghost function KeySets(pods: seq<Pod>): seq<set<PortKey>> {
    seq(|pods|, i requires 0 <= i < |pods| => KeysOfPod(pods[i]))
  }

  /** The host ports of the pods together. */
  ghost function PortsOf(pods: seq<Pod>): set<PortKey> { Union(KeySets(pods), |pods|) }

  /** UsedPorts is exactly the union of the ports of the pods present. */
  ghost predicate PortsExact(v: NodeView) { NoEmptyIP(v.usedPorts) && Taken(v.usedPorts) == PortsOf(v.pods) }

  /** No two pods ask for one port. */
  ghost predicate PortsApart(pods: seq<Pod>) {
    forall i, j :: 0 <= i < j < |pods| ==> KeysOfPod(pods[i]) !! KeysOfPod(pods[j])
  }

  lemma PortsOfAppend(pods: seq<Pod>, pod: Pod)
    ensures PortsOf(pods + [pod]) == PortsOf(pods) + KeysOfPod(pod)
  {
    var a, b := KeySets(pods), KeySets(pods + [pod]);
    UnionPrefix(a, b, |pods|);
    assert b[|pods|] == KeysOfPod(pod);
  }

  lemma AdmittedPorts(v: NodeView, pod: Pod, g: int)
    requires PortsExact(v)
    ensures PortsExact(AddPodTo(v, pod, g))
  {
    AddContainersTaken(v.usedPorts, pod.containers, |pod.containers|);
    PortsOfAppend(v.pods, pod);
  }

  /** A pod without a conflict shares no port with the pods present. */
  lemma AdmittedApart(v: NodeView, pod: Pod, g: int)
    requires PortsExact(v) && PortsApart(v.pods) && !Conflicts(v.usedPorts, KeysOfPod(pod))
    ensures PortsApart(AddPodTo(v, pod, g).pods)
  {
    forall i | 0 <= i < |v.pods|
      ensures KeysOfPod(v.pods[i]) !! KeysOfPod(pod)
    {
      forall t | t in KeysOfPod(v.pods[i])
        ensures t !in KeysOfPod(pod)
      {
        InUnion(KeySets(v.pods), |v.pods|, t);
        assert KeySets(v.pods)[i] == KeysOfPod(v.pods[i]);
        assert t in KeysOfPod(pod) ==> Clash(t, t);
      }
    }
  }

  lemma KeySetsSwapDelete(pods: seq<Pod>, i: nat)
    requires i < |pods|
    ensures KeySets(SwapDelete(pods, i)) == SwapDelete(KeySets(pods), i)
  {
  }

  lemma RemovalPorts(v: NodeView, i: nat, g: int)
    requires PortsExact(v) && DistinctKeys(v.pods) && i < |v.pods|
    ensures var w := RemovePodFrom(v, v.pods[i], g);
            && w.pods == SwapDelete(v.pods, i) && NoEmptyIP(w.usedPorts)
            && Taken(w.usedPorts) == PortsOf(v.pods) - KeysOfPod(v.pods[i])
  {
    PositionUnique(v.pods, i);
    RemoveContainersTaken(v.usedPorts, v.pods[i].containers, |v.pods[i].containers|);
  }

  /** No other pod asks for a port of the pod at i. */
  ghost predicate SharesNone(pods: seq<Pod>, i: nat)
    requires i < |pods|
  {
    forall j :: 0 <= j < |pods| && j != i ==> KeysOfPod(pods[j]) !! KeysOfPod(pods[i])
  }

  lemma LeftoverIff(pods: seq<Pod>, i: nat)
    requires i < |pods|
    ensures PortsOf(pods) - KeysOfPod(pods[i]) == PortsOf(SwapDelete(pods, i)) <==> SharesNone(pods, i)
  {
    var sets := KeySets(pods);
    KeySetsSwapDelete(pods, i);
    UnionWithoutIff(sets, i);
    assert sets[i] == KeysOfPod(pods[i]);
    assert forall j :: 0 <= j < |sets| ==> sets[j] == KeysOfPod(pods[j]);
  }

  /** Removing the pod at i leaves exactly the ports of the others if and only if it shares
      no port with them: the map keeps sets, not counts. */
  lemma RemovalPortsIff(v: NodeView, i: nat, g: int)
    requires PortsExact(v) && DistinctKeys(v.pods) && i < |v.pods|
    ensures PortsExact(RemovePodFrom(v, v.pods[i], g)) <==> SharesNone(v.pods, i)
  {
    RemovalPorts(v, i, g);
    LeftoverIff(v.pods, i);
  }

  lemma RemovedApart(pods: seq<Pod>, i: nat)
    requires PortsApart(pods) && i < |pods|
    ensures PortsApart(SwapDelete(pods, i))
  {
  }

  // ---- runs ----

  /** A pod comes if the checks admit it, the pod at a position goes, or the node object is
      renewed, with other conditions and so other reservations. */
  datatype NodeOp = Place(pod: Pod, now: int) | Unplace(i: nat) | Renew(node: Node)

  ghost predicate Admitted(v: NodeView, pod: Pod, now: int, ignored: set<string>) {
    && v.node.Some?
    && FitsResources(v, PodRequest(pod), Reservations.Reserved(v.node.value.conditions, now), ignored)
    && !Conflicts(v.usedPorts, KeysOfPod(pod))
  }

  ghost function Apply(v: NodeView, op: NodeOp, ignored: set<string>): NodeView {
    match op
    case Place(pod, now) => if Admitted(v, pod, now, ignored) then AddPodTo(v, pod, v.generation + 1) else v
    case Unplace(i) => if i < |v.pods| then RemovePodFrom(v, v.pods[i], v.generation + 1) else v
    case Renew(node) => SetNodeOf(v, node, v.generation + 1)
  }

  /** Pods have keys of their own and no negative amounts, and neither have reservations. */
  ghost predicate Proper(v: NodeView, op: NodeOp) {
    match op
    case Place(pod, now) =>
      && pod.uid != "" && !NodeInfos.Holds(v.pods, pod.uid) && NonNegative(pod)
      && (v.node.Some? ==>
           var r := Reservations.Reserved(v.node.value.conditions, now); r.0 >= 0 && r.1 >= 0 && r.2 >= 0)
    case Unplace(i) => true
    case Renew(node) => forall k :: Quantity(AddList(map[], node.allocatable), k) >= Quantity(v.allocatable, k)
  }

  ghost predicate Sound(v: NodeView, ignored: set<string>) {
    && NoOvercommit(v, ignored) && PortsExact(v) && PortsApart(v.pods)
    && DistinctKeys(v.pods) && forall i :: 0 <= i < |v.pods| ==> NonNegative(v.pods[i])
  }

  lemma PlaceSound(v: NodeView, pod: Pod, now: int, ignored: set<string>)
    requires Sound(v, ignored) && Proper(v, Place(pod, now))
    ensures Sound(Apply(v, Place(pod, now), ignored), ignored)
  {
    if Admitted(v, pod, now, ignored) {
      var g := v.generation + 1;
      FitsKeepsNoOvercommit(v, pod, g, Reservations.Reserved(v.node.value.conditions, now), ignored);
      PlacedPods(v, pod, g);
    }
  }

  lemma PlacedPods(v: NodeView, pod: Pod, g: int)
    requires PortsExact(v) && PortsApart(v.pods) && DistinctKeys(v.pods) && !Conflicts(v.usedPorts, KeysOfPod(pod))
    requires pod.uid != "" && !NodeInfos.Holds(v.pods, pod.uid)
    ensures var w := AddPodTo(v, pod, g);
            PortsExact(w) && PortsApart(w.pods) && DistinctKeys(w.pods) && w.pods == v.pods + [pod]
  {
    AdmittedPorts(v, pod, g);
    AdmittedApart(v, pod, g);
  }

  lemma UnplaceSound(v: NodeView, i: nat, ignored: set<string>)
    requires Sound(v, ignored) && i < |v.pods|
    ensures Sound(Apply(v, Unplace(i), ignored), ignored)
  {
    var g := v.generation + 1;
    PositionUnique(v.pods, i);
    RemovalKeepsNoOvercommit(v, v.pods[i], g, ignored);
    RemovalPortsIff(v, i, g);
    RemovalPorts(v, i, g);
    RemovedPods(v.pods, i);
  }

  lemma RemovedPods(pods: seq<Pod>, i: nat)
    requires PortsApart(pods) && DistinctKeys(pods) && i < |pods|
    requires forall j :: 0 <= j < |pods| ==> NonNegative(pods[j])
    ensures SharesNone(pods, i) && PortsApart(SwapDelete(pods, i)) && DistinctKeys(SwapDelete(pods, i))
    ensures forall j :: 0 <= j < |pods| - 1 ==> NonNegative(SwapDelete(pods, i)[j])
  {
    RemovedApart(pods, i);
    SwapDeleteDistinct(pods, i);
    SwapDeleteAt(pods, i);
  }

  ghost function NodeRun(start: NodeView, ops: seq<NodeOp>, n: nat, ignored: set<string>): NodeView
    requires n <= |ops|
  {
    if n == 0 then start else Apply(NodeRun(start, ops, n - 1, ignored), ops[n - 1], ignored)
  }

  ghost predicate AllProper(start: NodeView, ops: seq<NodeOp>, n: nat, ignored: set<string>)
    requires n <= |ops|
  {
    n > 0 ==> AllProper(start, ops, n - 1, ignored) && Proper(NodeRun(start, ops, n - 1, ignored), ops[n - 1])
  }

  /** If pods only come when the checks admit them, the node is never overcommitted in any
      checked resource or in the number of pods, and UsedPorts is always exactly the union
      of the ports of the pods present. */
  lemma {:induction false} RunSound(start: NodeView, ops: seq<NodeOp>, n: nat, ignored: set<string>)
    requires n <= |ops| && Sound(start, ignored) && AllProper(start, ops, n, ignored)
    ensures Sound(NodeRun(start, ops, n, ignored), ignored)
  {
    if n > 0 {
      RunSound(start, ops, n - 1, ignored);
      var v := NodeRun(start, ops, n - 1, ignored);
      match ops[n - 1] {
        case Place(pod, now) => PlaceSound(v, pod, now, ignored);
        case Unplace(i) =>
          if i < |v.pods| {
            UnplaceSound(v, i, ignored);
          }
        case Renew(node) =>
      }
    }
  }

  /** A node fresh from the API server is a sound start when its capacities are not
      negative. */
  lemma FreshSound(node: Node, g: int, ignored: set<string>)
    requires forall k :: k in node.allocatable ==> node.allocatable[k] >= 0
    ensures Sound(SetNodeOf(Blank(g), node, g), ignored)
  {
    forall k
      ensures Quantity(AddList(map[], node.allocatable), k) >= 0
    {
      AddListQuantity(map[], node.allocatable, k);
    }
  }
}
