/** The scheduler cache as a state machine over values: every public operation of
    internal/cache/cache.go as a step, and what every step keeps. */
module CacheModel {
  import opened Api
  import opened NodeInfos
  import opened NodeTrees
  import opened Sequences

  datatype PodState = PodState(pod: Pod, deadline: Option<int>, bindingFinished: bool)

  datatype CacheState = CacheState(
    nodes: map<string, NodeView>,
    /** the linked list: node names from headNode on */
    order: seq<string>,
    assumedPods: set<string>,
    podStates: map<string, PodState>,
    tree: TreeView,
    /** the package-level generation number */
    generation: int)

  datatype CacheError =
    | EmptyUID
    | PodInCache
    | AssignedElsewhere
    | NotAssumed
    | AlreadyAdded
    | NotAdded
    | PodNotOnNode
    | NodeUnknown
    | NodeNotInTree

  /** Crashed stands for a fatal log line or a nil dereference. */
  datatype Outcome = Ok | Failed(error: CacheError) | Crashed

  // ---- the edits the operations are made of ----

  /** Node `name` gets a new value with the latest generation and moves to the head. */
  function Touch(s: CacheState, name: string, v: NodeView): CacheState {
    s.(nodes := s.nodes[name := v], order := ToFront(s.order, name), generation := v.generation)
  }

  /** The entry of a node, or a new one, which takes a generation of its own. */
  function EntryOf(s: CacheState, name: string): NodeView {
    if name in s.nodes then s.nodes[name] else Blank(s.generation + 1)
  }

  function EntryGeneration(s: CacheState, name: string): int {
    if name in s.nodes then s.generation else s.generation + 1
  }

  /** addPod: creates a placeholder for an unknown node. */
  function PodAdded(s: CacheState, pod: Pod): CacheState {
    Touch(s, pod.nodeName, AddPodTo(EntryOf(s, pod.nodeName), pod, EntryGeneration(s, pod.nodeName) + 1))
  }

  /** removePod: a pod of an unknown node counts as removed already. */
  function PodRemoved(s: CacheState, pod: Pod): (CacheState, Outcome) {
    var n := pod.nodeName;
    if n !in s.nodes then (s, Ok)
    else
      var v := s.nodes[n];
      var w := RemovePodFrom(v, pod, s.generation + 1);
      match RemoveOutcomeOf(v, pod)
      case Removed => (Touch(s, n, w), Ok)
      case NoKey => (s, Failed(EmptyUID))
      case NotFound => (s.(nodes := s.nodes[n := w]), Failed(PodNotOnNode))
      case NilNodePanic => (s.(nodes := s.nodes[n := w]), Crashed)
  }

  /** A pod confirmed on another node: an error of the removal is only logged. */
  function PodMoved(s: CacheState, held: Pod, pod: Pod): (CacheState, Outcome) {
    var (t, r) := PodRemoved(s, held);
    if r.Crashed? then (t, r) else (PodAdded(t, pod), Ok)
  }

  /** updatePod: with no entry for the new node the held pod stays where it is. */
  function PodReplaced(s: CacheState, oldPod: Pod, newPod: Pod): (CacheState, Outcome) {
    if newPod.nodeName !in s.nodes then (s, Ok)
    else
      var (t, r) := PodRemoved(s, oldPod);
      (if r.Ok? then PodAdded(t, newPod) else t, r)
  }

  function Dropped(s: CacheState, key: string): CacheState {
    s.(assumedPods := s.assumedPods - {key}, podStates := s.podStates - {key})
  }

  predicate Assumed(s: CacheState, key: string) { key in s.podStates && key in s.assumedPods }

  // ---- pod operations ----

  function AssumePod(s: CacheState, pod: Pod): (CacheState, Outcome) {
    if pod.uid == "" then (s, Failed(EmptyUID))
    else if pod.uid in s.podStates then (s, Failed(PodInCache))
    else
      (PodAdded(s, pod).(podStates := s.podStates[pod.uid := PodState(pod, None, false)],
                         assumedPods := s.assumedPods + {pod.uid}), Ok)
  }

  function FinishBinding(s: CacheState, pod: Pod, now: int, ttl: int): (CacheState, Outcome) {
    if pod.uid == "" then (s, Failed(EmptyUID))
    else if Assumed(s, pod.uid) then
      (s.(podStates := s.podStates[pod.uid := PodState(s.podStates[pod.uid].pod, Some(now + ttl), true)]), Ok)
    else (s, Ok)
  }

  function ForgetPod(s: CacheState, pod: Pod): (CacheState, Outcome) {
    if pod.uid == "" then (s, Failed(EmptyUID))
    else if pod.uid in s.podStates && s.podStates[pod.uid].pod.nodeName != pod.nodeName then
      (s, Failed(AssignedElsewhere))
    else if Assumed(s, pod.uid) then
      var (t, r) := PodRemoved(s, pod);
      (if r.Ok? then Dropped(t, pod.uid) else t, r)
    else (s, Failed(NotAssumed))
  }

  /** AddPod: confirms an assumed pod, moving it when it was assumed on another node, or
      adds an unknown one. */
  function AddPod(s: CacheState, pod: Pod): (CacheState, Outcome) {
    if pod.uid == "" then (s, Failed(EmptyUID))
    else if Assumed(s, pod.uid) then
      var held := s.podStates[pod.uid];
      var (t, r) := if held.pod.nodeName != pod.nodeName then PodMoved(s, held.pod, pod) else (s, Ok);
      if !r.Ok? then (t, r)
      else
        (t.(assumedPods := t.assumedPods - {pod.uid},
            podStates := t.podStates[pod.uid := PodState(pod, None, held.bindingFinished)]), Ok)
    else if pod.uid !in s.podStates then
      (PodAdded(s, pod).(podStates := s.podStates[pod.uid := PodState(pod, None, false)]), Ok)
    else (s, Failed(AlreadyAdded))
  }

  function UpdatePod(s: CacheState, oldPod: Pod, newPod: Pod): (CacheState, Outcome) {
    if oldPod.uid == "" then (s, Failed(EmptyUID))
    else if oldPod.uid in s.podStates && oldPod.uid !in s.assumedPods then
      var key := oldPod.uid;
      var (t, r) := PodReplaced(s, oldPod, newPod);
      (if r.Ok? then t.(podStates := s.podStates[key := s.podStates[key].(pod := newPod)]) else t, r)
    else (s, Failed(NotAdded))
  }

  function RemovePod(s: CacheState, pod: Pod): (CacheState, Outcome) {
    if pod.uid == "" then (s, Failed(EmptyUID))
    else if pod.uid in s.podStates && pod.uid !in s.assumedPods then
      var held := s.podStates[pod.uid].pod;
      if held.nodeName != pod.nodeName then (s, Crashed)
      else
        var (t, r) := PodRemoved(s, held);
        (if r.Ok? then t.(podStates := t.podStates - {pod.uid}) else t, r)
    else (s, Failed(NotAdded))
  }

  // ---- node operations ----

  function NodeSet(s: CacheState, node: Node): CacheState {
    Touch(s, node.name, SetNodeOf(EntryOf(s, node.name), node, EntryGeneration(s, node.name) + 1))
  }

  function AddNode(s: CacheState, node: Node): (CacheState, Outcome) {
    (NodeSet(s, node).(tree := AddedNode(s.tree, node.zone, node.name)), Ok)
  }

  /** A node the cache does not know joins the tree first. */
  function Rezoned(t: TreeView, known: bool, oldNode: Node, newNode: Node): TreeView {
    UpdatedNode(if known then t else AddedNode(t, newNode.zone, newNode.name),
                oldNode.zone, newNode.zone, oldNode.name, newNode.name)
  }

  function UpdateNode(s: CacheState, oldNode: Node, newNode: Node): (CacheState, Outcome) {
    (NodeSet(s, newNode).(tree := Rezoned(s.tree, newNode.name in s.nodes, oldNode, newNode)), Ok)
  }

  function RemoveNode(s: CacheState, node: Node): (CacheState, Outcome) {
    if node.name !in s.nodes then (s, Failed(NodeUnknown))
    else
      (s.(nodes := s.nodes - {node.name}, order := Without(s.order, node.name),
          tree := RemovedNode(s.tree, node.zone, node.name)),
       if HasNode(s.tree, node.zone, node.name) then Ok else Failed(NodeNotInTree))
  }

  // ---- expiry ----

  /** expirePod. */
  function Expired(s: CacheState, key: string, pod: Pod): (CacheState, Outcome) {
    var (t, r) := PodRemoved(s, pod);
    (if r.Ok? then Dropped(t, key) else t, r)
  }

  /** One turn of the cleanup loop. */
  function Expire(s: CacheState, key: string, now: int): (CacheState, Outcome) {
    if key !in s.assumedPods then (s, Ok)
    else if key !in s.podStates then (s, Crashed)
    else
      var held := s.podStates[key];
      if !held.bindingFinished then (s, Ok)
      else if held.deadline.None? then (s, Crashed)
      else if now > held.deadline.value then
        var (t, r) := Expired(s, key, held.pod);
        (t, if r.Crashed? then r else Ok)
      else (s, Ok)
  }

  /** The cleanup loop over the assumed keys, in the order the map yields them. */
  function Cleanup(s: CacheState, now: int, keys: seq<string>, n: nat): (CacheState, Outcome)
    requires n <= |keys|
  {
    if n == 0 then (s, Ok)
    else
      var (t, r) := Cleanup(s, now, keys, n - 1);
      if r.Crashed? then (t, r) else Expire(t, keys[n - 1], now)
  }

  // ---- steps ----

  /** A step of the cache. The visiting order of a cleanup is part of the step, as is a
      generation taken by code outside the cache. */
  datatype Op =
    | Assume(pod: Pod)
    | Finish(pod: Pod, now: int)
    | Forget(pod: Pod)
    | Confirm(pod: Pod)
    | Update(oldPod: Pod, newPod: Pod)
    | Delete(pod: Pod)
    | NodeAdded(node: Node)
    | NodeUpdated(oldNode: Node, newNode: Node)
    | NodeRemoved(node: Node)
    | CleanupAt(now: int, visit: seq<string>)
    | GenerationTaken

  function Step(s: CacheState, op: Op, ttl: int): (CacheState, Outcome) {
    match op
    case Assume(pod) => AssumePod(s, pod)
    case Finish(pod, now) => FinishBinding(s, pod, now, ttl)
    case Forget(pod) => ForgetPod(s, pod)
    case Confirm(pod) => AddPod(s, pod)
    case Update(oldPod, newPod) => UpdatePod(s, oldPod, newPod)
    case Delete(pod) => RemovePod(s, pod)
    case NodeAdded(node) => AddNode(s, node)
    case NodeUpdated(oldNode, newNode) => UpdateNode(s, oldNode, newNode)
    case NodeRemoved(node) => RemoveNode(s, node)
    case CleanupAt(now, visit) => Cleanup(s, now, visit, |visit|)
    case GenerationTaken => (s.(generation := s.generation + 1), Ok)
  }

  /** The state after the first n steps of a run from the empty cache. */
  function Run(ops: seq<Op>, n: nat, ttl: int): CacheState
    requires n <= |ops|
  {
    if n == 0 then CacheState(map[], [], {}, map[], TreeView(map[], [], 0, 0), 0)
    else Step(Run(ops, n - 1, ttl), ops[n - 1], ttl).0
  }

  // ---- the list ----

  function Generations(nodes: map<string, NodeView>): map<string, int> {
    map n | n in nodes :: nodes[n].generation
  }

  /** Entries with a node are filed under its name. */
  ghost predicate Named(nodes: map<string, NodeView>) {
    forall n :: n in nodes && nodes[n].node.Some? ==> nodes[n].node.value.name == n
  }

  /** The list holds every node once, from the newest generation to the oldest. */
  ghost predicate Ordered(s: CacheState) {
    Decreasing(s.order, Generations(s.nodes), s.generation) && Named(s.nodes)
  }

  lemma GenerationsPut(nodes: map<string, NodeView>, name: string, v: NodeView)
    ensures Generations(nodes[name := v]) == Generations(nodes)[name := v.generation]
  {
  }

  lemma NamedPut(nodes: map<string, NodeView>, name: string, v: NodeView)
    requires Named(nodes) && (v.node.Some? ==> v.node.value.name == name)
    ensures Named(nodes[name := v])
  {
  }

  lemma TouchOrdered(s: CacheState, name: string, v: NodeView)
    requires Ordered(s) && v.generation > s.generation
    requires v.node.Some? ==> v.node.value.name == name
    ensures Ordered(Touch(s, name, v))
  {
    ToFrontDecreasing(s.order, Generations(s.nodes), s.generation, name, v.generation);
    GenerationsPut(s.nodes, name, v);
    NamedPut(s.nodes, name, v);
  }

  lemma AddedIsTouch(s: CacheState, pod: Pod)
    ensures PodAdded(s, pod) ==
      Touch(s, pod.nodeName, AddPodTo(EntryOf(s, pod.nodeName), pod, EntryGeneration(s, pod.nodeName) + 1))
  {
  }

  lemma TakenIsTouch(s: CacheState, pod: Pod, w: NodeView)
    requires pod.nodeName in s.nodes && RemoveOutcomeOf(s.nodes[pod.nodeName], pod).Removed?
    requires w == RemovePodFrom(s.nodes[pod.nodeName], pod, s.generation + 1)
    ensures PodRemoved(s, pod).0 == Touch(s, pod.nodeName, w)
  {
  }

  /** An entry may change under its old generation. */
  lemma EditOrdered(s: CacheState, name: string, v: NodeView)
    requires Ordered(s) && name in s.nodes
    requires v.generation == s.nodes[name].generation && v.node == s.nodes[name].node
    ensures Ordered(s.(nodes := s.nodes[name := v]))
  {
    GenerationsPut(s.nodes, name, v);
    NamedPut(s.nodes, name, v);
    assert Generations(s.nodes)[name := v.generation] == Generations(s.nodes);
  }

  lemma PodAddedOrdered(s: CacheState, pod: Pod)
    requires Ordered(s)
    ensures Ordered(PodAdded(s, pod))
  {
    var v, g := EntryOf(s, pod.nodeName), EntryGeneration(s, pod.nodeName) + 1;
    AddKeepsNode(v, pod, g);
    AddedIsTouch(s, pod);
    TouchOrdered(s, pod.nodeName, AddPodTo(v, pod, g));
  }

  /** A removal from the entry v of node n. */
  lemma TakenOrdered(s: CacheState, pod: Pod, n: string, v: NodeView)
    requires Ordered(s) && n == pod.nodeName && n in s.nodes && v == s.nodes[n]
    ensures Ordered(PodRemoved(s, pod).0)
  {
    var w := RemovePodFrom(v, pod, s.generation + 1);
    RemoveKeepsNode(v, pod, s.generation + 1);
    if RemoveOutcomeOf(v, pod).Removed? {
      TakenIsTouch(s, pod, w);
      TouchOrdered(s, n, w);
    } else if !RemoveOutcomeOf(v, pod).NoKey? {
      EditOrdered(s, n, w);
    }
  }

  lemma PodRemovedOrdered(s: CacheState, pod: Pod)
    requires Ordered(s)
    ensures Ordered(PodRemoved(s, pod).0)
  {
    if pod.nodeName in s.nodes {
      TakenOrdered(s, pod, pod.nodeName, s.nodes[pod.nodeName]);
    }
  }

  lemma NodeSetOrdered(s: CacheState, node: Node)
    requires Ordered(s)
    ensures Ordered(NodeSet(s, node))
  {
    var w := SetNodeOf(EntryOf(s, node.name), node, EntryGeneration(s, node.name) + 1);
    assert w.generation > s.generation && w.node == Some(node);
    TouchOrdered(s, node.name, w);
  }

  lemma NodeRemovedOrdered(s: CacheState, node: Node)
    requires Ordered(s)
    ensures Ordered(RemoveNode(s, node).0)
  {
    WithoutDecreasing(s.order, Generations(s.nodes), s.generation, node.name);
    assert Generations(s.nodes - {node.name}) == Generations(s.nodes) - {node.name};
  }

  lemma {:induction false} CleanupOrdered(s: CacheState, now: int, keys: seq<string>, n: nat)
    requires Ordered(s) && n <= |keys|
    ensures Ordered(Cleanup(s, now, keys, n).0)
  {
    if n > 0 {
      CleanupOrdered(s, now, keys, n - 1);
      ExpireOrdered(Cleanup(s, now, keys, n - 1).0, keys[n - 1], now);
    }
  }

  lemma ExpireOrdered(s: CacheState, key: string, now: int)
    requires Ordered(s)
    ensures Ordered(Expire(s, key, now).0)
  {
    if key in s.podStates {
      PodRemovedOrdered(s, s.podStates[key].pod);
    }
  }

  lemma PodMovedOrdered(s: CacheState, held: Pod, pod: Pod)
    requires Ordered(s)
    ensures Ordered(PodMoved(s, held, pod).0) && Ordered(PodReplaced(s, held, pod).0)
  {
    PodRemovedOrdered(s, held);
    PodAddedOrdered(PodRemoved(s, held).0, pod);
  }

  lemma AssumePodOrdered(s: CacheState, pod: Pod)
    requires Ordered(s)
    ensures Ordered(AssumePod(s, pod).0)
  {
    PodAddedOrdered(s, pod);
  }

  lemma ForgetPodOrdered(s: CacheState, pod: Pod)
    requires Ordered(s)
    ensures Ordered(ForgetPod(s, pod).0)
  {
    PodRemovedOrdered(s, pod);
  }

  lemma AddPodOrdered(s: CacheState, pod: Pod)
    requires Ordered(s)
    ensures Ordered(AddPod(s, pod).0)
  {
    if Assumed(s, pod.uid) {
      PodMovedOrdered(s, s.podStates[pod.uid].pod, pod);
    } else {
      PodAddedOrdered(s, pod);
    }
  }

  lemma UpdatePodOrdered(s: CacheState, oldPod: Pod, newPod: Pod)
    requires Ordered(s)
    ensures Ordered(UpdatePod(s, oldPod, newPod).0)
  {
    if oldPod.uid != "" && oldPod.uid in s.podStates && oldPod.uid !in s.assumedPods {
      PodMovedOrdered(s, oldPod, newPod);
      OrderedElsewhere(PodReplaced(s, oldPod, newPod).0, UpdatePod(s, oldPod, newPod).0);
    }
  }

  /** The states of pods do not matter to the list. */
  lemma OrderedElsewhere(s: CacheState, t: CacheState)
    requires Ordered(s) && t.nodes == s.nodes && t.order == s.order && t.generation == s.generation
    ensures Ordered(t)
  {
  }

  lemma RemovePodOrdered(s: CacheState, pod: Pod)
    requires Ordered(s)
    ensures Ordered(RemovePod(s, pod).0)
  {
    if pod.uid in s.podStates {
      PodRemovedOrdered(s, s.podStates[pod.uid].pod);
    }
  }

  /** Every step, whatever its arguments, keeps the list in step with the node map and
      strictly decreasing in generation. */
  lemma StepOrdered(s: CacheState, op: Op, ttl: int)
    requires Ordered(s)
    ensures Ordered(Step(s, op, ttl).0)
  {
    match op {
      case Assume(pod) => AssumePodOrdered(s, pod);
      case Finish(pod, now) =>
      case Forget(pod) => ForgetPodOrdered(s, pod);
      case Confirm(pod) => AddPodOrdered(s, pod);
      case Update(oldPod, newPod) => UpdatePodOrdered(s, oldPod, newPod);
      case Delete(pod) => RemovePodOrdered(s, pod);
      case CleanupAt(now, visit) => CleanupOrdered(s, now, visit, |visit|);
      case GenerationTaken =>
      case _ => NodeStepOrdered(s, op, ttl);
    }
  }

  lemma NodeStepOrdered(s: CacheState, op: Op, ttl: int)
    requires Ordered(s) && (op.NodeAdded? || op.NodeUpdated? || op.NodeRemoved?)
    ensures Ordered(Step(s, op, ttl).0)
  {
    match op {
      case NodeAdded(node) => NodeSetOrdered(s, node);
      case NodeUpdated(oldNode, newNode) => NodeSetOrdered(s, newNode);
      case NodeRemoved(node) => NodeRemovedOrdered(s, node);
    }
  }

  lemma {:induction false} RunOrdered(ops: seq<Op>, n: nat, ttl: int)
    requires n <= |ops|
    ensures Ordered(Run(ops, n, ttl))
  {
    if n > 0 {
      RunOrdered(ops, n - 1, ttl);
      StepOrdered(Run(ops, n - 1, ttl), ops[n - 1], ttl);
    }
  }

  // ---- what an addition and a removal do to the list ----

  /** Entry n is the newest one and heads the list, and the others stay as they were and in
      their order. */
  ghost predicate MovedAhead(s: CacheState, t: CacheState, n: string) {
    && n in t.nodes && t.order != [] && t.order[0] == n && Without(t.order, n) == Without(s.order, n)
    && (forall m :: m != n ==> (m in t.nodes <==> m in s.nodes) && (m in s.nodes ==> t.nodes[m] == s.nodes[m]))
    && (forall m :: m in t.nodes && m != n ==> t.nodes[m].generation < t.nodes[n].generation)
  }

  lemma TouchMovesAhead(s: CacheState, n: string, v: NodeView)
    requires Ordered(s) && v.generation > s.generation
    ensures MovedAhead(s, Touch(s, n, v), n)
  {
    var t, w := Touch(s, n, v), Without(s.order, n);
    assert IndexOf([n] + w, n, 0) == 0;
    assert ([n] + w)[..0] + ([n] + w)[1..] == w;
    forall m | m in t.nodes && m != n
      ensures t.nodes[m].generation <= s.generation
    {
      assert m in Generations(s.nodes);
    }
  }

  /** addPod: the entry gains the pod at the end; a new entry is a placeholder without a
      node. */
  lemma PodAddedMovesAhead(s: CacheState, pod: Pod)
    requires Ordered(s)
    ensures var n, t := pod.nodeName, PodAdded(s, pod);
            && MovedAhead(s, t, n)
            && t.nodes[n].pods == (if n in s.nodes then s.nodes[n].pods else []) + [pod]
            && t.nodes[n].node == if n in s.nodes then s.nodes[n].node else None
  {
    var v, g := EntryOf(s, pod.nodeName), EntryGeneration(s, pod.nodeName) + 1;
    AddKeepsNode(v, pod, g);
    AddedIsTouch(s, pod);
    TouchMovesAhead(s, pod.nodeName, AddPodTo(v, pod, g));
  }

  /** A removal that finds the pod: the entry keeps its node and loses one pod with the
      key, the others staying up to order. */
  lemma PodTakenMovesAhead(s: CacheState, pod: Pod)
    requires Ordered(s) && pod.nodeName in s.nodes && RemoveOutcomeOf(s.nodes[pod.nodeName], pod).Removed?
    ensures var n, t := pod.nodeName, PodRemoved(s, pod).0;
            var i := Position(s.nodes[n].pods, pod.uid, 0);
            && MovedAhead(s, t, n) && t.nodes[n].node == s.nodes[n].node
            && i < |s.nodes[n].pods|
            && multiset(t.nodes[n].pods) == multiset(s.nodes[n].pods) - multiset{s.nodes[n].pods[i]}
  {
    var n := pod.nodeName;
    var v, w := s.nodes[n], RemovePodFrom(s.nodes[n], pod, s.generation + 1);
    RemoveKeepsNode(v, pod, s.generation + 1);
    TakenIsTouch(s, pod, w);
    TouchMovesAhead(s, n, w);
    SwapDeleteMultiset(v.pods, Position(v.pods, pod.uid, 0));
  }
}
