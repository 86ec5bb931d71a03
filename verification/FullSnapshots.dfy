/** A snapshot built from scratch out of lists of pods and nodes, and its agreement with
    what the cache keeps up to date step by step (internal/cache/snapshot.go). */
module FullSnapshots {
  import opened Api
  import opened NodeInfos
  import opened HostPorts
  import opened Admission
  import opened Sequences
  import opened CacheModel
  import opened CacheConservation
  import opened Snapshots
  import opened SnapshotRuns
  import opened SnapshotLists
  import opened SnapshotUpdates
  import opened NodeTrees

  // ---- createNodeInfoMap on values ----

  /** The first i pods added to s. */
  function WithPods(s: CacheState, pods: seq<Pod>, i: nat): CacheState
    requires i <= |pods|
  {
    if i == 0 then s else PodAdded(WithPods(s, pods, i - 1), pods[i - 1])
  }

  /** The first j nodes set in s. */
  function WithNodes(s: CacheState, nodes: seq<Node>, j: nat): CacheState
    requires j <= |nodes|
  {
    if j == 0 then s else NodeSet(WithNodes(s, nodes, j - 1), nodes[j - 1])
  }

  /** Both, from a state s without entries, whose generation is the last one taken. */
  function Built(s: CacheState, pods: seq<Pod>, nodes: seq<Node>): map<string, NodeView> {
    WithNodes(WithPods(s, pods, |pods|), nodes, |nodes|).nodes
  }

  // ---- what it holds under one name ----

  function OnNode(pods: seq<Pod>, i: nat, n: string): seq<Pod>
    requires i <= |pods|
  {
    Filter((p: Pod) => p.nodeName == n, pods, i)
  }

  /** The last of the first j nodes that has the name. */
  function LastNamed(nodes: seq<Node>, j: nat, n: string): Option<Node>
    requires j <= |nodes|
  {
    if j == 0 then None else if nodes[j - 1].name == n then Some(nodes[j - 1]) else LastNamed(nodes, j - 1, n)
  }

  /** The entry holds these pods and keeps its totals over them. */
  ghost predicate Loaded(v: NodeView, pods: seq<Pod>) {
    v.pods == pods && TotalsAreSums(v) && AffinitySubset(v) && PortsExact(v)
  }

  lemma BlankLoaded(g: int)
    ensures Loaded(Blank(g), [])
  {
    forall m | Measured(m)
      ensures Recorded(Blank(g), m) == Total(m, Blank(g).pods)
    {
    }
  }

  lemma AddLoaded(v: NodeView, pods: seq<Pod>, pod: Pod, g: int)
    requires Loaded(v, pods)
    ensures Loaded(AddPodTo(v, pod, g), pods + [pod])
  {
    AddPodSums(v, pod, g);
    AdmittedPorts(v, pod, g);
  }

  lemma SetLoaded(v: NodeView, pods: seq<Pod>, node: Node, g: int)
    requires Loaded(v, pods)
    ensures Loaded(SetNodeOf(v, node, g), pods)
  {
    var w := SetNodeOf(v, node, g);
    forall m | Measured(m)
      ensures Recorded(w, m) == Total(m, w.pods)
    {
      assert Recorded(w, m) == Recorded(v, m);
    }
  }

  ghost predicate PodsOf(s: CacheState, n: string, pods: seq<Pod>) {
    && (n in s.nodes <==> pods != [])
    && (n in s.nodes ==> s.nodes[n].node == None && Loaded(s.nodes[n], pods))
  }

  lemma AddedAt(s: CacheState, pod: Pod, n: string)
    requires n == pod.nodeName
    ensures n in PodAdded(s, pod).nodes
    ensures PodAdded(s, pod).nodes[n] == AddPodTo(EntryOf(s, n), pod, EntryGeneration(s, n) + 1)
  {
    AddedIsTouch(s, pod);
  }

  lemma PodsOfAdded(s: CacheState, n: string, pods: seq<Pod>, pod: Pod)
    requires PodsOf(s, n, pods) && pod.nodeName == n
    ensures PodsOf(PodAdded(s, pod), n, pods + [pod])
  {
    AddedAt(s, pod, n);
    if n !in s.nodes {
      BlankLoaded(s.generation + 1);
    }
    AddLoaded(EntryOf(s, n), pods, pod, EntryGeneration(s, n) + 1);
    AddKeepsNode(EntryOf(s, n), pod, EntryGeneration(s, n) + 1);
  }

  lemma PodsOfOther(s: CacheState, n: string, pods: seq<Pod>, pod: Pod)
    requires PodsOf(s, n, pods) && pod.nodeName != n
    ensures PodsOf(PodAdded(s, pod), n, pods)
  {
    AddedIsTouch(s, pod);
  }

  lemma PodsOfStep(s: CacheState, n: string, pods: seq<Pod>, pod: Pod)
    requires PodsOf(s, n, pods)
    ensures PodsOf(PodAdded(s, pod), n, if pod.nodeName == n then pods + [pod] else pods)
  {
    if pod.nodeName == n {
      PodsOfAdded(s, n, pods, pod);
    } else {
      PodsOfOther(s, n, pods, pod);
    }
  }

  lemma {:induction false} PodsAt(start: CacheState, pods: seq<Pod>, i: nat, n: string)
    requires i <= |pods| && start.nodes == map[]
    ensures PodsOf(WithPods(start, pods, i), n, OnNode(pods, i, n))
  {
    if i > 0 {
      PodsAt(start, pods, i - 1, n);
      var s, on, pod := WithPods(start, pods, i - 1), OnNode(pods, i - 1, n), pods[i - 1];
      PodsOfStep(s, n, on, pod);
      assert OnNode(pods, i, n) == if pod.nodeName == n then on + [pod] else on;
    }
  }

  /** What setting nodes makes of the entry of a name. */
  ghost predicate NodeOf(s: CacheState, t: CacheState, n: string, last: Option<Node>) {
    && (n in t.nodes <==> n in s.nodes || last.Some?)
    && (n in s.nodes && last.None? ==> t.nodes[n] == s.nodes[n])
    && (n in s.nodes && Loaded(s.nodes[n], s.nodes[n].pods) ==> Loaded(t.nodes[n], s.nodes[n].pods))
    && (n in t.nodes && n !in s.nodes ==> Loaded(t.nodes[n], []))
    && (n in t.nodes && last.Some? ==> t.nodes[n].node == last && Allotted(t.nodes[n]))
  }

  lemma NodeOfSet(s: CacheState, t: CacheState, n: string, last: Option<Node>, node: Node)
    requires NodeOf(s, t, n, last) && node.name == n
    ensures NodeOf(s, NodeSet(t, node), n, Some(node))
  {
    var v := EntryOf(t, n);
    BlankLoaded(t.generation + 1);
    if Loaded(v, v.pods) {
      SetLoaded(v, v.pods, node, EntryGeneration(t, n) + 1);
    }
  }

  lemma {:induction false} NodesAt(s: CacheState, nodes: seq<Node>, j: nat, n: string)
    requires j <= |nodes|
    ensures NodeOf(s, WithNodes(s, nodes, j), n, LastNamed(nodes, j, n))
  {
    if j > 0 {
      NodesAt(s, nodes, j - 1, n);
      if nodes[j - 1].name == n {
        NodeOfSet(s, WithNodes(s, nodes, j - 1), n, LastNamed(nodes, j - 1, n), nodes[j - 1]);
      }
    }
  }

  lemma {:induction false} LastNamedIs(nodes: seq<Node>, j: nat, n: string)
    requires j <= |nodes|
    ensures LastNamed(nodes, j, n).Some? ==>
      LastNamed(nodes, j, n).value in nodes && LastNamed(nodes, j, n).value.name == n
    ensures LastNamed(nodes, j, n).None? ==> forall i :: 0 <= i < j ==> nodes[i].name != n
  {
    if j > 0 {
      LastNamedIs(nodes, j - 1, n);
    }
  }

  // ---- agreement with the cache ----

  /** The lists name what the cache holds: its pods node by node, in any order, and the
      nodes of its entries. */
  ghost predicate Lists(s: CacheState, pods: seq<Pod>, nodes: seq<Node>) {
    && (forall n :: multiset(OnNode(pods, |pods|, n)) == if n in s.nodes then multiset(s.nodes[n].pods) else multiset{})
    && (forall node :: node in nodes ==> Backed(s, node.name) && s.nodes[node.name].node == Some(node))
    && (forall n :: Backed(s, n) ==> s.nodes[n].node.value in nodes)
  }

  /** Entries that differ in nothing but the order of their pods and their generation. */
  ghost predicate SameEntry(v: NodeView, w: NodeView) {
    && v.node == w.node && (v.node.Some? ==> v.allocatable == w.allocatable)
    && multiset(v.pods) == multiset(w.pods)
    && multiset(v.podsWithAffinity) == multiset(w.podsWithAffinity)
    && forall m :: Measured(m) ==> Recorded(v, m) == Recorded(w, m)
  }

  /** A cached entry against the one built from scratch: their used ports agree exactly if the
      cached ones are those of its pods. */
  ghost predicate SameAsBuilt(built: NodeView, v: NodeView) {
    SameEntry(built, v) && (built.usedPorts == v.usedPorts <==> PortsExact(v))
  }

  lemma {:induction false} InPortsOf(pods: seq<Pod>, x: PortKey)
    ensures x in PortsOf(pods) <==> exists p :: p in pods && x in KeysOfPod(p)
  {
    InUnion(KeySets(pods), |pods|, x);
    if p :| p in pods && x in KeysOfPod(p) {
      var i :| 0 <= i < |pods| && pods[i] == p;
      assert x in KeySets(pods)[i];
    }
  }

  /** The used ports agree if and only if those of the second entry are exactly the ports of
      its pods. */
  lemma PortsAgreeIff(v: NodeView, w: NodeView)
    requires PortsExact(v) && NoEmptyIP(w.usedPorts) && multiset(v.pods) == multiset(w.pods)
    ensures v.usedPorts == w.usedPorts <==> PortsExact(w)
  {
    forall x
      ensures x in PortsOf(v.pods) <==> x in PortsOf(w.pods)
    {
      InPortsOf(v.pods, x);
      InPortsOf(w.pods, x);
      assert forall p :: p in v.pods <==> p in multiset(v.pods);
      assert forall p :: p in w.pods <==> p in multiset(w.pods);
    }
    if PortsExact(w) {
      TakenDetermines(v.usedPorts, w.usedPorts);
    }
  }

  lemma LoadedSame(v: NodeView, w: NodeView)
    requires Loaded(v, v.pods) && TotalsAreSums(w) && AffinitySubset(w) && multiset(v.pods) == multiset(w.pods)
    requires v.node == w.node && Allotted(v) && Allotted(w)
    ensures SameEntry(v, w)
  {
    forall m | Measured(m)
      ensures Recorded(v, m) == Recorded(w, m)
    {
      SumOfMultiset(Weigher(m), v.pods, w.pods);
    }
  }

  lemma NoPods(pods: seq<Pod>)
    ensures multiset(pods) == multiset{} <==> pods == []
  {
    if pods != [] {
      assert pods[0] in multiset(pods);
    }
  }

  /** The cache agrees with the map built from scratch out of its pods and nodes, apart
      from placeholders without pods, which the cache keeps. */
  lemma CacheIsFull(s: CacheState, pods: seq<Pod>, nodes: seq<Node>, start: CacheState, n: string)
    requires Conserving(s) && Named(s.nodes) && Lists(s, pods, nodes) && start.nodes == map[]
    ensures n in Built(start, pods, nodes) <==> n in s.nodes && (Backed(s, n) || s.nodes[n].pods != [])
    ensures n in Built(start, pods, nodes) ==> SameAsBuilt(Built(start, pods, nodes)[n], s.nodes[n])
  {
    var b, on := WithPods(start, pods, |pods|), OnNode(pods, |pods|, n);
    PodsAt(start, pods, |pods|, n);
    NodesAt(b, nodes, |nodes|, n);
    LastNamedIs(nodes, |nodes|, n);
    NoPods(on);
    if n in s.nodes {
      NoPods(s.nodes[n].pods);
    }
    var last := LastNamed(nodes, |nodes|, n);
    assert last.Some? <==> Backed(s, n);
    if n in Built(start, pods, nodes) {
      LoadedSame(Built(start, pods, nodes)[n], s.nodes[n]);
      PortsAgreeIff(Built(start, pods, nodes)[n], s.nodes[n]);
    }
  }

  lemma BackedIf(s: CacheState, n: string)
    requires AllBacked(s)
    ensures n in s.nodes ==> Backed(s, n)
  {
    assert n in s.nodes ==> n in NamedNodes(s);
  }

  /** So does a snapshot that equals the cache, if there are no placeholders. */
  lemma SnapshotIsFull(s: CacheState, p: SnapState, pods: seq<Pod>, nodes: seq<Node>, start: CacheState)
    requires Conserving(s) && Named(s.nodes) && Lists(s, pods, nodes) && start.nodes == map[]
    requires AllBacked(s) && p.infos == s.nodes
    ensures Built(start, pods, nodes).Keys == p.infos.Keys
    ensures forall n :: n in p.infos ==> SameAsBuilt(Built(start, pods, nodes)[n], p.infos[n])
  {
    AllAreFull(s, Built(start, pods, nodes), pods, nodes, start);
  }

  lemma AllAreFull(s: CacheState, built: map<string, NodeView>, pods: seq<Pod>, nodes: seq<Node>, start: CacheState)
    requires Conserving(s) && Named(s.nodes) && Lists(s, pods, nodes) && start.nodes == map[]
    requires AllBacked(s) && built == Built(start, pods, nodes)
    ensures built.Keys == s.nodes.Keys
    ensures forall n :: n in s.nodes ==> SameAsBuilt(built[n], s.nodes[n])
  {
    forall n
      ensures n in built <==> n in s.nodes
    {
      NameIsFull(s, built, pods, nodes, start, n);
    }
    forall n | n in s.nodes
      ensures SameAsBuilt(built[n], s.nodes[n])
    {
      NameIsFull(s, built, pods, nodes, start, n);
    }
  }

  lemma NameIsFull(s: CacheState, built: map<string, NodeView>, pods: seq<Pod>, nodes: seq<Node>, start: CacheState,
          n: string)
    requires Conserving(s) && Named(s.nodes) && Lists(s, pods, nodes) && start.nodes == map[]
    requires AllBacked(s) && built == Built(start, pods, nodes)
    ensures n in built <==> n in s.nodes
    ensures n in s.nodes ==> SameAsBuilt(built[n], s.nodes[n])
  {
    CacheIsFull(s, pods, nodes, start, n);
    BackedIf(s, n);
  }

  lemma UpdateBacked(y: System, deleted: set<string>, ttl: int)
    requires AllBacked(y.cache)
    ensures AllBacked(React(y, SnapshotTaken(deleted), ttl).cache)
  {
    UpdateMap(y.cache, y.snap, deleted);
    var t := Snapshots.UpdateSnapshot(y.cache, y.snap, deleted).0;
    assert NamedNodes(t) == NamedNodes(y.cache);
  }

  /** In an orderly run each update leaves a snapshot that agrees with one built from
      scratch out of the pods and nodes of the cache. */
  lemma EveryUpdateIsFull(events: seq<Event>, n: nat, ttl: int, pods: seq<Pod>, nodes: seq<Node>, start: CacheState)
    requires 0 < n <= |events| && AllOrderly(events, n, ttl) && events[n - 1].SnapshotTaken?
    requires Lists(SystemRun(events, n, ttl).cache, pods, nodes) && start.nodes == map[]
    ensures Built(start, pods, nodes).Keys == SystemRun(events, n, ttl).snap.infos.Keys
    ensures var infos := SystemRun(events, n, ttl).snap.infos;
            forall m :: m in infos ==> SameAsBuilt(Built(start, pods, nodes)[m], infos[m])
  {
    EveryUpdateIsExact(events, n, ttl);
    RunExact(events, n, ttl);
    OrderlyAt(events, n, ttl);
    UpdateBacked(SystemRun(events, n - 1, ttl), events[n - 1].deleted, ttl);
    SnapshotIsFull(SystemRun(events, n, ttl).cache, SystemRun(events, n, ttl).snap, pods, nodes, start);
  }

  // ---- the loops ----

  /** One turn of the loop over the pods. */
  method AddOne(infos: map<string, NodeView>, taken: int, pod: Pod, ghost s: CacheState)
    returns (next: map<string, NodeView>, generation: int, ghost t: CacheState)
    requires infos == s.nodes && taken == s.generation
    ensures t == PodAdded(s, pod) && next == t.nodes && generation == t.generation
  {
    var v, g := Blank(taken + 1), taken + 1;
    if pod.nodeName in infos {
      v, g := infos[pod.nodeName], taken;
    }
    generation := g + 1;
    next := infos[pod.nodeName := AddPodTo(v, pod, generation)];
    AddKeepsNode(v, pod, generation);
    AddedIsTouch(s, pod);
    t := PodAdded(s, pod);
  }

  /** One turn of the loop over the nodes. */
  method SetOne(infos: map<string, NodeView>, taken: int, node: Node, ghost s: CacheState)
    returns (next: map<string, NodeView>, generation: int, ghost t: CacheState)
    requires infos == s.nodes && taken == s.generation
    ensures t == NodeSet(s, node) && next == t.nodes && generation == t.generation
  {
    var v, g := Blank(taken + 1), taken + 1;
    if node.name in infos {
      v, g := infos[node.name], taken;
    }
    generation := g + 1;
    next := infos[node.name := SetNodeOf(v, node, generation)];
    t := NodeSet(s, node);
  }

  /** createNodeInfoMap; `taken` is the last generation taken. */
  method CreateNodeInfoMap(pods: seq<Pod>, nodes: seq<Node>, taken: int, ghost s: CacheState)
    returns (infos: map<string, NodeView>, generation: int)
    requires s.nodes == map[] && s.generation == taken
    ensures infos == Built(s, pods, nodes)
  {
    infos, generation := map[], taken;
    ghost var t := s;
    for i := 0 to |pods|
      invariant t == WithPods(s, pods, i) && infos == t.nodes && generation == t.generation
    {
      infos, generation, t := AddOne(infos, generation, pods[i], t);
    }
    ghost var u := t;
    for j := 0 to |nodes|
      invariant u == WithNodes(t, nodes, j) && infos == u.nodes && generation == u.generation
    {
      infos, generation, u := SetOne(infos, generation, nodes[j], u);
    }
  }

  /** The loop of NewSnapshot: the lists are in the order in which the map yields its keys. */
  method ListAll(infos: map<string, NodeView>) returns (list: seq<string>, affinityList: seq<string>)
    ensures EachOnce(list, infos.Keys) && affinityList == WithAffinity(infos, list, |list|)
  {
    list, affinityList := [], [];
    var rest := infos.Keys;
    while rest != {}
      invariant rest <= infos.Keys && EachOnce(list, infos.Keys - rest)
      invariant affinityList == WithAffinity(infos, list, |list|)
      decreases rest
    {
      var name :| name in rest;
      EachOnceMore(list, infos.Keys - rest, name);
      WithAffinityPrefix(infos, list, list + [name], |list|);
      rest := rest - {name};
      assert infos.Keys - rest == infos.Keys - (rest + {name}) + {name};
      list := list + [name];
      if HasAffinityPods(infos[name]) {
        affinityList := affinityList + [name];
      }
    }
  }

  lemma EachOnceMore(names: seq<string>, listed: set<string>, name: string)
    requires EachOnce(names, listed) && name !in listed
    ensures EachOnce(names + [name], listed + {name})
  {
    assert forall n :: n in names + [name] <==> n in names || n == name;
    assert forall n :: n in names <==> n in (set m | m in names);
  }
}
