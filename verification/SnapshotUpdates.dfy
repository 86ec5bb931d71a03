/** UpdateSnapshot on the objects: the walk along the pointers of the list, the deletion
    loop and the lists made from the cursor (internal/cache/cache.go). */
module SnapshotUpdates {
  import opened NodeInfos
  import opened NodeTrees
  import opened NodeTreeObjects
  import opened CacheModel
  import opened CacheLists
  import opened CacheEntries
  import opened SnapshotObjects
  import opened Snapshots
  import opened SchedulerCaches

  type Entries = NodeEntries<string, NodeView>

  type Snap = Snapshot<string, NodeView>

  type Item = NodeInfoListItem<string, NodeView>

  /** From place i on, the pointers lead through the entries in list order. */
  ghost predicate Leads(items: seq<Item>, s: CacheState, i: nat)
    requires i <= |items|
    reads items
    decreases |items| - i
  {
    i < |items| ==>
      && i < |s.order| && s.order[i] in s.nodes && items[i].info == s.nodes[s.order[i]]
      && items[i].next == ItemAt(items, i + 1)
      && Leads(items, s, i + 1)
  }

  lemma {:induction false} EntriesLead(entries: Entries, s: CacheState, i: nat)
    requires entries.Valid() && entries.views == s.nodes && entries.order == s.order && i <= |s.order|
    ensures |entries.list.items| == |s.order| && Leads(entries.list.items, s, i)
    decreases |s.order| - i
  {
    if i < |s.order| {
      ItemIs(entries, i);
      EntriesLead(entries, s, i + 1);
    }
  }

  /** The loop from headNode on, up to the first entry that is not newer. */
  method WalkNewer(headNode: NodeInfoListItem?<string, NodeView>, snap: Snap, ghost items: seq<Item>,
          ghost s: CacheState)
    returns (updateAllLists: bool, updateAffinity: bool)
    requires |items| == |s.order| && Leads(items, s, 0) && headNode == ItemAt(items, 0)
    requires snap.Valid() && snap.Listed()
    modifies snap`nodeInfoMap, snap`infos, snap`cells, snap.cells
    ensures snap.Valid() && snap.Listed() && fresh(snap.cells - old(snap.cells))
    ensures Walked(snap.infos, updateAllLists, updateAffinity) ==
            Walk(s, old(snap.infos), Newer(s, snap.generation, 0))
  {
    updateAllLists, updateAffinity := false, false;
    var node := headNode;
    ghost var i := 0;
    while node != null && node.info.generation > snap.generation
      invariant i <= |items| && Leads(items, s, i) && node == ItemAt(items, i)
      invariant snap.Valid() && snap.Listed() && fresh(snap.cells - old(snap.cells))
      invariant Newer(s, snap.generation, i) == Newer(s, snap.generation, 0)
      invariant Walked(snap.infos, updateAllLists, updateAffinity) == Walk(s, old(snap.infos), i)
      decreases |items| - i
    {
      updateAllLists, updateAffinity := Turn(snap, node.info, updateAllLists, updateAffinity);
      node := node.next;
      i := i + 1;
    }
  }

  /** One turn: an entry with a node is cloned into the snapshot. */
  method Turn(snap: Snap, v: NodeView, all: bool, affinity: bool) returns (updateAllLists: bool, updateAffinity: bool)
    requires snap.Valid() && snap.Listed()
    modifies snap`nodeInfoMap, snap`infos, snap`cells, snap.cells
    ensures snap.Valid() && snap.Listed() && fresh(snap.cells - old(snap.cells))
    ensures Walked(snap.infos, updateAllLists, updateAffinity) == Refreshed(Walked(old(snap.infos), all, affinity), v)
  {
    updateAllLists, updateAffinity := all, affinity;
    if v.node.Some? {
      var name := v.node.value.name;
      var had := name in snap.nodeInfoMap && HasAffinityPods(snap.nodeInfoMap[name].info);
      var existed := snap.Refresh(name, v);
      updateAllLists := all || !existed;
      updateAffinity := affinity || had != HasAffinityPods(v);
    }
  }

  // ---- the lists ----

  lemma {:induction false} WithAffinityPrefix(infos: map<string, NodeView>, a: seq<string>, b: seq<string>, k: nat)
    requires k <= |a| && a <= b
    ensures WithAffinity(infos, a, k) == WithAffinity(infos, b, k)
  {
    if k > 0 {
      WithAffinityPrefix(infos, a, b, k - 1);
    }
  }

  /** From the tree t on, next returns the names from place i on and ends at `last`. */
  ghost predicate Deals(t: TreeView, names: seq<string>, i: nat, last: TreeView)
    requires i <= |names|
    decreases |names| - i
  {
    if i == |names| then t == last
    else TreeShape(t) && Next(t).0 == names[i] && Deals(Next(t).1, names, i + 1, last)
  }

  /** Call number i of next. */
  lemma DealtAt(t: TreeView, i: nat)
    requires TreeValid(t) && i < t.numNodes
    ensures i < |Dealt(t)| && TreeShape(TreeAfter(t, i))
    ensures Dealt(t)[i] == Next(TreeAfter(t, i)).0
    ensures TreeAfter(t, i + 1) == Next(TreeAfter(t, i)).1
  {
    CountsPositions(t);
    assert t.zones != [];
    RunIsRun(t, i);
    assert NameOf(t, i) == Dealt(t)[i];
  }

  lemma {:induction false} DealtDeals(t: TreeView, i: nat)
    requires TreeValid(t) && i <= t.numNodes
    ensures Deals(TreeAfter(t, i), Dealt(t), i, Turned(t))
    decreases t.numNodes - i
  {
    if i < t.numNodes {
      DealtDeals(t, i + 1);
      DealtAt(t, i);
    }
  }

  lemma DealtFromStart(t: TreeView)
    requires TreeValid(t)
    ensures Deals(t, Dealt(t), 0, Turned(t)) && |Dealt(t)| == t.numNodes
  {
    DealtDeals(t, 0);
  }

  method DealName(tree: NodeTree, ghost names: seq<string>, ghost i: nat, ghost last: TreeView)
    returns (nodeName: string)
    requires tree.Valid() && i < |names| && Deals(tree.view, names, i, last)
    modifies tree`zoneIndex, tree`view, tree.arrays
    ensures tree.Valid() && nodeName == names[i] && Deals(tree.view, names, i + 1, last)
  {
    nodeName := tree.Next();
  }

  /** The lists after the first k names. */
  ghost predicate ListsAt(infos: map<string, NodeView>, dealt: seq<string>, k: nat, names: seq<string>,
          affinityNames: seq<string>)
    requires k <= |dealt|
  {
    names == Present(infos, dealt, k) && affinityNames == WithAffinity(infos, names, |names|)
  }

  /** A name of the tree that the map does not know is passed over. */
  method ListName(snap: Snap, nodeName: string, ghost dealt: seq<string>, ghost i: nat)
    requires snap.Valid() && snap.Listed() && i < |dealt| && nodeName == dealt[i]
    requires ListsAt(snap.infos, dealt, i, snap.names, snap.affinityNames)
    modifies snap`nodeInfoList, snap`names, snap`affinityList, snap`affinityNames
    ensures snap.Valid() && snap.Listed()
    ensures ListsAt(snap.infos, dealt, i + 1, snap.names, snap.affinityNames)
  {
    if nodeName in snap.nodeInfoMap {
      WithAffinityPrefix(snap.infos, snap.names, snap.names + [nodeName], |snap.names|);
      snap.Append(nodeName);
      if HasAffinityPods(snap.nodeInfoMap[nodeName].info) {
        snap.AppendAffinity(snap.nodeInfoMap[nodeName], nodeName);
      }
    }
  }

  /** One turn of the listing loop. */
  method DealOne(tree: NodeTree, snap: Snap, ghost dealt: seq<string>, ghost i: nat, ghost last: TreeView)
    requires tree.Valid() && i < |dealt| && Deals(tree.view, dealt, i, last)
    requires snap.Valid() && snap.Listed() && ListsAt(snap.infos, dealt, i, snap.names, snap.affinityNames)
    modifies tree`zoneIndex, tree`view, tree.arrays
    modifies snap`nodeInfoList, snap`names, snap`affinityList, snap`affinityNames
    ensures tree.Valid() && Deals(tree.view, dealt, i + 1, last)
    ensures snap.Valid() && snap.Listed() && ListsAt(snap.infos, dealt, i + 1, snap.names, snap.affinityNames)
  {
    var nodeName := DealName(tree, dealt, i, last);
    ListName(snap, nodeName, dealt, i);
  }

  /** The listing loop. */
  method DealAll(tree: NodeTree, snap: Snap, ghost dealt: seq<string>, ghost last: TreeView)
    requires tree.Valid() && Deals(tree.view, dealt, 0, last) && tree.numNodes == |dealt|
    requires snap.Valid() && snap.Listed() && ListsAt(snap.infos, dealt, 0, snap.names, snap.affinityNames)
    modifies tree`zoneIndex, tree`view, tree.arrays
    modifies snap`nodeInfoList, snap`names, snap`affinityList, snap`affinityNames
    ensures tree.Valid() && tree.view == last
    ensures snap.Valid() && snap.Listed() && ListsAt(snap.infos, dealt, |dealt|, snap.names, snap.affinityNames)
  {
    for i := 0 to tree.numNodes
      invariant tree.Valid() && Deals(tree.view, dealt, i, last)
      invariant snap.Valid() && snap.Listed() && ListsAt(snap.infos, dealt, i, snap.names, snap.affinityNames)
    {
      DealOne(tree, snap, dealt, i, last);
    }
  }

  twostate lemma TreeKept(tree: NodeTree)
    requires old(tree.Valid()) && unchanged(tree) && unchanged(tree.arrays)
    ensures tree.Valid()
  {
  }

  /** updateNodeInfoSnapshotList with updateAll: the cursor deals out the names. */
  method DealLists(tree: NodeTree, snap: Snap)
    requires tree.Valid() && TreeValid(tree.view) && snap.Valid()
    modifies tree`zoneIndex, tree`view, tree.arrays
    modifies snap`nodeInfoList, snap`names, snap`affinityList, snap`affinityNames
    ensures tree.Valid() && tree.view == Turned(old(tree.view)) && snap.Valid() && snap.Listed()
    ensures ListsAt(snap.infos, Dealt(old(tree.view)), |Dealt(old(tree.view))|, snap.names, snap.affinityNames)
  {
    ghost var t := tree.view;
    DealtFromStart(t);
    ghost var dealt, last := Dealt(t), Turned(t);
    label before:
    snap.StartLists(true);
    TreeKept@before(tree);
    assert ListsAt(snap.infos, dealt, 0, snap.names, snap.affinityNames);
    DealAll(tree, snap, dealt, last);
  }

  /** updateNodeInfoSnapshotList without updateAll. */
  method SiftList(snap: Snap)
    requires snap.Valid() && snap.Listed()
    modifies snap`nodeInfoList, snap`names, snap`affinityList, snap`affinityNames
    ensures snap.Valid() && snap.Listed() && snap.names == old(snap.names)
    ensures snap.affinityNames == WithAffinity(snap.infos, snap.names, |snap.names|)
  {
    snap.StartLists(false);
    for i := 0 to |snap.nodeInfoList|
      invariant snap.Valid() && snap.Listed() && snap.names == old(snap.names)
      invariant snap.affinityNames == WithAffinity(snap.infos, snap.names, i)
    {
      var n := snap.nodeInfoList[i];
      if HasAffinityPods(n.info) {
        snap.AppendAffinity(n, snap.names[i]);
      }
    }
  }

  // ---- the update ----

  ghost function ValueOf(snap: Snap): SnapState
    reads snap
  {
    SnapState(snap.infos, snap.names, snap.affinityNames, snap.generation)
  }

  /** The generation of the newest entry, or g without one. */
  ghost function Newest(s: CacheState, g: int): int {
    if s.order == [] then g else GenerationAt(s, s.order[0])
  }

  /** Entries that nothing writes to stay as they are. */
  twostate lemma EntriesKept(entries: Entries)
    requires old(entries.Valid())
    requires unchanged(entries) && unchanged(entries.list) && unchanged(entries.held)
    ensures entries.Valid()
  {
    assert forall i :: i in entries.list.items ==> i in entries.held;
  }

  /** The walk and the new generation of the snapshot. */
  method CatchUp(entries: Entries, snap: Snap, ghost s: CacheState) returns (updateAllLists: bool, updateAffinity: bool)
    requires entries.Valid() && entries.views == s.nodes && entries.order == s.order
    requires snap.Valid() && snap.Listed()
    modifies snap`nodeInfoMap, snap`infos, snap`generation, snap`cells, snap.cells
    ensures snap.Valid() && snap.Listed() && fresh(snap.cells - old(snap.cells))
    ensures snap.generation == Newest(s, old(snap.generation))
    ensures Walked(snap.infos, updateAllLists, updateAffinity) ==
            Walk(s, old(snap.infos), Newer(s, old(snap.generation), 0))
  {
    EntriesLead(entries, s, 0);
    ghost var items := entries.list.items;
    var headNode := entries.list.headNode;
    updateAllLists, updateAffinity := WalkNewer(headNode, snap, items, s);
    if headNode != null {
      snap.generation := headNode.info.generation;
    }
  }

  method CatchUpBeside(entries: Entries, snap: Snap, ghost s: CacheState)
    returns (updateAllLists: bool, updateAffinity: bool)
    requires entries.Valid() && entries.views == s.nodes && entries.order == s.order
    requires snap.Valid() && snap.Listed()
    modifies snap`nodeInfoMap, snap`infos, snap`generation, snap`cells, snap.cells
    ensures entries.held == old(entries.held)
    ensures entries.Valid() && snap.Valid() && snap.Listed() && fresh(snap.cells - old(snap.cells))
    ensures snap.generation == Newest(s, old(snap.generation))
    ensures Walked(snap.infos, updateAllLists, updateAffinity) == NewerWalk(s, old(ValueOf(snap)))
  {
    label before:
    updateAllLists, updateAffinity := CatchUp(entries, snap, s);
    EntriesKept@before(entries);
  }

  /** The deletion loop, which runs if the snapshot is larger than the cache. */
  method Prune(nodes: map<string, Item>, snap: Snap) returns (larger: bool, ghost deleted: set<string>)
    requires snap.Valid() && snap.Listed()
    modifies snap`nodeInfoMap, snap`infos
    ensures snap.Valid() && larger == (|old(snap.infos)| > |nodes|) && (!larger ==> snap.Listed())
    ensures snap.infos == old(snap.infos) - deleted && deleted <= old(snap.infos).Keys - nodes.Keys
    ensures |deleted| == if larger then |old(snap.infos)| - |nodes| else 0
  {
    larger, deleted := |snap.nodeInfoMap| > |nodes|, {};
    assert |snap.nodeInfoMap| == |snap.nodeInfoMap.Keys| == |snap.infos|;
    if larger {
      deleted := snap.RemoveDeletedNodes(nodes.Keys);
    }
  }

  method PruneBeside(entries: Entries, snap: Snap, ghost s: CacheState)
    returns (larger: bool, ghost deleted: set<string>)
    requires entries.views == s.nodes && entries.Valid() && snap.Valid() && snap.Listed()
    modifies snap`nodeInfoMap, snap`infos
    ensures entries.held == old(entries.held)
    ensures entries.Valid() && snap.Valid()
    ensures larger == (|old(snap.infos)| > |s.nodes|) && (!larger ==> snap.Listed())
    ensures snap.infos == old(snap.infos) - deleted && Deletable(s, old(snap.infos), deleted)
  {
    label before:
    larger, deleted := Prune(entries.nodes, snap);
    EntriesKept@before(entries);
    assert |entries.nodes| == |entries.nodes.Keys| == |entries.views|;
  }

  /** Everything before the lists. */
  method Remap(entries: Entries, snap: Snap, ghost s: CacheState)
    returns (updateAllLists: bool, updateAffinity: bool, ghost deleted: set<string>)
    requires entries.Valid() && entries.views == s.nodes && entries.order == s.order
    requires snap.Valid() && snap.Listed()
    modifies snap`nodeInfoMap, snap`infos, snap`generation, snap`cells, snap.cells
    ensures entries.held == old(entries.held)
    ensures entries.Valid() && snap.Valid() && fresh(snap.cells - old(snap.cells))
    ensures !updateAllLists ==> snap.Listed()
    ensures Deletable(s, NewerWalk(s, old(ValueOf(snap))).infos, deleted)
    ensures ValueOf(snap) == Remapped(s, old(ValueOf(snap)), deleted)
    ensures updateAllLists == UpdateAll(s, old(ValueOf(snap)))
    ensures updateAffinity == NewerWalk(s, old(ValueOf(snap))).affinity
  {
    ghost var p, w := ValueOf(snap), NewerWalk(s, ValueOf(snap));
    updateAllLists, updateAffinity := CatchUpBeside(entries, snap, s);
    assert snap.infos == w.infos && updateAllLists == w.allLists && updateAffinity == w.affinity;
    var larger;
    larger, deleted := PruneBeside(entries, snap, s);
    updateAllLists := updateAllLists || larger;
    PrunedIs(s, p, w, deleted, ValueOf(snap));
  }

  lemma PrunedIs(s: CacheState, p: SnapState, w: Walked, deleted: set<string>, q: SnapState)
    requires w == NewerWalk(s, p)
    requires q == SnapState(w.infos - deleted, p.list, p.affinityList, Newest(s, p.generation))
    ensures q == Remapped(s, p, deleted) && UpdateAll(s, p) == (w.allLists || |w.infos| > |s.nodes|)
  {
  }

  /** The entries are only read while lists are made. */
  method DealBeside(ghost entries: Entries, tree: NodeTree, snap: Snap)
    requires entries.Valid() && tree.Valid() && TreeValid(tree.view) && snap.Valid()
    modifies tree`zoneIndex, tree`view, tree.arrays
    modifies snap`nodeInfoList, snap`names, snap`affinityList, snap`affinityNames
    ensures (entries.held, tree.arrays) == old((entries.held, tree.arrays))
    ensures entries.Valid() && tree.Valid() && tree.view == Turned(old(tree.view)) && snap.Valid() && snap.Listed()
    ensures ValueOf(snap) == Relisted(old(tree.view), old(ValueOf(snap)))
  {
    label before:
    DealLists(tree, snap);
    EntriesKept@before(entries);
  }

  method SiftBeside(ghost entries: Entries, ghost tree: NodeTree, snap: Snap)
    requires entries.Valid() && tree.Valid() && snap.Valid() && snap.Listed()
    modifies snap`nodeInfoList, snap`names, snap`affinityList, snap`affinityNames
    ensures (entries.held, tree.arrays) == old((entries.held, tree.arrays))
    ensures entries.Valid() && tree.Valid() && snap.Valid() && snap.Listed()
    ensures var p := old(ValueOf(snap));
            ValueOf(snap) == p.(affinityList := WithAffinity(p.infos, p.list, |p.list|))
  {
    label before:
    SiftList(snap);
    EntriesKept@before(entries);
  }

  /** The tree is not looked at. */
  method RemapBeside(entries: Entries, ghost tree: NodeTree, snap: Snap, ghost s: CacheState)
    returns (updateAllLists: bool, updateAffinity: bool, ghost deleted: set<string>)
    requires entries.Valid() && entries.views == s.nodes && entries.order == s.order
    requires tree.Valid() && snap.Valid() && snap.Listed()
    modifies snap`nodeInfoMap, snap`infos, snap`generation, snap`cells, snap.cells
    ensures (entries.held, tree.arrays) == old((entries.held, tree.arrays))
    ensures entries.Valid() && tree.Valid()
    ensures snap.Valid() && (!updateAllLists ==> snap.Listed()) && fresh(snap.cells - old(snap.cells))
    ensures Deletable(s, NewerWalk(s, old(ValueOf(snap))).infos, deleted)
    ensures ValueOf(snap) == Remapped(s, old(ValueOf(snap)), deleted)
    ensures updateAllLists == UpdateAll(s, old(ValueOf(snap)))
    ensures updateAffinity == NewerWalk(s, old(ValueOf(snap))).affinity
  {
    ghost var cells: set<object>, arrays: set<object> := snap.cells, tree.arrays;
    assert tree !in cells && arrays !! cells && snap !in arrays;
    updateAllLists, updateAffinity, deleted := Remap(entries, snap, s);
  }

  /** The first making of the lists. */
  method MakeLists(ghost entries: Entries, tree: NodeTree, snap: Snap, updateAllLists: bool, updateAffinity: bool)
    requires entries.Valid() && tree.Valid() && TreeValid(tree.view) && snap.Valid()
    requires !updateAllLists ==> snap.Listed()
    modifies tree`zoneIndex, tree`view, tree.arrays
    modifies snap`nodeInfoList, snap`names, snap`affinityList, snap`affinityNames
    ensures (entries.held, tree.arrays) == old((entries.held, tree.arrays))
    ensures entries.Valid() && tree.Valid()
    ensures tree.view == if updateAllLists then Turned(old(tree.view)) else old(tree.view)
    ensures snap.Valid() && snap.Listed()
    ensures ValueOf(snap) ==
            if updateAllLists then Relisted(old(tree.view), old(ValueOf(snap)))
            else if updateAffinity then
              var p := old(ValueOf(snap)); p.(affinityList := WithAffinity(p.infos, p.list, |p.list|))
            else old(ValueOf(snap))
  {
    if updateAllLists {
      DealBeside(entries, tree, snap);
    } else if updateAffinity {
      SiftBeside(entries, tree, snap);
    }
  }

  /** A list of the wrong length is made once more, and reported. */
  method CheckLength(ghost entries: Entries, tree: NodeTree, snap: Snap) returns (ok: bool)
    requires entries.Valid() && tree.Valid() && TreeValid(tree.view) && snap.Valid() && snap.Listed()
    modifies tree`zoneIndex, tree`view, tree.arrays
    modifies snap`nodeInfoList, snap`names, snap`affinityList, snap`affinityNames
    ensures (entries.held, tree.arrays) == old((entries.held, tree.arrays))
    ensures entries.Valid() && tree.Valid() && snap.Valid() && snap.Listed()
    ensures ok == (|old(snap.names)| == old(tree.view).numNodes)
    ensures tree.view == if ok then old(tree.view) else Turned(old(tree.view))
    ensures ValueOf(snap) == if ok then old(ValueOf(snap)) else Relisted(old(tree.view), old(ValueOf(snap)))
  {
    ok := |snap.nodeInfoList| == tree.numNodes;
    if !ok {
      MakeLists(entries, tree, snap, true, false);
    }
  }

  /** The lists, and the check of their length. */
  method Relist(ghost entries: Entries, tree: NodeTree, snap: Snap, all: bool, affinity: bool, ghost s: CacheState,
          ghost p: SnapState, ghost deleted: set<string>)
    returns (ok: bool)
    requires entries.Valid() && tree.Valid() && TreeValid(tree.view) && tree.view == s.tree
    requires snap.Valid() && (!all ==> snap.Listed()) && ValueOf(snap) == Remapped(s, p, deleted)
    requires all == UpdateAll(s, p) && affinity == NewerWalk(s, p).affinity
    modifies tree`zoneIndex, tree`view, tree.arrays
    modifies snap`nodeInfoList, snap`names, snap`affinityList, snap`affinityNames
    ensures (entries.held, tree.arrays) == old((entries.held, tree.arrays))
    ensures entries.Valid() && tree.Valid() && snap.Valid() && snap.Listed()
    ensures (s.(tree := tree.view), ValueOf(snap), ok) == Snapshots.UpdateSnapshot(s, p, deleted)
  {
    MakeLists(entries, tree, snap, all, affinity);
    ok := CheckLength(entries, tree, snap);
  }

  /** The update on the parts of the cache. */
  method UpdateParts(entries: Entries, tree: NodeTree, snap: Snap, ghost s: CacheState)
    returns (ok: bool, ghost deleted: set<string>)
    requires entries.Valid() && entries.views == s.nodes && entries.order == s.order
    requires tree.Valid() && TreeValid(tree.view) && tree.view == s.tree && snap.Valid() && snap.Listed()
    modifies tree`zoneIndex, tree`view, tree.arrays, snap, snap.cells
    ensures (entries.held, tree.arrays) == old((entries.held, tree.arrays))
    ensures entries.Valid() && tree.Valid() && snap.Valid() && snap.Listed() && fresh(snap.cells - old(snap.cells))
    ensures Deletable(s, NewerWalk(s, old(ValueOf(snap))).infos, deleted)
    ensures (s.(tree := tree.view), ValueOf(snap), ok) == Snapshots.UpdateSnapshot(s, old(ValueOf(snap)), deleted)
  {
    ghost var p := ValueOf(snap);
    var updateAllLists, updateAffinity;
    updateAllLists, updateAffinity, deleted := RemapBeside(entries, tree, snap, s);
    ok := Relist(entries, tree, snap, updateAllLists, updateAffinity, s, p, deleted);
  }

  /** UpdateSnapshot. */
  method UpdateSnapshot(cache: SchedulerCache, snap: Snap) returns (ok: bool, ghost deleted: set<string>)
    requires cache.Valid() && snap.Valid() && snap.Listed() && TreeValid(cache.State().tree)
    modifies cache.nodeTree`zoneIndex, cache.nodeTree`view, cache.nodeTree.arrays, snap, snap.cells
    ensures (cache.entries.held, cache.nodeTree.arrays) == old((cache.entries.held, cache.nodeTree.arrays))
    ensures cache.Valid() && snap.Valid() && snap.Listed() && fresh(snap.cells - old(snap.cells))
    ensures Deletable(old(cache.State()), NewerWalk(old(cache.State()), old(ValueOf(snap))).infos, deleted)
    ensures (cache.State(), ValueOf(snap), ok) ==
            Snapshots.UpdateSnapshot(old(cache.State()), old(ValueOf(snap)), deleted)
  {
    ok, deleted := UpdateParts(cache.entries, cache.nodeTree, snap, cache.State());
  }
}
