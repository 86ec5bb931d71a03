/** The incremental snapshot of the cache: UpdateSnapshot and its helpers
    (internal/cache/cache.go, internal/cache/snapshot.go). */
module Snapshots {
  import opened NodeInfos
  import opened NodeTrees
  import opened CacheModel

  /** The lists hold the names under which the map holds their entries. */
  datatype SnapState = SnapState(
    infos: map<string, NodeView>,
    list: seq<string>,
    affinityList: seq<string>,
    generation: int)

  /** The map during the walk, and whether the lists have to be made anew. */
  datatype Walked = Walked(infos: map<string, NodeView>, allLists: bool, affinity: bool)

  predicate HasAffinityPods(v: NodeView) { |v.podsWithAffinity| > 0 }

  // ---- the walk over the newer part of the list ----

  function GenerationAt(s: CacheState, n: string): int {
    if n in s.nodes then s.nodes[n].generation else 0
  }

  /** Index of the first entry from i on that is not newer than g: where the walk breaks. */
  function Newer(s: CacheState, g: int, i: nat): (k: nat)
    requires i <= |s.order|
    ensures i <= k <= |s.order|
    decreases |s.order| - i
  {
    if i == |s.order| || GenerationAt(s, s.order[i]) <= g then i else Newer(s, g, i + 1)
  }

  /** One turn of the walk; an entry without a node is passed over. */
  function Refreshed(w: Walked, v: NodeView): Walked {
    if v.node.None? then w
    else
      var name := v.node.value.name;
      var had := name in w.infos && HasAffinityPods(w.infos[name]);
      Walked(w.infos[name := v], w.allLists || name !in w.infos, w.affinity || had != HasAffinityPods(v))
  }

  /** The first k turns. */
  function Walk(s: CacheState, infos: map<string, NodeView>, k: nat): Walked
    requires k <= |s.order|
  {
    if k == 0 then Walked(infos, false, false)
    else
      var w := Walk(s, infos, k - 1);
      if s.order[k - 1] in s.nodes then Refreshed(w, s.nodes[s.order[k - 1]]) else w
  }

  // ---- the lists ----

  /** The first k names that the map knows. */
  function Present(infos: map<string, NodeView>, names: seq<string>, k: nat): seq<string>
    requires k <= |names|
  {
    if k == 0 then []
    else if names[k - 1] in infos then Present(infos, names, k - 1) + [names[k - 1]]
    else Present(infos, names, k - 1)
  }

  /** Those of the first k entries that hold pods with affinity. */
  function WithAffinity(infos: map<string, NodeView>, names: seq<string>, k: nat): seq<string>
    requires k <= |names|
  {
    if k == 0 then []
    else
      var n, rest := names[k - 1], WithAffinity(infos, names, k - 1);
      if n in infos && HasAffinityPods(infos[n]) then rest + [n] else rest
  }

  /** The cursor runs over a valid tree, as every step of the cache leaves it. */
  ghost function Dealt(t: TreeView): seq<string> {
    if TreeValid(t) then NamesAfter(t, t.numNodes) else []
  }

  ghost function Turned(t: TreeView): TreeView {
    if TreeValid(t) then TreeAfter(t, t.numNodes) else t
  }

  /** updateNodeInfoSnapshotList with updateAll. */
  ghost function Relisted(t: TreeView, p: SnapState): SnapState {
    var list := Present(p.infos, Dealt(t), |Dealt(t)|);
    p.(list := list, affinityList := WithAffinity(p.infos, list, |list|))
  }

  // ---- the update ----

  /** What removeDeletedNodesFromSnapshot may delete: it stops when the sizes agree. */
  predicate Deletable(s: CacheState, infos: map<string, NodeView>, deleted: set<string>) {
    && deleted <= infos.Keys - s.nodes.Keys
    && |deleted| == if |infos| > |s.nodes| then |infos| - |s.nodes| else 0
  }

  /** The walk of an update. */
  function NewerWalk(s: CacheState, p: SnapState): Walked { Walk(s, p.infos, Newer(s, p.generation, 0)) }

  /** The snapshot after the walk and the deletion loop. */
  function Remapped(s: CacheState, p: SnapState, deleted: set<string>): SnapState {
    var g := if s.order == [] then p.generation else GenerationAt(s, s.order[0]);
    SnapState(NewerWalk(s, p).infos - deleted, p.list, p.affinityList, g)
  }

  /** The flag that makes updateNodeInfoSnapshotList run the cursor. */
  predicate UpdateAll(s: CacheState, p: SnapState) {
    NewerWalk(s, p).allLists || |NewerWalk(s, p).infos| > |s.nodes|
  }

  /** The first making of the lists. */
  ghost function Listed(s: CacheState, p: SnapState, q: SnapState): SnapState {
    if UpdateAll(s, p) then Relisted(s.tree, q)
    else if NewerWalk(s, p).affinity then q.(affinityList := WithAffinity(q.infos, q.list, |q.list|))
    else q
  }

  /** UpdateSnapshot when `deleted` are the names that the deletion loop meets first: the
      cache, of which only the cursor moves, the snapshot, and whether there is no error.
      A list of the wrong length is made once more. */
  ghost function UpdateSnapshot(s: CacheState, p: SnapState, deleted: set<string>): (CacheState, SnapState, bool) {
    var r := Listed(s, p, Remapped(s, p, deleted));
    var t := if UpdateAll(s, p) then s.(tree := Turned(s.tree)) else s;
    if |r.list| == t.tree.numNodes then (t, r, true)
    else (t.(tree := Turned(t.tree)), Relisted(t.tree, r), false)
  }

  // ---- what a snapshot keeps between updates ----

  /** The entry has a node, so it is no placeholder. */
  predicate Backed(s: CacheState, n: string) { n in s.nodes && s.nodes[n].node.Some? }

  /** Entries not newer than the snapshot are in it as they are. */
  ghost predicate Faithful(s: CacheState, p: SnapState) {
    && p.generation <= s.generation
    && forall n :: Backed(s, n) && s.nodes[n].generation <= p.generation ==> n in p.infos && p.infos[n] == s.nodes[n]
  }

  /** Every cached node is in the snapshot as it is. */
  ghost predicate UpToDate(s: CacheState, p: SnapState) {
    forall n :: Backed(s, n) ==> n in p.infos && p.infos[n] == s.nodes[n]
  }

  ghost predicate ListsOk(p: SnapState) {
    && (forall n :: n in p.list ==> n in p.infos)
    && p.affinityList == WithAffinity(p.infos, p.list, |p.list|)
  }

  /** The early break is sound: on a list by decreasing generation it leaves out exactly
      the entries that are not newer. */
  lemma {:induction false} NewerSplits(s: CacheState, g: int, i: nat, j: nat)
    requires Ordered(s) && i <= j < |s.order|
    ensures s.order[j] in s.nodes
    ensures j < Newer(s, g, i) <==> s.nodes[s.order[j]].generation > g
    decreases |s.order| - i
  {
    assert s.order[i] in s.order && s.order[j] in s.order;
    assert Generations(s.nodes)[s.order[i]] == s.nodes[s.order[i]].generation;
    assert Generations(s.nodes)[s.order[j]] == s.nodes[s.order[j]].generation;
    if GenerationAt(s, s.order[i]) > g && i < j {
      NewerSplits(s, g, i + 1, j);
    }
  }

  /** What the walk leaves under one name. */
  lemma {:induction false} WalkAt(s: CacheState, infos: map<string, NodeView>, k: nat, n: string)
    requires Named(s.nodes) && k <= |s.order|
    ensures var w := Walk(s, infos, k);
            if Backed(s, n) && n in s.order[..k] then n in w.infos && w.infos[n] == s.nodes[n]
            else (n in w.infos <==> n in infos) && (n in infos ==> w.infos[n] == infos[n])
  {
    if k > 0 {
      WalkAt(s, infos, k - 1, n);
      assert s.order[..k] == s.order[..k - 1] + [s.order[k - 1]];
    }
  }

  /** The walk reaches a node if its entry is newer than the snapshot. */
  lemma Reached(s: CacheState, g: int, n: string)
    requires Ordered(s) && n in s.nodes
    ensures n in s.order[..Newer(s, g, 0)] <==> s.nodes[n].generation > g
  {
    assert n in Generations(s.nodes);
    var j :| 0 <= j < |s.order| && s.order[j] == n;
    NewerSplits(s, g, 0, j);
    var k := Newer(s, g, 0);
    assert j < k ==> s.order[..k][j] == n;
    if n in s.order[..k] {
      var i :| 0 <= i < k && s.order[..k][i] == n;
      assert s.order[i] == s.order[j];
    }
  }

  lemma WalkUpToDate(s: CacheState, p: SnapState, n: string)
    requires Ordered(s) && Faithful(s, p) && Backed(s, n)
    ensures var w := NewerWalk(s, p);
            n in w.infos && w.infos[n] == s.nodes[n]
  {
    WalkAt(s, p.infos, Newer(s, p.generation, 0), n);
    Reached(s, p.generation, n);
  }

  lemma HeadGeneration(s: CacheState)
    requires Ordered(s) && s.order != []
    ensures GenerationAt(s, s.order[0]) <= s.generation
  {
    assert s.order[0] in Generations(s.nodes);
  }

  /** Making the lists changes nothing else. */
  lemma UpdateMap(s: CacheState, p: SnapState, deleted: set<string>)
    ensures var (t, q, ok) := UpdateSnapshot(s, p, deleted);
            && t == s.(tree := t.tree)
            && q.infos == NewerWalk(s, p).infos - deleted
            && q.generation == Remapped(s, p, deleted).generation
  {
  }

  lemma UpdateTreeValid(s: CacheState, p: SnapState, deleted: set<string>)
    requires TreeValid(s.tree)
    ensures TreeValid(UpdateSnapshot(s, p, deleted).0.tree)
  {
  }

  /** Whatever the deletion loop meets first, an update leaves every cached node in the
      snapshot as it is. */
  lemma UpdateIsComplete(s: CacheState, p: SnapState, deleted: set<string>)
    requires Ordered(s) && Faithful(s, p)
    requires Deletable(s, NewerWalk(s, p).infos, deleted)
    ensures UpToDate(s, UpdateSnapshot(s, p, deleted).1)
    ensures Faithful(UpdateSnapshot(s, p, deleted).0, UpdateSnapshot(s, p, deleted).1)
  {
    UpdateMap(s, p, deleted);
    var q := UpdateSnapshot(s, p, deleted).1;
    forall n | Backed(s, n)
      ensures n in q.infos && q.infos[n] == s.nodes[n]
    {
      WalkUpToDate(s, p, n);
    }
    if s.order != [] {
      HeadGeneration(s);
    }
  }

  // ---- the lists of the snapshot ----

  lemma {:induction false} PresentInside(infos: map<string, NodeView>, names: seq<string>, k: nat)
    requires k <= |names|
    ensures forall n :: n in Present(infos, names, k) ==> n in infos
  {
    if k > 0 {
      PresentInside(infos, names, k - 1);
    }
  }

  lemma {:induction false} WithAffinitySame(a: map<string, NodeView>, b: map<string, NodeView>, names: seq<string>,
          k: nat)
    requires k <= |names|
    requires forall n :: n in names ==> n in a && n in b && HasAffinityPods(a[n]) == HasAffinityPods(b[n])
    ensures WithAffinity(a, names, k) == WithAffinity(b, names, k)
  {
    if k > 0 {
      WithAffinitySame(a, b, names, k - 1);
    }
  }

  /** The flags of the walk: without allLists no name is new, and without affinity no entry
      changed from holding pods with affinity to holding none or back. */
  lemma {:induction false} WalkFlags(s: CacheState, infos: map<string, NodeView>, k: nat)
    requires k <= |s.order|
    ensures var w := Walk(s, infos, k); infos.Keys <= w.infos.Keys && (w.allLists <==> w.infos.Keys != infos.Keys)
    ensures var w := Walk(s, infos, k);
            !w.affinity ==> forall n :: n in infos ==> HasAffinityPods(w.infos[n]) == HasAffinityPods(infos[n])
  {
    if k > 0 {
      WalkFlags(s, infos, k - 1);
    }
  }

  lemma RelistedOk(t: TreeView, p: SnapState)
    ensures ListsOk(Relisted(t, p)) && Relisted(t, p).infos == p.infos
  {
    PresentInside(p.infos, Dealt(t), |Dealt(t)|);
  }

  lemma ListedOk(s: CacheState, p: SnapState, q: SnapState)
    requires ListsOk(p) && q.list == p.list && q.affinityList == p.affinityList
    requires !UpdateAll(s, p) ==> q.infos == NewerWalk(s, p).infos
    ensures ListsOk(Listed(s, p, q))
  {
    WalkFlags(s, p.infos, Newer(s, p.generation, 0));
    RelistedOk(s.tree, q);
    if !UpdateAll(s, p) && !NewerWalk(s, p).affinity {
      WithAffinitySame(p.infos, q.infos, p.list, |p.list|);
    }
  }

  /** What the check of the list length may still change. */
  lemma Settled(s: CacheState, p: SnapState, deleted: set<string>)
    ensures var q, r := UpdateSnapshot(s, p, deleted).1, Listed(s, p, Remapped(s, p, deleted));
            q == r || q == Relisted(s.tree, r) || q == Relisted(Turned(s.tree), r)
  {
  }

  /** An update leaves in the affinity list exactly the entries of the node list that hold
      pods with affinity, also when it does not make the lists anew. */
  lemma UpdateKeepsLists(s: CacheState, p: SnapState, deleted: set<string>)
    requires ListsOk(p) && Deletable(s, NewerWalk(s, p).infos, deleted)
    ensures ListsOk(UpdateSnapshot(s, p, deleted).1)
  {
    var q := Remapped(s, p, deleted);
    assert !UpdateAll(s, p) ==> q.infos == NewerWalk(s, p).infos by {
      assert !UpdateAll(s, p) ==> deleted == {};
    }
    ListedOk(s, p, q);
    var r := Listed(s, p, q);
    Settled(s, p, deleted);
    RelistedOk(s.tree, r);
    RelistedOk(Turned(s.tree), r);
  }

  // ---- the keys ----

  ghost function NamedNodes(s: CacheState): set<string> { set n | n in s.nodes && Backed(s, n) }

  lemma SizesDecide(all: set<string>, cached: set<string>, named: set<string>, deleted: set<string>)
    requires named <= cached && named <= all && deleted <= all - cached
    requires |deleted| == if |all| > |cached| then |all| - |cached| else 0
    ensures all - deleted == named <==> named == cached || all == named
  {
    var kept := all - deleted;
    assert |kept| == |all| - |deleted|;
    if named == cached || all == named {
      SubsetSize(named, all);
      SubsetSize(named, cached);
      SubsetSize(named, kept);
    } else if kept == named {
      SubsetSize(named, all);
      SubsetSize(named, cached);
    }
  }

  lemma SubsetSize(a: set<string>, b: set<string>)
    requires a <= b
    ensures |a| <= |b| && (|a| == |b| ==> a == b)
  {
    assert |b - a| == |b| - |a|;
  }

  lemma WalkKeys(s: CacheState, p: SnapState)
    requires Ordered(s) && Faithful(s, p)
    ensures NamedNodes(s) <= NewerWalk(s, p).infos.Keys <= p.infos.Keys + NamedNodes(s)
    ensures p.infos.Keys <= NewerWalk(s, p).infos.Keys
  {
    forall n | Backed(s, n)
      ensures n in NewerWalk(s, p).infos
    {
      WalkUpToDate(s, p, n);
    }
    WalkFlags(s, p.infos, Newer(s, p.generation, 0));
    forall n | n in NewerWalk(s, p).infos && !Backed(s, n)
      ensures n in p.infos
    {
      WalkAt(s, p.infos, Newer(s, p.generation, 0), n);
    }
  }

  lemma UpdatedKeys(s: CacheState, p: SnapState, deleted: set<string>)
    ensures UpdateSnapshot(s, p, deleted).1.infos.Keys == NewerWalk(s, p).infos.Keys - deleted
  {
    UpdateMap(s, p, deleted);
  }

  /** After an update the snapshot has exactly the cached nodes if and only if no entry is a
      placeholder or the snapshot had no name besides those of cached nodes. */
  lemma UpdateKeysIff(s: CacheState, p: SnapState, deleted: set<string>)
    requires Ordered(s) && Faithful(s, p) && Deletable(s, NewerWalk(s, p).infos, deleted)
    ensures UpdateSnapshot(s, p, deleted).1.infos.Keys == NamedNodes(s) <==>
            NamedNodes(s) == s.nodes.Keys || p.infos.Keys <= NamedNodes(s)
  {
    WalkKeys(s, p);
    UpdatedKeys(s, p, deleted);
    SizesDecide(NewerWalk(s, p).infos.Keys, s.nodes.Keys, NamedNodes(s), deleted);
  }

  // ---- the next update ----

  /** An update takes over the generation of the head of the list, which is the newest. */
  lemma UpdateIsNewest(s: CacheState, p: SnapState, deleted: set<string>)
    requires Ordered(s) && s.order != []
    ensures var q := UpdateSnapshot(s, p, deleted).1;
            && s.order[0] in s.nodes && q.generation == s.nodes[s.order[0]].generation
            && forall n :: n in s.nodes ==> s.nodes[n].generation <= q.generation
  {
    UpdateMap(s, p, deleted);
    assert s.order[0] in Generations(s.nodes);
    forall n | n in s.nodes
      ensures s.nodes[n].generation <= GenerationAt(s, s.order[0])
    {
      assert n in Generations(s.nodes);
      var j :| 0 <= j < |s.order| && s.order[j] == n;
      assert Generations(s.nodes)[s.order[0]] >= Generations(s.nodes)[s.order[j]];
    }
  }

  lemma NothingNewer(t: CacheState, q: SnapState)
    requires Ordered(t) && forall n :: n in t.nodes ==> t.nodes[n].generation <= q.generation
    ensures NewerWalk(t, q) == Walked(q.infos, false, false)
  {
    if t.order != [] {
      assert t.order[0] in Generations(t.nodes);
    }
  }

  /** The deletion loop leaves no more names than there are entries. */
  lemma DeletedFits(s: CacheState, p: SnapState, deleted: set<string>)
    requires Deletable(s, NewerWalk(s, p).infos, deleted)
    ensures |UpdateSnapshot(s, p, deleted).1.infos| <= |s.nodes|
  {
    UpdateMap(s, p, deleted);
    var all := NewerWalk(s, p).infos;
    assert (all - deleted).Keys == all.Keys - deleted;
    assert |all.Keys - deleted| == |all.Keys| - |deleted|;
  }

  /** Right behind an update that went well another one finds nothing to do: it walks over no
      entry and changes neither the snapshot nor the cursor. */
  lemma UpdateTwice(s: CacheState, p: SnapState, deleted: set<string>, t: CacheState, q: SnapState, again: set<string>)
    requires Ordered(s) && Deletable(s, NewerWalk(s, p).infos, deleted)
    requires UpdateSnapshot(s, p, deleted) == (t, q, true) && Deletable(t, NewerWalk(t, q).infos, again)
    ensures NewerWalk(t, q) == Walked(q.infos, false, false)
    ensures UpdateSnapshot(t, q, again) == (t, q, true)
  {
    UpdateMap(s, p, deleted);
    DeletedFits(s, p, deleted);
    OrderedElsewhere(s, t);
    if s.order != [] {
      UpdateIsNewest(s, p, deleted);
    } else {
      assert forall n :: n in Generations(s.nodes) <==> n in s.nodes;
    }
    NothingNewer(t, q);
    assert q.infos - {} == q.infos;
    Unchanged(t, q, again);
  }

  lemma Unchanged(t: CacheState, q: SnapState, again: set<string>)
    requires NewerWalk(t, q) == Walked(q.infos, false, false) && again == {} && |q.infos| <= |t.nodes|
    requires t.order == [] || GenerationAt(t, t.order[0]) == q.generation
    requires |q.list| == t.tree.numNodes
    ensures UpdateSnapshot(t, q, again) == (t, q, true)
  {
    assert q.infos - again == q.infos;
    assert Remapped(t, q, again) == q;
  }

  // ---- what an update reports ----

  lemma {:induction false} PresentAll(infos: map<string, NodeView>, names: seq<string>, k: nat)
    requires k <= |names|
    ensures |Present(infos, names, k)| <= k
    ensures |Present(infos, names, k)| == k <==> forall i :: 0 <= i < k ==> names[i] in infos
  {
    if k > 0 {
      PresentAll(infos, names, k - 1);
    }
  }

  lemma {:induction false} TurnKeepsCount(t: TreeView, n: nat)
    requires TreeValid(t)
    ensures TreeAfter(t, n).numNodes == t.numNodes
  {
    if t.zones != [] {
      RunIsRun(t, n);
    }
  }

  /** An update reports no error if and only if the lists it makes leave out no name that the
      cursor deals out, or, when it makes none, the old list is as long as the tree is large.
      After an error the lists are made anew, behind the names dealt out before. */
  lemma UpdateOkIff(s: CacheState, p: SnapState, deleted: set<string>)
    requires TreeValid(s.tree)
    ensures var (t, q, ok) := UpdateSnapshot(s, p, deleted);
            && (ok <==> if UpdateAll(s, p) then forall n :: n in Dealt(s.tree) ==> n in q.infos
                        else |p.list| == s.tree.numNodes)
            && (!ok ==> var u := if UpdateAll(s, p) then Turned(s.tree) else s.tree;
                        q.list == Present(q.infos, Dealt(u), |Dealt(u)|) && t.tree == Turned(u))
  {
    UpdateMap(s, p, deleted);
    var names, infos := Dealt(s.tree), NewerWalk(s, p).infos - deleted;
    PresentAll(infos, names, |names|);
    TurnKeepsCount(s.tree, s.tree.numNodes);
    assert forall i :: 0 <= i < |names| ==> names[i] in names;
  }

  /** The entry holds pods with affinity in one of the maps and not in the other. */
  predicate Changed(before: map<string, NodeView>, after: map<string, NodeView>, n: string) {
    (n in before && |before[n].podsWithAffinity| > 0) != (n in after && |after[n].podsWithAffinity| > 0)
  }

  /** One turn, at a name that the walk has not come to before. */
  lemma TurnChanges(infos: map<string, NodeView>, w: Walked, v: NodeView, n: string)
    requires v.node.Some? && v.node.value.name == n && (n in w.infos <==> n in infos)
    requires n in infos ==> w.infos[n] == infos[n]
    requires w.affinity <==> exists m :: Changed(infos, w.infos, m)
    ensures Refreshed(w, v).affinity <==> exists m :: Changed(infos, Refreshed(w, v).infos, m)
  {
    var u := Refreshed(w, v);
    assert forall m :: m != n ==> (Changed(infos, u.infos, m) <==> Changed(infos, w.infos, m));
    assert !Changed(infos, w.infos, n);
    assert u.affinity <==> w.affinity || Changed(infos, u.infos, n);
  }

  /** The flag for the affinity list goes up exactly if some entry changes from holding pods
      with affinity to holding none or back, where a new entry counts as one that held none. */
  lemma {:induction false} AffinityFlagIff(s: CacheState, infos: map<string, NodeView>, k: nat)
    requires Ordered(s) && k <= |s.order|
    ensures Walk(s, infos, k).affinity <==> exists n :: Changed(infos, Walk(s, infos, k).infos, n)
  {
    if k > 0 {
      var w, n := Walk(s, infos, k - 1), s.order[k - 1];
      AffinityFlagIff(s, infos, k - 1);
      assert n !in s.order[..k - 1];
      WalkAt(s, infos, k - 1, n);
      assert n in Generations(s.nodes);
      if s.nodes[n].node.Some? {
        TurnChanges(infos, w, s.nodes[n], n);
      }
    }
  }
}
