/** The zone tree of the cache and its cursor (internal/cache/node_tree.go). */
module NodeTrees {
  import opened RoundRobin
  import opened Sequences

  /** The nodes of one zone in order of arrival and the cursor in the zone. */
  datatype ZoneView = ZoneView(nodes: seq<string>, lastIndex: nat)

  datatype TreeView = TreeView(
    tree: map<string, ZoneView>,
    zones: seq<string>,
    zoneIndex: nat,
    numNodes: int)

  /** The nodes the tree holds, with the zone they are under. */
  ghost function Members(t: TreeView): set<(string, string)> {
    set z, n | z in t.tree && n in t.tree[z].nodes :: (z, n)
  }

  /** The zone list is the keys of the tree without repetition, no zone is empty or
      repeats a node, and the count is the number of nodes held. */
  ghost predicate TreeValid(t: TreeView) { TreeShape(t) && t.numNodes == |Members(t)| }

  ghost predicate TreeShape(t: TreeView) {
    && NoDuplicates(t.zones)
    && (forall z :: z in t.zones <==> z in t.tree)
    && (forall z :: z in t.tree ==> |t.tree[z].nodes| > 0 && NoDuplicates(t.tree[z].nodes))
  }

  // ---- the edits on values ----

  function AddedNode(t: TreeView, zone: string, name: string): TreeView {
    if zone in t.tree then
      var z := t.tree[zone];
      if name in z.nodes then t
      else t.(tree := t.tree[zone := z.(nodes := z.nodes + [name])], numNodes := t.numNodes + 1)
    else
      t.(tree := t.tree[zone := ZoneView([name], 0)], zones := t.zones + [zone], numNodes := t.numNodes + 1)
  }

  predicate HasNode(t: TreeView, zone: string, name: string) {
    zone in t.tree && name in t.tree[zone].nodes
  }

  function RemovedNode(t: TreeView, zone: string, name: string): TreeView {
    if !HasNode(t, zone, name) then t
    else
      var z := t.tree[zone];
      var left := Without(z.nodes, name);
      if left == [] then
        t.(tree := t.tree - {zone}, zones := Without(t.zones, zone), numNodes := t.numNodes - 1)
      else
        t.(tree := t.tree[zone := z.(nodes := left)], numNodes := t.numNodes - 1)
  }

  /** A change of zone moves the node; otherwise nothing happens. */
  function UpdatedNode(t: TreeView, oldZone: string, newZone: string, oldName: string, newName: string): TreeView {
    if oldZone == newZone then t
    else AddedNode(RemovedNode(t, oldZone, oldName), newZone, newName)
  }

  lemma AddedNodeMembers(t: TreeView, zone: string, name: string)
    requires TreeValid(t)
    ensures Members(AddedNode(t, zone, name)) == Members(t) + {(zone, name)}
  {
    var u := AddedNode(t, zone, name);
    forall z, n
      ensures (z, n) in Members(u) <==> (z, n) in Members(t) || (z, n) == (zone, name)
    {
      HasAdded(t, zone, name, z, n);
      assert (z, n) in Members(t) <==> HasNode(t, z, n);
      assert (z, n) in Members(u) <==> HasNode(u, z, n);
    }
  }

  lemma HasAdded(t: TreeView, zone: string, name: string, z: string, n: string)
    ensures HasNode(AddedNode(t, zone, name), z, n) <==> HasNode(t, z, n) || (z, n) == (zone, name)
  {
  }

  lemma AddedNodeShape(t: TreeView, zone: string, name: string)
    requires TreeShape(t)
    ensures TreeShape(AddedNode(t, zone, name))
  {
    if zone !in t.tree {
      NoDuplicatesAppend(t.zones, zone);
    } else if name !in t.tree[zone].nodes {
      NoDuplicatesAppend(t.tree[zone].nodes, name);
    }
  }

  /** Adding a node keeps the tree valid and adds exactly that node. */
  lemma AddedNodeValid(t: TreeView, zone: string, name: string)
    requires TreeValid(t)
    ensures TreeValid(AddedNode(t, zone, name))
    ensures Members(AddedNode(t, zone, name)) == Members(t) + {(zone, name)}
  {
    AddedNodeShape(t, zone, name);
    AddedNodeMembers(t, zone, name);
    assert HasNode(t, zone, name) <==> (zone, name) in Members(t);
  }

  lemma RemovedNodeMembers(t: TreeView, zone: string, name: string)
    requires TreeValid(t)
    ensures Members(RemovedNode(t, zone, name)) == Members(t) - {(zone, name)}
  {
    if HasNode(t, zone, name) {
      WithoutRemoves(t.tree[zone].nodes, name);
    }
  }

  /** Removing a node keeps the tree valid and removes exactly that node. */
  lemma RemovedNodeValid(t: TreeView, zone: string, name: string)
    requires TreeValid(t)
    ensures TreeValid(RemovedNode(t, zone, name))
    ensures Members(RemovedNode(t, zone, name)) == Members(t) - {(zone, name)}
  {
    RemovedNodeMembers(t, zone, name);
    assert HasNode(t, zone, name) <==> (zone, name) in Members(t);
    if HasNode(t, zone, name) {
      WithoutRemoves(t.tree[zone].nodes, name);
      WithoutRemoves(t.zones, zone);
    }
  }

  lemma UpdatedNodeValid(t: TreeView, oldZone: string, newZone: string, oldName: string, newName: string)
    requires TreeValid(t)
    ensures TreeValid(UpdatedNode(t, oldZone, newZone, oldName, newName))
    ensures Members(UpdatedNode(t, oldZone, newZone, oldName, newName)) ==
      if oldZone == newZone then Members(t) else Members(t) - {(oldZone, oldName)} + {(newZone, newName)}
  {
    if oldZone != newZone {
      RemovedNodeValid(t, oldZone, oldName);
      AddedNodeValid(RemovedNode(t, oldZone, oldName), newZone, newName);
    }
  }

  // ---- the cursor ----

  function RowsOf(t: TreeView): (rows: seq<Row>)
    requires forall i :: 0 <= i < |t.zones| ==> t.zones[i] in t.tree
    ensures |rows| == |t.zones|
  {
    seq(|t.zones|, i requires 0 <= i < |t.zones| => Row(|t.tree[t.zones[i]].nodes|, t.tree[t.zones[i]].lastIndex))
  }

  function CursorOf(t: TreeView): Cursor
    requires forall i :: 0 <= i < |t.zones| ==> t.zones[i] in t.tree
  {
    Cursor(RowsOf(t), t.zoneIndex)
  }

  function ResetTree(t: TreeView): TreeView {
    t.(tree := map z | z in t.tree :: t.tree[z].(lastIndex := 0), zoneIndex := 0)
  }

  function TakeFrom(t: TreeView, i: nat): (string, TreeView)
    requires i < |t.zones| && t.zones[i] in t.tree
    requires t.tree[t.zones[i]].lastIndex < |t.tree[t.zones[i]].nodes|
  {
    var z := t.tree[t.zones[i]];
    (z.nodes[z.lastIndex],
     t.(tree := t.tree[t.zones[i] := z.(lastIndex := z.lastIndex + 1)], zoneIndex := i + 1))
  }

  /** The zone the cursor looks at. */
  function Looked(t: TreeView): nat
    requires t.zones != []
  {
    if t.zoneIndex >= |t.zones| then 0 else t.zoneIndex
  }

  function Passed(t: TreeView): TreeView
    requires t.zones != []
  {
    t.(zoneIndex := Looked(t) + 1)
  }

  /** At the head of a turn of the cursor loop: with no zone left to try, the cursor was
      just reset. */
  ghost predicate AtHead(t: TreeView, left: nat) {
    TreeShape(t) && t.zones != [] && (left == 0 ==> t.zoneIndex == 0 && t.tree[t.zones[0]].lastIndex == 0)
  }

  /** The loop of next, when `left` more zones may turn out exhausted before the reset. */
  function Scan(t: TreeView, left: nat): (string, TreeView)
    requires AtHead(t, left)
    decreases left
  {
    var i := Looked(t);
    var z := t.tree[t.zones[i]];
    if z.lastIndex < |z.nodes| then TakeFrom(t, i)
    else if left <= 1 then Scan(ResetTree(Passed(t)), 0)
    else Scan(Passed(t), left - 1)
  }

  /** The head of the turn after an exhausted zone. */
  ghost function NextHead(t: TreeView, left: nat): TreeView
    requires t.zones != []
  {
    if left <= 1 then ResetTree(Passed(t)) else Passed(t)
  }

  lemma ScanStep(t: TreeView, left: nat, u: TreeView) returns (rest: nat)
    requires AtHead(t, left) && u == NextHead(t, left)
    requires t.tree[t.zones[Looked(t)]].lastIndex >= |t.tree[t.zones[Looked(t)]].nodes|
    ensures rest == left - 1 && AtHead(u, rest) && Scan(u, rest) == Scan(t, left)
  {
    rest := left - 1;
  }

  /** One call of next. */
  function Next(t: TreeView): (string, TreeView)
    requires TreeShape(t)
  {
    if t.zones == [] then ("", t) else Scan(t, |t.zones|)
  }

  lemma PassedKeepsRows(t: TreeView)
    requires TreeShape(t) && t.zones != []
    ensures TreeShape(Passed(t)) && RowsOf(Passed(t)) == RowsOf(t) && ResetTree(Passed(t)) == ResetTree(t)
  {
  }

  /** The loop finds the first zone in cyclic order that has nodes left, and starts over
      when there is none. */
  lemma {:induction false} ScanFinds(t: TreeView, left: nat)
    requires TreeShape(t) && t.zones != [] && left > 0
    ensures Scan(t, left) == match Find(RowsOf(t), t.zoneIndex, left)
                             case Some(i) => TakeFrom(t, i)
                             case None => TakeFrom(ResetTree(t), 0)
    decreases left
  {
    var z := t.tree[t.zones[Looked(t)]];
    if z.lastIndex >= |z.nodes| {
      PassedKeepsRows(t);
      FindPasses(t, left);
      if left > 1 {
        ScanFinds(Passed(t), left - 1);
        PassedTakes(t);
      }
    }
  }

  /** Behind an exhausted zone the search goes on with the next. */
  lemma FindPasses(t: TreeView, left: nat)
    requires TreeShape(t) && t.zones != [] && left > 0
    requires t.tree[t.zones[Looked(t)]].lastIndex >= |t.tree[t.zones[Looked(t)]].nodes|
    ensures Find(RowsOf(t), t.zoneIndex, left) == Find(RowsOf(t), Looked(t) + 1, left - 1)
  {
  }

  /** What a zone gives does not depend on the place of the cursor. */
  lemma PassedTakes(t: TreeView)
    requires TreeShape(t) && t.zones != []
    ensures forall i: nat :: i < |t.zones| && t.tree[t.zones[i]].lastIndex < |t.tree[t.zones[i]].nodes| ==>
      TakeFrom(Passed(t), i) == TakeFrom(t, i)
  {
  }

  /** Only cursors differ. */
  ghost predicate SameTree(a: TreeView, b: TreeView) {
    && a.zones == b.zones && a.numNodes == b.numNodes && a.tree.Keys == b.tree.Keys
    && forall z :: z in a.tree ==> a.tree[z].nodes == b.tree[z].nodes
  }

  lemma SameTreeValid(a: TreeView, b: TreeView)
    requires TreeValid(a) && SameTree(a, b)
    ensures TreeValid(b) && Members(b) == Members(a)
  {
    assert forall z :: z in b.tree ==> a.tree[z].nodes == b.tree[z].nodes;
    assert Members(b) == Members(a);
  }

  ghost function NameAt(t: TreeView, p: Position): string
    requires TreeValid(t) && p in All(RowsOf(t))
  {
    t.tree[t.zones[p.0]].nodes[p.1]
  }

  lemma ProperCursor(t: TreeView)
    requires TreeValid(t) && t.zones != []
    ensures Proper(CursorOf(t))
  {
  }

  lemma TakeIsTake(t: TreeView, i: nat)
    requires TreeValid(t) && i < |t.zones|
    requires t.tree[t.zones[i]].lastIndex < |t.tree[t.zones[i]].nodes|
    ensures SameTree(t, TakeFrom(t, i).1)
    ensures CursorOf(TakeFrom(t, i).1) == Take(RowsOf(t), i).1
  {
    var u := TakeFrom(t, i).1;
    assert RowsOf(u) == Take(RowsOf(t), i).1.rows;
  }

  /** next is one step of the round robin over positions, and names the node there. */
  lemma NextIsStep(t: TreeView)
    requires TreeValid(t) && t.zones != []
    ensures TreeValid(Next(t).1) && SameTree(t, Next(t).1)
    ensures Proper(CursorOf(t)) && CursorOf(Next(t).1) == Step(CursorOf(t)).1
    ensures Step(CursorOf(t)).0 in All(RowsOf(t)) && Next(t).0 == NameAt(t, Step(CursorOf(t)).0)
  {
    ProperCursor(t);
    ScanFinds(t, |t.zones|);
    StepDelivers(CursorOf(t));
    match Find(RowsOf(t), t.zoneIndex, |t.zones|) {
      case Some(i) =>
        TakeIsTake(t, i);
      case None =>
        var u := ResetTree(t);
        SameTreeValid(t, u);
        assert RowsOf(u) == ResetRows(RowsOf(t));
        TakeIsTake(u, 0);
    }
    SameTreeValid(t, Next(t).1);
  }

  /** The tree after n calls of next. */
  function TreeAfter(t: TreeView, n: nat): (u: TreeView)
    requires TreeValid(t)
    ensures TreeValid(u)
    decreases n
  {
    if n == 0 || t.zones == [] then t
    else
      var u := TreeAfter(t, n - 1);
      if u.zones == [] then u
      else
        NextIsStep(u);
        Next(u).1
  }

  /** The name that call number k of next returns. */
  function NameOf(t: TreeView, k: nat): string
    requires TreeValid(t)
  {
    Next(TreeAfter(t, k)).0
  }

  function NamesAfter(t: TreeView, n: nat): (names: seq<string>)
    requires TreeValid(t)
    ensures |names| == n && forall k :: 0 <= k < n ==> names[k] == NameOf(t, k)
  {
    seq(n, k requires 0 <= k < n => NameOf(t, k))
  }

  lemma {:induction false} RunIsRun(t: TreeView, n: nat)
    requires TreeValid(t) && t.zones != []
    ensures Proper(CursorOf(t)) && SameTree(t, TreeAfter(t, n))
    ensures CursorOf(TreeAfter(t, n)) == After(CursorOf(t), n)
    decreases n
  {
    ProperCursor(t);
    if n > 0 {
      RunIsRun(t, n - 1);
      NextIsStep(TreeAfter(t, n - 1));
    }
  }

  lemma SameTreeRows(a: TreeView, b: TreeView)
    requires TreeValid(a) && SameTree(a, b) && TreeValid(b)
    ensures All(RowsOf(a)) == All(RowsOf(b))
    ensures forall p :: p in All(RowsOf(a)) ==> NameAt(a, p) == NameAt(b, p)
  {
    assert SameSizes(RowsOf(a), RowsOf(b));
    SameSizesAll(RowsOf(a), RowsOf(b));
  }

  lemma NameIsVisit(t: TreeView, k: nat)
    requires TreeValid(t) && t.zones != []
    ensures Proper(CursorOf(t))
    ensures Visit(CursorOf(t), k) in All(RowsOf(t))
    ensures NameOf(t, k) == NameAt(t, Visit(CursorOf(t), k))
  {
    RunIsRun(t, k);
    var u := TreeAfter(t, k);
    NextIsStep(u);
    SameTreeRows(t, u);
  }

  // ---- counting ----

  function PairAt(t: TreeView, p: Position): (string, string) {
    if p.0 < |t.zones| && t.zones[p.0] in t.tree && p.1 < |t.tree[t.zones[p.0]].nodes|
    then (t.zones[p.0], t.tree[t.zones[p.0]].nodes[p.1])
    else ("", "")
  }

  lemma PairsAreMembers(t: TreeView)
    requires TreeValid(t)
    ensures Members(t) == set p | p in All(RowsOf(t)) :: PairAt(t, p)
  {
    forall m | m in Members(t)
      ensures exists p :: p in All(RowsOf(t)) && PairAt(t, p) == m
    {
      var i :| 0 <= i < |t.zones| && t.zones[i] == m.0;
      var j :| 0 <= j < |t.tree[m.0].nodes| && t.tree[m.0].nodes[j] == m.1;
      var p: Position := (i, j);
      assert p in All(RowsOf(t)) && PairAt(t, p) == m;
    }
  }

  lemma PairsInjective(t: TreeView, p: Position, q: Position)
    requires TreeValid(t) && p in All(RowsOf(t)) && q in All(RowsOf(t)) && PairAt(t, p) == PairAt(t, q)
    ensures p == q
  {
  }

  lemma {:induction false} PairsCount(t: TreeView, s: set<Position>)
    requires TreeValid(t) && s <= All(RowsOf(t))
    ensures |set p | p in s :: PairAt(t, p)| == |s|
  {
    if s != {} {
      var q :| q in s;
      PairsCount(t, s - {q});
      OnePairMore(t, s, q);
    }
  }

  lemma OnePairMore(t: TreeView, s: set<Position>, q: Position)
    requires TreeValid(t) && s <= All(RowsOf(t)) && q in s
    ensures |set p | p in s :: PairAt(t, p)| == |set p | p in s - {q} :: PairAt(t, p)| + 1
  {
    var pairs := set p | p in s - {q} :: PairAt(t, p);
    forall p | p in s - {q}
      ensures PairAt(t, p) != PairAt(t, q)
    {
      if PairAt(t, p) == PairAt(t, q) {
        PairsInjective(t, p, q);
      }
    }
    assert (set p | p in s :: PairAt(t, p)) == pairs + {PairAt(t, q)};
  }

  /** There are as many positions as nodes counted. */
  lemma CountsPositions(t: TreeView)
    requires TreeValid(t)
    ensures |All(RowsOf(t))| == t.numNodes
  {
    PairsAreMembers(t);
    PairsCount(t, All(RowsOf(t)));
  }

  // ---- the order the snapshot takes ----

  ghost function Names(t: TreeView): set<string> { set m | m in Members(t) :: m.1 }

  /** No node is under two zones. */
  ghost predicate PlacedOnce(t: TreeView) {
    forall a, b :: a in Members(t) && b in Members(t) && a.1 == b.1 ==> a == b
  }

  ghost predicate EachOnce(s: seq<string>, names: set<string>) {
    NoDuplicates(s) && (set n | n in s) == names
  }

  lemma NamesInjective(t: TreeView, p: Position, q: Position)
    requires TreeValid(t) && PlacedOnce(t)
    requires p in All(RowsOf(t)) && q in All(RowsOf(t)) && NameAt(t, p) == NameAt(t, q)
    ensures p == q
  {
    assert PairAt(t, p) in Members(t) && PairAt(t, q) in Members(t);
  }

  lemma NamesOfPositions(t: TreeView)
    requires TreeValid(t)
    ensures Names(t) == set p | p in All(RowsOf(t)) :: NameAt(t, p)
  {
    forall n | n in Names(t)
      ensures exists p :: p in All(RowsOf(t)) && NameAt(t, p) == n
    {
      var m :| m in Members(t) && m.1 == n;
      var i :| 0 <= i < |t.zones| && t.zones[i] == m.0;
      var j :| 0 <= j < |t.tree[m.0].nodes| && t.tree[m.0].nodes[j] == n;
      assert (i, j) in All(RowsOf(t)) && NameAt(t, (i, j)) == n;
    }
    forall p | p in All(RowsOf(t))
      ensures NameAt(t, p) in Names(t)
    {
      assert PairAt(t, p) in Members(t);
    }
  }

  lemma EachOnceIffExact(t: TreeView, ps: seq<Position>, names: seq<string>)
    requires TreeValid(t) && PlacedOnce(t) && |ps| == |names|
    requires forall k :: 0 <= k < |ps| ==> ps[k] in All(RowsOf(t)) && names[k] == NameAt(t, ps[k])
    ensures EachOnce(names, Names(t)) <==> Exact(ps, All(RowsOf(t)))
  {
    var all := All(RowsOf(t));
    NamesOfPositions(t);
    forall i, j | 0 <= i < j < |ps|
      ensures names[i] == names[j] <==> ps[i] == ps[j]
    {
      if names[i] == names[j] {
        NamesInjective(t, ps[i], ps[j]);
      }
    }
    if EachOnce(names, Names(t)) {
      forall p | p in all
        ensures p in ps
      {
        assert NameAt(t, p) in Names(t);
        var k :| 0 <= k < |names| && names[k] == NameAt(t, p);
        NamesInjective(t, p, ps[k]);
      }
    }
    if Exact(ps, all) {
      forall n | n in Names(t)
        ensures n in names
      {
        var p :| p in all && NameAt(t, p) == n;
        assert p in Elements(ps);
        var k :| 0 <= k < |ps| && ps[k] == p;
        assert names[k] == n;
      }
    }
  }

  /** As many calls of next as there are nodes return each node exactly once if and only
      if the cursors are balanced. */
  lemma FullPassIsExactIffBalanced(t: TreeView)
    requires TreeValid(t) && PlacedOnce(t)
    ensures EachOnce(NamesAfter(t, t.numNodes), Names(t)) <==> Balanced(RowsOf(t))
  {
    CountsPositions(t);
    if t.zones == [] {
      assert Members(t) == {};
      assert NamesAfter(t, 0) == [];
    } else {
      var c := CursorOf(t);
      ProperCursor(t);
      forall k | 0 <= k < t.numNodes
        ensures Visit(c, k) in All(RowsOf(t)) && NamesAfter(t, t.numNodes)[k] == NameAt(t, Visit(c, k))
      {
        NameIsVisit(t, k);
      }
      EachOnceIffExact(t, Visits(c, t.numNodes), NamesAfter(t, t.numNodes));
      FullPassIff(c);
      BalancedIffInitial(RowsOf(t));
    }
  }

  /** A full pass from balanced cursors leaves them balanced. */
  lemma FullPassKeepsBalance(t: TreeView)
    requires TreeValid(t) && Balanced(RowsOf(t))
    ensures SameTree(t, TreeAfter(t, t.numNodes)) && Balanced(RowsOf(TreeAfter(t, t.numNodes)))
  {
    CountsPositions(t);
    if t.zones != [] {
      var c, n := CursorOf(t), t.numNodes;
      RunIsRun(t, n);
      BalancedIffInitial(RowsOf(t));
      FullPassIff(c);
      AfterSameSizes(c, n);
      SameSizesAll(c.rows, After(c, n).rows);
      BalancedIffInitial(After(c, n).rows);
    }
  }

  /** From the start of a pass, the calls go round by round, zone by zone. */
  lemma PassOrder(t: TreeView, i: nat, j: nat)
    requires TreeValid(t) && t.zones != [] && i < j < t.numNodes
    requires AtStart(CursorOf(t))
    ensures exists p, q :: p in All(RowsOf(t)) && q in All(RowsOf(t)) && Before(p, q) &&
              NamesAfter(t, t.numNodes)[i] == NameAt(t, p) && NamesAfter(t, t.numNodes)[j] == NameAt(t, q)
  {
    CountsPositions(t);
    NameIsVisit(t, i);
    NameIsVisit(t, j);
    PassInOrder(CursorOf(t), i, j);
  }

  /** A complete pass from such a start leaves the tree at one again. */
  lemma PassLeavesStart(t: TreeView)
    requires TreeValid(t) && t.zones != [] && AtStart(CursorOf(t))
    ensures AtStart(CursorOf(TreeAfter(t, t.numNodes)))
  {
    CountsPositions(t);
    RunIsRun(t, t.numNodes);
    PassEndsAtStart(CursorOf(t));
  }

  // ---- adding a node to balanced cursors ----

  /** A zone that gets a node more; its cursor may still be within the zone, at its end, or
      beyond it because nodes were removed. */
  lemma GrownBalance(rows: seq<Row>, grown: seq<Row>, j: nat)
    requires |grown| == |rows| && j < |rows| && Balanced(rows)
    requires grown[j] == Row(rows[j].size + 1, rows[j].lastIndex)
    requires forall i :: 0 <= i < |rows| && i != j ==> grown[i] == rows[i]
    ensures Balanced(grown) <==>
            if rows[j].lastIndex < rows[j].size then true
            else if rows[j].lastIndex == rows[j].size then LastInOrder(rows, j, rows[j].size)
            else NotAhead(rows, j, rows[j].size + 1)
  {
  }

  /** No other zone had more than `turn` turns, except one more in an earlier zone. */
  predicate LastInOrder(rows: seq<Row>, j: nat, turn: nat) {
    forall i :: 0 <= i < |rows| && i != j ==> Progress(rows[i]) <= turn || (Progress(rows[i]) == turn + 1 && i < j)
  }

  /** No other zone with nodes left had fewer than `turn` turns, except one less in a later
      zone. */
  predicate NotAhead(rows: seq<Row>, j: nat, turn: nat) {
    forall k :: 0 <= k < |rows| && k != j && Progress(rows[k]) < rows[k].size ==>
      turn <= Progress(rows[k]) || (turn == Progress(rows[k]) + 1 && j < k)
  }

  lemma NewRowBalance(rows: seq<Row>, grown: seq<Row>)
    requires Balanced(rows) && grown == rows + [Row(1, 0)]
    ensures Balanced(grown) <==> LastInOrder(rows, |rows|, 0)
  {
    assert grown[|rows|] == Row(1, 0);
    assert forall i :: 0 <= i < |rows| ==> grown[i] == rows[i];
  }

  lemma AddedRows(t: TreeView, zone: string, name: string, j: nat)
    requires TreeValid(t) && !HasNode(t, zone, name) && j == IndexOf(t.zones, zone, 0)
    ensures var u := AddedNode(t, zone, name);
            TreeValid(u) && j < |u.zones| && |u.zones| == if zone in t.tree then |t.zones| else |t.zones| + 1
    ensures var rows := RowsOf(AddedNode(t, zone, name));
            && rows[j] == (if zone in t.tree then Row(|t.tree[zone].nodes| + 1, t.tree[zone].lastIndex) else Row(1, 0))
            && forall i :: 0 <= i < |rows| && i != j ==> i < |t.zones| && rows[i] == RowsOf(t)[i]
  {
    AddedNodeValid(t, zone, name);
    var u := AddedNode(t, zone, name);
    if zone in t.tree {
      assert u.zones == t.zones;
    } else {
      assert u.zones == t.zones + [zone] && j == |t.zones|;
    }
    forall i | 0 <= i < |u.zones| && i != j
      ensures i < |t.zones| && u.zones[i] == t.zones[i] && t.zones[i] != zone
    {
    }
  }

  /** What a node more under the zone does to balanced cursors, in terms of the tree before. */
  predicate KeepsBalance(t: TreeView, zone: string)
    requires forall i :: 0 <= i < |t.zones| ==> t.zones[i] in t.tree
  {
    var rows, j := RowsOf(t), IndexOf(t.zones, zone, 0);
    if j == |rows| then LastInOrder(rows, j, 0)
    else if rows[j].lastIndex < rows[j].size then true
    else if rows[j].lastIndex == rows[j].size then LastInOrder(rows, j, rows[j].size)
    else NotAhead(rows, j, rows[j].size + 1)
  }

  /** A new node keeps balanced cursors balanced, and so the next pass exact, if its zone has
      nodes left, and else if and only if the node comes last in the round order among those
      served, or, when the cursor of its zone stands beyond it because nodes were removed,
      no node before it in the order is still to come. */
  lemma AddingKeepsBalanceIff(t: TreeView, zone: string, name: string)
    requires TreeValid(t) && !HasNode(t, zone, name) && Balanced(RowsOf(t))
    ensures TreeValid(AddedNode(t, zone, name))
    ensures Balanced(RowsOf(AddedNode(t, zone, name))) <==> KeepsBalance(t, zone)
  {
    var j := IndexOf(t.zones, zone, 0);
    AddedRows(t, zone, name, j);
    var rows, grown := RowsOf(t), RowsOf(AddedNode(t, zone, name));
    if zone in t.tree {
      assert j < |t.zones|;
      GrownBalance(rows, grown, j);
    } else {
      assert j == |t.zones|;
      assert grown == rows + [Row(1, 0)];
      NewRowBalance(rows, grown);
    }
  }

  // ---- removing a node from balanced cursors ----

  lemma ShrunkBalance(rows: seq<Row>, shrunk: seq<Row>, j: nat)
    requires |shrunk| == |rows| && j < |rows| && Balanced(rows)
    requires rows[j].size > 0 && shrunk[j] == Row(rows[j].size - 1, rows[j].lastIndex)
    requires forall i :: 0 <= i < |rows| && i != j ==> shrunk[i] == rows[i]
    ensures Balanced(shrunk)
  {
    assert forall i :: 0 <= i < |rows| ==> Progress(shrunk[i]) <= Progress(rows[i]);
  }

  lemma CutBalance(rows: seq<Row>, cut: seq<Row>, j: nat)
    requires j < |rows| && |cut| == |rows| - 1 && Balanced(rows)
    requires forall i :: 0 <= i < |cut| ==> cut[i] == rows[if i < j then i else i + 1]
    ensures Balanced(cut)
  {
    forall i, k | 0 <= i < |cut| && 0 <= k < |cut| && i != k && Progress(cut[k]) < cut[k].size
      ensures Progress(cut[i]) <= Progress(cut[k]) || (Progress(cut[i]) == Progress(cut[k]) + 1 && i < k)
    {
      var a, b := if i < j then i else i + 1, if k < j then k else k + 1;
      assert rows[a] == cut[i] && rows[b] == cut[k];
    }
  }

  lemma RemovedRows(t: TreeView, zone: string, name: string, j: nat)
    requires TreeValid(t) && HasNode(t, zone, name) && j == IndexOf(t.zones, zone, 0)
    ensures TreeValid(RemovedNode(t, zone, name)) && j < |t.zones| && t.zones[j] == zone
    ensures |t.tree[zone].nodes| > 1 ==>
      var rows := RowsOf(RemovedNode(t, zone, name));
      && |rows| == |t.zones| && rows[j] == Row(|t.tree[zone].nodes| - 1, t.tree[zone].lastIndex)
      && forall i :: 0 <= i < |rows| && i != j ==> rows[i] == RowsOf(t)[i]
  {
    RemovedNodeValid(t, zone, name);
    WithoutRemoves(t.tree[zone].nodes, name);
    assert zone in t.zones;
  }

  lemma CutZones(t: TreeView, zone: string, name: string, j: nat)
    requires TreeShape(t) && HasNode(t, zone, name) && j < |t.zones| && j == IndexOf(t.zones, zone, 0)
    requires |t.tree[zone].nodes| == 1
    ensures var u := RemovedNode(t, zone, name);
            && u.tree == t.tree - {zone} && |u.zones| == |t.zones| - 1
            && forall i :: 0 <= i < |u.zones| ==>
                 u.zones[i] == t.zones[if i < j then i else i + 1] && u.zones[i] != zone
  {
  }

  lemma CutRows(t: TreeView, zone: string, name: string, j: nat)
    requires TreeValid(t) && HasNode(t, zone, name) && j == IndexOf(t.zones, zone, 0) && |t.tree[zone].nodes| == 1
    ensures TreeValid(RemovedNode(t, zone, name)) && j < |t.zones|
    ensures var rows := RowsOf(RemovedNode(t, zone, name));
            && |rows| == |t.zones| - 1
            && forall i :: 0 <= i < |rows| ==> rows[i] == RowsOf(t)[if i < j then i else i + 1]
  {
    RemovedNodeValid(t, zone, name);
    assert zone in t.zones;
    CutZones(t, zone, name, j);
    var u := RemovedNode(t, zone, name);
    forall i | 0 <= i < |u.zones|
      ensures RowsOf(u)[i] == RowsOf(t)[if i < j then i else i + 1]
    {
      assert u.zones[i] == t.zones[if i < j then i else i + 1] != zone;
    }
  }

  /** Removing a node keeps balanced cursors balanced. */
  lemma RemovingKeepsBalance(t: TreeView, zone: string, name: string)
    requires TreeValid(t) && Balanced(RowsOf(t))
    ensures TreeValid(RemovedNode(t, zone, name)) && Balanced(RowsOf(RemovedNode(t, zone, name)))
  {
    RemovedNodeValid(t, zone, name);
    if HasNode(t, zone, name) {
      var j := IndexOf(t.zones, zone, 0);
      RemovedRows(t, zone, name, j);
      if |t.tree[zone].nodes| > 1 {
        ShrunkBalance(RowsOf(t), RowsOf(RemovedNode(t, zone, name)), j);
      } else {
        CutRows(t, zone, name, j);
        CutBalance(RowsOf(t), RowsOf(RemovedNode(t, zone, name)), j);
      }
    }
  }
}
