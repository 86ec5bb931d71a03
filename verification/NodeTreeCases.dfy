/** A node added between two passes at which the cursor of the zone tree repeats a node and
    skips another (internal/cache/node_tree.go). */
module NodeTreeCases {
  import opened NodeTrees

  /** Zone a with two nodes and zone b with one. */
  function TwoZones(a: string, b: string, a1: string, a2: string, b1: string, la: nat, lb: nat, z: nat): TreeView {
    TreeView(map[a := ZoneView([a1, a2], la), b := ZoneView([b1], lb)], [a, b], z, 3)
  }

  function OneZone(a: string, a1: string, a2: string, la: nat, z: nat): TreeView {
    TreeView(map[a := ZoneView([a1, a2], la)], [a], z, 2)
  }

  lemma OneZoneIs(t: TreeView, a: string, a1: string, a2: string, la: nat, z: nat)
    requires a1 != a2 && t == OneZone(a, a1, a2, la, z)
    ensures TreeValid(t)
  {
    assert Members(t) == {(a, a1), (a, a2)};
  }

  lemma TwoZonesAre(t: TreeView, a: string, b: string, a1: string, a2: string, b1: string, la: nat, lb: nat, z: nat)
    requires a != b && a1 != a2 && t == TwoZones(a, b, a1, a2, b1, la, lb, z)
    ensures TreeValid(t)
  {
    var ms := {(a, a1), (a, a2), (b, b1)};
    forall z, n
      ensures (z, n) in Members(t) <==> (z, n) in ms
    {
      assert (z, n) in Members(t) <==> HasNode(t, z, n);
    }
    assert Members(t) == ms;
  }

  /** The two calls of a pass over one zone. */
  lemma OneZoneNext(a: string, a1: string, a2: string)
    requires a1 != a2
    ensures TreeShape(OneZone(a, a1, a2, 0, 0)) && TreeShape(OneZone(a, a1, a2, 1, 1))
    ensures Next(OneZone(a, a1, a2, 0, 0)) == (a1, OneZone(a, a1, a2, 1, 1))
    ensures Next(OneZone(a, a1, a2, 1, 1)) == (a2, OneZone(a, a1, a2, 2, 1))
  {
    var s, t, u := OneZone(a, a1, a2, 0, 0), OneZone(a, a1, a2, 1, 1), OneZone(a, a1, a2, 2, 1);
    assert s.tree[a := ZoneView([a1, a2], 1)] == t.tree;
    assert t.tree[a := ZoneView([a1, a2], 2)] == u.tree;
  }

  /** Three calls once zone b has joined. */
  lemma TwoZonesNext(a: string, b: string, a1: string, a2: string, b1: string)
    requires a != b && a1 != a2
    ensures TreeShape(TwoZones(a, b, a1, a2, b1, 2, 0, 1)) && TreeShape(TwoZones(a, b, a1, a2, b1, 1, 0, 1))
    ensures Next(TwoZones(a, b, a1, a2, b1, 2, 0, 1)) == (b1, TwoZones(a, b, a1, a2, b1, 2, 1, 2))
    ensures Next(TwoZones(a, b, a1, a2, b1, 1, 0, 1)) == (b1, TwoZones(a, b, a1, a2, b1, 1, 1, 2))
  {
    SecondZoneNext(a, b, a1, a2, b1, 2);
    SecondZoneNext(a, b, a1, a2, b1, 1);
  }

  lemma SecondZoneNext(a: string, b: string, a1: string, a2: string, b1: string, i: nat)
    requires a != b && a1 != a2
    ensures TreeShape(TwoZones(a, b, a1, a2, b1, i, 0, 1))
    ensures Next(TwoZones(a, b, a1, a2, b1, i, 0, 1)) == (b1, TwoZones(a, b, a1, a2, b1, i, 1, 2))
  {
    var t := TwoZones(a, b, a1, a2, b1, i, 0, 1);
    assert t.tree[b := ZoneView([b1], 1)] == TwoZones(a, b, a1, a2, b1, i, 1, 2).tree;
  }

  lemma TwoZonesReset(a: string, b: string, a1: string, a2: string, b1: string)
    requires a != b && a1 != a2
    ensures TreeShape(TwoZones(a, b, a1, a2, b1, 2, 1, 2))
    ensures Next(TwoZones(a, b, a1, a2, b1, 2, 1, 2)) == (a1, TwoZones(a, b, a1, a2, b1, 1, 0, 1))
  {
    var s, u := TwoZones(a, b, a1, a2, b1, 2, 1, 2), TwoZones(a, b, a1, a2, b1, 2, 1, 1);
    var r := TwoZones(a, b, a1, a2, b1, 0, 0, 0);
    var x := ScanStep(s, 2, u);
    assert ResetTree(Passed(u)) == r by {
      assert ResetTree(Passed(u)).tree == r.tree;
    }
    var y := ScanStep(u, 1, r);
    FirstTaken(a, b, a1, a2, b1, r);
  }

  lemma FirstTaken(a: string, b: string, a1: string, a2: string, b1: string, r: TreeView)
    requires a != b && a1 != a2 && r == TwoZones(a, b, a1, a2, b1, 0, 0, 0)
    ensures AtHead(r, 0) && Scan(r, 0) == (a1, TwoZones(a, b, a1, a2, b1, 1, 0, 1))
  {
    assert r.tree[a := ZoneView([a1, a2], 1)] == TwoZones(a, b, a1, a2, b1, 1, 0, 1).tree;
  }

  lemma OneZoneBuilt(a: string, a1: string, a2: string, t: TreeView)
    requires a1 != a2 && t == OneZone(a, a1, a2, 0, 0)
    ensures t == AddedNode(AddedNode(TreeView(map[], [], 0, 0), a, a1), a, a2)
  {
    var e := AddedNode(TreeView(map[], [], 0, 0), a, a1);
    assert e == TreeView(map[a := ZoneView([a1], 0)], [a], 0, 1);
    assert [a1] + [a2] == [a1, a2];
    assert e.tree[a := ZoneView([a1, a2], 0)] == t.tree;
  }

  lemma PassOverOne(a: string, a1: string, a2: string, t: TreeView, u: TreeView)
    requires a1 != a2 && t == OneZone(a, a1, a2, 0, 0) && u == OneZone(a, a1, a2, 2, 1)
    ensures TreeValid(t) && TreeAfter(t, t.numNodes) == u
  {
    OneZoneIs(t, a, a1, a2, 0, 0);
    OneZoneNext(a, a1, a2);
    var n := 1;
    assert TreeAfter(t, n - 1) == t;
    assert TreeAfter(t, n) == OneZone(a, a1, a2, 1, 1);
  }

  lemma PassOverTwo(a: string, b: string, a1: string, a2: string, b1: string, v: TreeView)
    requires a != b && a1 != a2 && v == TwoZones(a, b, a1, a2, b1, 2, 0, 1)
    ensures TreeValid(v) && NamesAfter(v, v.numNodes) == [b1, a1, b1]
  {
    TwoZonesAre(v, a, b, a1, a2, b1, 2, 0, 1);
    TwoZonesNext(a, b, a1, a2, b1);
    TwoZonesReset(a, b, a1, a2, b1);
    var n := 1;
    assert TreeAfter(v, n - 1) == v;
    assert TreeAfter(v, n) == TwoZones(a, b, a1, a2, b1, 2, 1, 2);
    assert TreeAfter(v, n + 1) == TwoZones(a, b, a1, a2, b1, 1, 0, 1);
    assert NameOf(v, n - 1) == b1 && NameOf(v, n) == a1 && NameOf(v, n + 1) == b1;
  }

  lemma ZoneJoins(a: string, b: string, a1: string, a2: string, b1: string, u: TreeView, v: TreeView)
    requires a != b && u == OneZone(a, a1, a2, 2, 1) && v == TwoZones(a, b, a1, a2, b1, 2, 0, 1)
    ensures v == AddedNode(u, b, b1)
  {
    assert u.tree[b := ZoneView([b1], 0)] == v.tree;
  }

  /** After a pass over zone a, a first node of zone b makes the next pass return that node
      twice and leave one of zone a out. */
  lemma AddedZoneRepeats(a: string, b: string, a1: string, a2: string, b1: string, t: TreeView, u: TreeView,
          v: TreeView)
    requires a != b && a1 != a2
    requires t == OneZone(a, a1, a2, 0, 0) && u == OneZone(a, a1, a2, 2, 1) && v == TwoZones(a, b, a1, a2, b1, 2, 0, 1)
    ensures t == AddedNode(AddedNode(TreeView(map[], [], 0, 0), a, a1), a, a2)
    ensures TreeValid(t) && u == TreeAfter(t, t.numNodes) && v == AddedNode(u, b, b1)
    ensures TreeValid(v) && NamesAfter(v, v.numNodes) == [b1, a1, b1]
  {
    OneZoneBuilt(a, a1, a2, t);
    PassOverOne(a, a1, a2, t, u);
    ZoneJoins(a, b, a1, a2, b1, u, v);
    PassOverTwo(a, b, a1, a2, b1, v);
  }
}
