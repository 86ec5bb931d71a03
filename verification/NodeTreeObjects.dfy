/** The mutable tree: nodeTree and nodeArray with their loops, each method against the
    value operations of NodeTrees (internal/cache/node_tree.go). */
module NodeTreeObjects {
  import opened Api
  import opened Sequences
  import opened NodeTrees

  class NodeArray {
    var nodes: seq<string>
    var lastIndex: nat
    /** the zone that the array belongs to */
    ghost const zone: string

    constructor (ghost zone: string, name: string)
      ensures nodes == [name] && lastIndex == 0 && this.zone == zone
    {
      nodes, lastIndex := [name], 0;
      this.zone := zone;
    }

    method Next() returns (name: string, exhausted: bool)
      modifies this`lastIndex
      ensures exhausted <==> nodes != [] && old(lastIndex) >= |nodes|
      ensures old(lastIndex) < |nodes| ==> name == nodes[old(lastIndex)] && lastIndex == old(lastIndex) + 1
      ensures old(lastIndex) >= |nodes| ==> name == "" && lastIndex == old(lastIndex)
    {
      if |nodes| == 0 {
        return "", false;
      }
      if lastIndex >= |nodes| {
        return "", true;
      }
      name, exhausted := nodes[lastIndex], false;
      lastIndex := lastIndex + 1;
    }
  }

  class NodeTree {
    var tree: map<string, NodeArray>
    var zones: seq<string>
    var zoneIndex: nat
    var numNodes: int
    /** The value of the tree. */
    ghost var view: TreeView
    /** every array the tree has held */
    ghost var arrays: set<NodeArray>

    constructor ()
      ensures Valid() && view == TreeView(map[], [], 0, 0) && tree == map[] && arrays == {}
    {
      tree, zones, zoneIndex, numNodes, arrays := map[], [], 0, 0, {};
      view := TreeView(map[], [], 0, 0);
    }

    /** Every zone has its own array, and the fields hold the value. */
    ghost predicate Valid()
      reads this, arrays
    {
      && zones == view.zones && zoneIndex == view.zoneIndex && numNodes == view.numNodes
      && tree.Keys == view.tree.Keys && (forall z :: z in tree ==> tree[z] in arrays)
      && (forall z :: z in tree ==> tree[z].zone == z)
      && (forall z :: z in tree ==> tree[z].nodes == view.tree[z].nodes)
      && (forall z :: z in tree ==> tree[z].lastIndex == view.tree[z].lastIndex)
    }

    method AddNode(zone: string, name: string)
      requires Valid()
      modifies this, arrays
      ensures Valid() && fresh(arrays - old(arrays))
      ensures view == AddedNode(old(view), zone, name)
    {
      if zone in tree {
        var na := tree[zone];
        for i := 0 to |na.nodes|
          invariant name !in na.nodes[..i]
        {
          if na.nodes[i] == name {
            return;
          }
        }
        assert na.nodes[..|na.nodes|] == na.nodes;
        ExtendZone(zone, name);
      } else {
        StartZone(zone, name);
      }
    }

    method ExtendZone(zone: string, name: string)
      requires Valid() && zone in tree && name !in tree[zone].nodes
      modifies this, tree[zone]
      ensures Valid() && arrays == old(arrays)
      ensures view == AddedNode(old(view), zone, name)
    {
      var na := tree[zone];
      na.nodes := na.nodes + [name];
      numNodes := numNodes + 1;
      view := AddedNode(view, zone, name);
    }

    method StartZone(zone: string, name: string)
      requires Valid() && zone !in tree
      modifies this
      ensures Valid() && fresh(arrays - old(arrays))
      ensures view == AddedNode(old(view), zone, name)
    {
      zones := zones + [zone];
      var na := new NodeArray(zone, name);
      tree, arrays := tree[zone := na], arrays + {na};
      numNodes := numNodes + 1;
      view := AddedNode(view, zone, name);
    }

    /** removeZone: the zone leaves the map and the zone list. */
    method RemoveZone(zone: string)
      modifies this`tree, this`zones
      ensures tree == old(tree) - {zone} && zones == Without(old(zones), zone)
    {
      tree := tree - {zone};
      for i := 0 to |zones|
        invariant zones == old(zones) && IndexOf(zones, zone, 0) >= i
        invariant tree == old(tree) - {zone}
      {
        if zones[i] == zone {
          zones := zones[..i] + zones[i + 1..];
          return;
        }
      }
    }

    /** The name at index i of the zone is cut out. */
    method CutName(zone: string, i: nat)
      requires Valid() && zone in tree && i < |tree[zone].nodes|
      modifies this`numNodes, this`view, tree[zone]
      ensures Valid()
      ensures var z := old(view).tree[zone];
              view == old(view).(tree := old(view).tree[zone := z.(nodes := z.nodes[..i] + z.nodes[i + 1..])],
                                 numNodes := old(view).numNodes - 1)
    {
      var na := tree[zone];
      na.nodes := na.nodes[..i] + na.nodes[i + 1..];
      numNodes := numNodes - 1;
      view := view.(tree := view.tree[zone := view.tree[zone].(nodes := na.nodes)], numNodes := numNodes);
    }

    method DropZone(zone: string)
      requires Valid()
      modifies this`tree, this`zones, this`view
      ensures Valid()
      ensures view == old(view).(tree := old(view).tree - {zone}, zones := Without(old(view).zones, zone))
    {
      RemoveZone(zone);
      view := view.(tree := view.tree - {zone}, zones := Without(view.zones, zone));
    }

    /** What removeNode does once the node is found at index i of its zone. */
    method CutNode(zone: string, i: nat)
      requires Valid() && zone in tree && i < |tree[zone].nodes|
      requires IndexOf(tree[zone].nodes, tree[zone].nodes[i], 0) == i
      modifies this, tree[zone]
      ensures Valid() && arrays == old(arrays)
      ensures view == RemovedNode(old(view), zone, old(tree[zone].nodes[i]))
    {
      ghost var t, name := view, tree[zone].nodes[i];
      CutName(zone, i);
      if |tree[zone].nodes| == 0 {
        DropZone(zone);
      }
      CutIsRemoved(t, zone, name, i, view);
    }

    method RemoveNode(zone: string, name: string) returns (found: bool)
      requires Valid()
      modifies this, arrays
      ensures Valid() && arrays == old(arrays)
      ensures found == HasNode(old(view), zone, name)
      ensures view == RemovedNode(old(view), zone, name)
    {
      if zone in tree {
        var na := tree[zone];
        for i := 0 to |na.nodes|
          invariant IndexOf(na.nodes, name, 0) >= i
        {
          if na.nodes[i] == name {
            CutNode(zone, i);
            return true;
          }
        }
      }
      return false;
    }

    method UpdateNode(before: Node, after: Node)
      requires Valid()
      modifies this, arrays
      ensures Valid() && fresh(arrays - old(arrays))
      ensures view == UpdatedNode(old(view), before.zone, after.zone, before.name, after.name)
    {
      if before.zone == after.zone {
        return;
      }
      var _ := RemoveNode(before.zone, before.name);
      AddNode(after.zone, after.name);
    }

    method ResetExhausted()
      requires Valid()
      modifies this`zoneIndex, this`view, arrays
      ensures Valid() && view == ResetTree(old(view))
    {
      var rest := tree.Keys;
      while rest != {}
        invariant rest <= tree.Keys && view == old(view) && zoneIndex == old(zoneIndex)
        invariant forall z :: z in tree ==> tree[z].nodes == old(tree[z].nodes)
        invariant forall z :: z in tree && z !in rest ==> tree[z].lastIndex == 0
      {
        var z :| z in rest;
        tree[z].lastIndex := 0;
        rest := rest - {z};
      }
      zoneIndex := 0;
      view := ResetTree(view);
    }

    /** One turn of the cursor loop: ask the zone at the cursor for a node. */
    method TryZone() returns (name: string, exhausted: bool)
      requires Valid() && TreeShape(view) && zones != []
      modifies this`zoneIndex, this`view, arrays
      ensures Valid()
      ensures var i := Looked(old(view));
              var z := old(view).tree[zones[i]];
              && exhausted == (z.lastIndex >= |z.nodes|)
              && (exhausted ==> view == Passed(old(view)))
              && (!exhausted ==> (name, view) == TakeFrom(old(view), i))
    {
      if zoneIndex >= |zones| {
        zoneIndex := 0;
      }
      var zone := zones[zoneIndex];
      ghost var i := zoneIndex;
      zoneIndex := zoneIndex + 1;
      assert zone in tree && |view.tree[zone].nodes| > 0;
      name, exhausted := tree[zone].Next();
      view := if exhausted then Passed(view) else TakeFrom(view, i).1;
    }

    /** The cursor loop. It ends: after as many exhausted zones as there are zones the
        cursor is reset, and then the first zone has a node. */
    method Next() returns (name: string)
      requires Valid() && TreeShape(view)
      modifies this`zoneIndex, this`view, arrays
      ensures Valid() && (name, view) == NodeTrees.Next(old(view))
    {
      if |zones| == 0 {
        return "";
      }
      var numExhaustedZones := 0;
      ghost var result := NodeTrees.Next(view);
      ghost var left: nat := |zones|;
      while true
        invariant Valid() && left == |zones| - numExhaustedZones
        invariant AtHead(view, left)
        invariant Scan(view, left) == result
        decreases left
      {
        ghost var t := view;
        var exhausted;
        name, exhausted := TryZone();
        if exhausted {
          numExhaustedZones := numExhaustedZones + 1;
          if numExhaustedZones >= |zones| {
            ResetExhausted();
          }
          left := ScanStep(t, left, view);
        } else {
          return;
        }
      }
    }
  }

  lemma CutIsRemoved(t: TreeView, zone: string, name: string, i: nat, u: TreeView)
    requires zone in t.tree && i < |t.tree[zone].nodes| && t.tree[zone].nodes[i] == name
    requires IndexOf(t.tree[zone].nodes, name, 0) == i
    requires var z := t.tree[zone].(nodes := t.tree[zone].nodes[..i] + t.tree[zone].nodes[i + 1..]);
             u == if z.nodes == [] then t.(tree := t.tree[zone := z] - {zone}, zones := Without(t.zones, zone),
                                           numNodes := t.numNodes - 1)
                  else t.(tree := t.tree[zone := z], numNodes := t.numNodes - 1)
    ensures u == RemovedNode(t, zone, name)
  {
    var z := t.tree[zone].(nodes := t.tree[zone].nodes[..i] + t.tree[zone].nodes[i + 1..]);
    assert t.tree[zone := z] - {zone} == t.tree - {zone};
  }
}
