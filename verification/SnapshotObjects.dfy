/** The snapshot as an object: a map of entries by name and lists that point to the same
    entries (internal/cache/snapshot.go). K is the type of node names, V that of entries. */
module SnapshotObjects {

  /** An entry that the map and the lists share. */
  class InfoCell<K, V> {
    var info: V
    ghost const name: K

    constructor (info: V, ghost name: K)
      ensures this.info == info && this.name == name
    {
      this.info := info;
      this.name := name;
    }
  }

  class Snapshot<K(==, !new), V(!new)> {
    var nodeInfoMap: map<K, InfoCell<K, V>>
    var nodeInfoList: seq<InfoCell<K, V>>
    var affinityList: seq<InfoCell<K, V>>
    var generation: int
    /** the entries by name, and the names that the lists spell out */
    ghost var infos: map<K, V>
    ghost var names: seq<K>
    ghost var affinityNames: seq<K>
    /** every cell the map has held */
    ghost var cells: set<InfoCell<K, V>>

    constructor ()
      ensures Valid() && Listed() && infos == map[] && names == [] && affinityNames == [] && generation == 0 &&
        cells == {}
    {
      nodeInfoMap, nodeInfoList, affinityList, generation := map[], [], [], 0;
      infos, names, affinityNames, cells := map[], [], [], {};
    }

    /** Every name has its own cell, which holds the entry. */
    ghost predicate Valid()
      reads this, cells
    {
      && (forall n :: n in nodeInfoMap ==> nodeInfoMap[n] in cells)
      && nodeInfoMap.Keys == infos.Keys
      && (forall n :: n in nodeInfoMap ==> nodeInfoMap[n].info == infos[n])
      && (forall n :: n in nodeInfoMap ==> nodeInfoMap[n].name == n)
    }

    /** A list spells out names of the map. */
    ghost predicate Points(list: seq<InfoCell<K, V>>, names: seq<K>)
      reads this
    {
      |list| == |names| && forall i :: 0 <= i < |list| ==> names[i] in nodeInfoMap && list[i] == nodeInfoMap[names[i]]
    }

    ghost predicate Listed()
      reads this
    {
      Points(nodeInfoList, names) && Points(affinityList, affinityNames)
    }

    /** The entry takes a new value in place; an unknown name gets a cell. */
    method Refresh(name: K, v: V) returns (existed: bool)
      requires Valid()
      modifies this`nodeInfoMap, this`infos, this`cells, cells
      ensures Valid() && infos == old(infos)[name := v] && existed == (name in old(infos))
      ensures old(Listed()) ==> Listed()
      ensures fresh(cells - old(cells))
    {
      existed := name in nodeInfoMap;
      if existed {
        nodeInfoMap[name].info := v;
      } else {
        var c := new InfoCell(v, name);
        nodeInfoMap, cells := nodeInfoMap[name := c], cells + {c};
      }
      infos := infos[name := v];
    }

    method Drop(name: K)
      requires Valid()
      modifies this`nodeInfoMap, this`infos
      ensures Valid() && infos == old(infos) - {name}
    {
      nodeInfoMap := nodeInfoMap - {name};
      infos := infos - {name};
    }

    /** The affinity list is emptied, and the node list with it if all lists are made anew. */
    method StartLists(all: bool)
      modifies this`nodeInfoList, this`names, this`affinityList, this`affinityNames
      ensures names == (if all then [] else old(names)) && affinityNames == []
      ensures all || old(Points(nodeInfoList, names)) ==> Listed()
    {
      if all {
        nodeInfoList, names := [], [];
      }
      affinityList, affinityNames := [], [];
    }

    /** The entry is appended to the node list. */
    method Append(name: K)
      requires Valid() && Listed() && name in infos
      modifies this`nodeInfoList, this`names
      ensures Valid() && Listed() && names == old(names) + [name]
    {
      nodeInfoList := nodeInfoList + [nodeInfoMap[name]];
      names := names + [name];
    }

    method AppendAffinity(cell: InfoCell<K, V>, ghost name: K)
      requires Valid() && Listed() && name in infos && cell == nodeInfoMap[name]
      modifies this`affinityList, this`affinityNames
      ensures Valid() && Listed() && affinityNames == old(affinityNames) + [name]
    {
      affinityList := affinityList + [cell];
      affinityNames := affinityNames + [name];
    }

    /** removeDeletedNodesFromSnapshot: the order in which the map yields its keys is not
        determined, and the method reports the names it deleted. */
    method RemoveDeletedNodes(cached: set<K>) returns (ghost deleted: set<K>)
      requires Valid()
      modifies this`nodeInfoMap, this`infos
      ensures Valid()
      ensures infos == old(infos) - deleted && deleted <= old(infos).Keys - cached
      ensures |deleted| == if |old(infos)| > |cached| then |old(infos)| - |cached| else 0
    {
      var toDelete, rest := |nodeInfoMap| - |cached|, nodeInfoMap.Keys;
      ghost var all := rest;
      deleted := {};
      assert |old(infos)| == |all|;
      while rest != {} && toDelete > 0
        invariant Valid()
        invariant infos == old(infos) - deleted && deleted <= all - cached
        invariant all - cached - deleted <= rest <= all - deleted
        invariant |deleted| + toDelete == |all| - |cached| && (deleted != {} ==> toDelete >= 0)
        decreases rest
      {
        var name :| name in rest;
        rest := rest - {name};
        if name !in cached {
          Drop(name);
          MinusTwice(old(infos), deleted, name);
          deleted := deleted + {name};
          toDelete := toDelete - 1;
        }
      }
      if toDelete > 0 {
        NoneLeft(all, cached, deleted);
      }
    }
  }

  lemma MinusTwice<K, V>(m: map<K, V>, a: set<K>, x: K)
    ensures m - a - {x} == m - (a + {x})
  {
  }

  lemma NoneLeft<K>(all: set<K>, cached: set<K>, deleted: set<K>)
    requires deleted <= all && all - cached <= deleted
    ensures |all| - |deleted| <= |cached|
  {
    assert |all - deleted| == |all| - |deleted|;
    assert |cached - (all - deleted)| == |cached| - |all - deleted|;
  }
}
