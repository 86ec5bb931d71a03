/** The node entries of the cache: the map of list items by name together with the list
    through them. K is the type of node names, V that of the entries. */
module CacheEntries {
  import opened Sequences
  import opened CacheLists

  class NodeEntries<K(==, !new), V(!new)> {
    var nodes: map<K, NodeInfoListItem<K, V>>
    const list: NodeInfoList<K, V>
    /** the entries by name, and the names in list order */
    ghost var views: map<K, V>
    ghost var order: seq<K>
    /** every item the map has held */
    ghost var held: set<NodeInfoListItem<K, V>>

    constructor ()
      ensures Valid() && views == map[] && order == [] && held == {} && fresh(list)
    {
      nodes := map[];
      list := new NodeInfoList();
      views, order, held := map[], [], {};
    }

    ghost predicate Valued()
      reads this, held
    {
      && nodes.Keys == views.Keys
      && forall n :: n in nodes ==> nodes[n] in held && nodes[n].info == views[n]
    }

    /** Every entry has its own item; the list spells out the order, and an item not yet
        on it has no neighbours. */
    ghost predicate Threaded()
      reads this, list, list.items, held
    {
      && list.Linked() && Match(nodes, order, list.items)
      && (forall n :: n in nodes ==> nodes[n] in held && nodes[n].name == n)
      && (forall n :: n in nodes && n !in order ==> nodes[n].next == null && nodes[n].prev == null)
    }

    ghost predicate Valid()
      reads this, list, list.items, held
    {
      Valued() && Threaded()
    }

    /** A new entry, not yet on the list. */
    method Create(name: K, v: V)
      requires Valid() && name !in nodes
      modifies this
      ensures Valid() && fresh(held - old(held)) && name in nodes
      ensures views == old(views)[name := v] && order == old(order)
    {
      var n := new NodeInfoListItem(v, name);
      nodes, held := nodes[name := n], held + {n};
      views := views[name := v];
    }

    /** An edit in place. */
    method Edit(name: K, v: V)
      requires Valid() && name in nodes
      modifies this`views, held`info
      ensures Valid() && views == old(views)[name := v]
    {
      nodes[name].info := v;
      views := views[name := v];
    }

    /** moveNodeInfoToHead. */
    method MoveNodeInfoToHead(name: K)
      requires Valid() && name in nodes
      modifies this`order, list, held`next, held`prev
      ensures Valid() && order == ToFront(old(order), name)
    {
      ghost var w := ToFront(order, name);
      MatchToFront(nodes, order, list.items, name);
      OffFront(nodes, order, list.items, name);
      list.MoveToHead(nodes[name]);
      order := w;
    }

    /** An entry, new or not, takes a new value and moves to the head. */
    method Put(name: K, v: V)
      requires Valid()
      modifies this, list, held
      ensures Valid() && fresh(held - old(held)) && (name in old(nodes) ==> nodes == old(nodes) && held == old(held))
      ensures views == old(views)[name := v] && order == ToFront(old(order), name)
    {
      if name in nodes {
        Edit(name, v);
      } else {
        Create(name, v);
      }
      MoveNodeInfoToHead(name);
    }

    /** removeNodeInfoFromList. */
    method RemoveNodeInfoFromList(name: K)
      requires Valid() && name in order && NoDuplicates(order)
      modifies this, list, held`next, held`prev
      ensures Valid() && held == old(held)
      ensures views == old(views) - {name} && order == Without(old(order), name)
    {
      ghost var w := Without(order, name);
      MatchRemoved(nodes, order, list.items, name);
      list.Remove(nodes[name]);
      ghost var rest := nodes - {name};
      forall n | n in rest && n !in w
        ensures rest[n].next == null && rest[n].prev == null
      {
        OffList(nodes, order, old(list.items), name, n);
      }
      nodes := nodes - {name};
      views := views - {name};
      order := w;
    }
  }

  /** The item that the list has at place i, null behind its end. */
  ghost function ItemAt<K, V>(items: seq<NodeInfoListItem<K, V>>, i: nat): NodeInfoListItem?<K, V> {
    if i < |items| then items[i] else null
  }

  /** Following the pointers from place i. */
  lemma ItemIs<K(!new), V(!new)>(entries: NodeEntries<K, V>, i: nat)
    requires entries.Valid() && i < |entries.order|
    ensures |entries.list.items| == |entries.order| && entries.order[i] in entries.views
    ensures entries.list.items[i].info == entries.views[entries.order[i]]
    ensures entries.list.items[i].next == ItemAt(entries.list.items, i + 1)
  {
    assert Pair(i, i + 1);
  }

  /** The items are those of the names, in order. */
  ghost predicate Match<K, V>(nodes: map<K, NodeInfoListItem<K, V>>, order: seq<K>,
          items: seq<NodeInfoListItem<K, V>>)
  {
    && |items| == |order|
    && forall i :: 0 <= i < |order| ==> order[i] in nodes && items[i] == nodes[order[i]] && items[i].name == order[i]
  }

  lemma MatchWithout<K, V>(nodes: map<K, NodeInfoListItem<K, V>>, order: seq<K>, items: seq<NodeInfoListItem<K, V>>,
          name: K)
    requires Match(nodes, order, items) && name in nodes && nodes[name].name == name
    ensures Match(nodes, Without(order, name), Without(items, nodes[name]))
  {
    var i, j := IndexOf(items, nodes[name], 0), IndexOf(order, name, 0);
    assert i == j by {
      assert i < |items| ==> order[i] == name;
    }
  }

  lemma MatchToFront<K, V>(nodes: map<K, NodeInfoListItem<K, V>>, order: seq<K>, items: seq<NodeInfoListItem<K, V>>,
          name: K)
    requires Match(nodes, order, items) && name in nodes && nodes[name].name == name
    ensures Match(nodes, ToFront(order, name), ToFront(items, nodes[name]))
    ensures nodes[name] in items ==> name in order
  {
    MatchWithout(nodes, order, items, name);
  }

  lemma MatchRemoved<K, V>(nodes: map<K, NodeInfoListItem<K, V>>, order: seq<K>, items: seq<NodeInfoListItem<K, V>>,
          name: K)
    requires Match(nodes, order, items) && name in order && nodes[name].name == name && NoDuplicates(order)
    ensures Match(nodes - {name}, Without(order, name), Without(items, nodes[name]))
    ensures nodes[name] in items
  {
    MatchWithout(nodes, order, items, name);
    WithoutRemoves(order, name);
    var w := Without(order, name);
    assert forall i :: 0 <= i < |w| ==> w[i] in w;
  }

  /** A name that is not on the list even apart from `name`. */
  lemma OffList<K, V>(nodes: map<K, NodeInfoListItem<K, V>>, order: seq<K>, items: seq<NodeInfoListItem<K, V>>,
          name: K, n: K)
    requires Match(nodes, order, items) && n in nodes && nodes[n].name == n && n != name && n !in Without(order, name)
    ensures n !in order && nodes[n] !in items
  {
    WithoutKeeps(order, name, n);
  }

  lemma WithoutKeeps<K>(order: seq<K>, name: K, n: K)
    ensures n in order && n != name ==> n in Without(order, name)
  {
    if n in order && n != name {
      var i :| 0 <= i < |order| && order[i] == n;
      var k := IndexOf(order, name, 0);
      assert Without(order, name)[if i < k then i else i - 1] == n;
    }
  }

  /** Names that are not on the list even after `name` moved to its front. */
  lemma OffFront<K, V>(nodes: map<K, NodeInfoListItem<K, V>>, order: seq<K>, items: seq<NodeInfoListItem<K, V>>,
          name: K)
    requires Match(nodes, order, items) && name in nodes
    requires forall n :: n in nodes ==> nodes[n].name == n
    ensures forall n :: n in nodes && n !in ToFront(order, name) ==>
      n !in order && n != name && nodes[n] !in items && nodes[n] != nodes[name]
  {
    forall n | n in nodes && n !in ToFront(order, name)
      ensures n !in order && n != name && nodes[n] !in items && nodes[n] != nodes[name]
    {
      assert ToFront(order, name)[0] == name;
      OffList(nodes, order, items, name, n);
    }
  }
}
