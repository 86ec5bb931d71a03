/** The doubly linked list through the node entries of the cache, most recently updated
    first (internal/cache/cache.go). K is the type of node names, V that of the entries. */
module CacheLists {
  import opened Sequences

  class NodeInfoListItem<K, V> {
    var info: V
    /** the name the item is filed under */
    ghost const name: K
    var next: NodeInfoListItem?<K, V>
    var prev: NodeInfoListItem?<K, V>

    constructor (info: V, ghost name: K)
      ensures this.info == info && this.name == name && next == null && prev == null
    {
      this.info := info;
      this.name := name;
      next, prev := null, null;
    }

    /** The two pointer updates that take an item out: its neighbours are joined. */
    method Unlink(ghost list: seq<NodeInfoListItem<K, V>>, ghost k: nat)
      requires Chained(list) && k < |list| && list[k] == this
      modifies list`next, list`prev
      ensures Chained(Cut(list, k)) && next == old(next) && prev == old(prev)
    {
      assert Pair(k - 1, k) && Pair(k, k + 1) && Pair(k - 1, k + 1);
      ChainedNoDuplicates(list);
      if prev != null {
        prev.next := next;
      }
      if next != null {
        next.prev := prev;
      }
      ghost var w := Cut(list, k);
      forall i, j | Pair(i, j) && 0 <= i < j < |w|
        ensures w[i] != w[j] && (j == i + 1 ==> w[i].next == w[j] && w[j].prev == w[i])
      {
        ghost var a, b := if i < k then i else i + 1, if j < k then j else j + 1;
        assert Pair(a, b) && w[i] == list[a] && w[j] == list[b];
      }
    }

    /** The item goes in front of the list. */
    method LinkFirst(headNode: NodeInfoListItem?<K, V>, ghost list: seq<NodeInfoListItem<K, V>>)
      requires Chained(list) && this !in list && headNode == Head(list)
      modifies this`next, this`prev, list`next, list`prev
      ensures Chained([this] + list)
    {
      if headNode != null {
        headNode.prev := this;
      }
      next := headNode;
      prev := null;
      ghost var f := [this] + list;
      forall i, j | Pair(i, j) && 0 <= i < j < |f|
        ensures f[i] != f[j] && (j == i + 1 ==> f[i].next == f[j] && f[j].prev == f[i])
      {
        assert Pair(i - 1, j - 1) && Pair(0, j - 1) && f[j] == list[j - 1];
      }
    }
  }

  class NodeInfoList<K, V> {
    /** the most recently updated entry */
    var headNode: NodeInfoListItem?<K, V>
    /** the items on the list from the head on */
    ghost var items: seq<NodeInfoListItem<K, V>>

    constructor ()
      ensures items == [] && Linked()
    {
      headNode, items := null, [];
    }

    /** headNode, next and prev spell out the items, each once. */
    ghost predicate Linked()
      reads this, items
    {
      Chained(items) && headNode == Head(items)
    }

    /** moveNodeInfoToHead: an item not yet on the list has no neighbours. */
    method MoveToHead(ni: NodeInfoListItem<K, V>)
      requires Linked() && (ni !in items ==> ni.next == null && ni.prev == null)
      modifies this, ni`next, ni`prev, items`next, items`prev
      ensures Linked() && items == ToFront(old(items), ni)
    {
      if ni == headNode {
        return;
      }
      Detach(ni);
      Prepend(ni, Without(items, ni));
    }

    method Detach(ni: NodeInfoListItem<K, V>)
      requires Linked() && (ni !in items ==> ni.next == null && ni.prev == null) && ni != headNode
      modifies ni`next, ni`prev, items`next, items`prev
      ensures Chained(Without(items, ni)) && ni !in Without(items, ni)
      ensures headNode == Head(Without(items, ni))
    {
      ChainedNoDuplicates(items);
      WithoutRemoves(items, ni);
      ghost var list := if ni in items then items else [ni];
      ghost var i := IndexOf(list, ni, 0);
      ghost var rest := Without(items, ni);
      assert ni in items ==> Cut(list, i) == rest;
      assert ni !in items ==> rest == items;
      ni.Unlink(list, i);
    }

    method Prepend(ni: NodeInfoListItem<K, V>, ghost rest: seq<NodeInfoListItem<K, V>>)
      requires Chained(rest) && headNode == Head(rest) && ni !in rest
      modifies this, ni`next, ni`prev, rest`next, rest`prev
      ensures Linked() && items == [ni] + rest
    {
      ni.LinkFirst(headNode, rest);
      headNode := ni;
      items := [ni] + rest;
    }

    /** removeNodeInfoFromList, apart from the entry of the node map. */
    method Remove(ni: NodeInfoListItem<K, V>)
      requires Linked() && ni in items
      modifies this, items`next, items`prev
      ensures Linked() && items == Without(old(items), ni)
    {
      ghost var k := IndexOf(items, ni, 0);
      assert Pair(0, 1) && Pair(0, k);
      ni.Unlink(items, k);
      if ni == headNode {
        headNode := ni.next;
      }
      items := Cut(items, k);
    }
  }

  function Cut<T>(s: seq<T>, k: nat): seq<T>
    requires k < |s|
  {
    s[..k] + s[k + 1..]
  }

  ghost function Head<K, V>(list: seq<NodeInfoListItem<K, V>>): NodeInfoListItem?<K, V> {
    if list == [] then null else list[0]
  }

  /** Marks the pairs of places at which what Chained says is used. */
  ghost predicate Pair(i: int, j: int) { true }

  /** next and prev are inverse along the list and end at both ends, and no item is on it
      twice. */
  ghost predicate Chained<K, V>(list: seq<NodeInfoListItem<K, V>>)
    reads list
  {
    && (forall i, j {:trigger Pair(i, j)} :: Pair(i, j) && 0 <= i < j < |list| ==> list[i] != list[j])
    && (forall i, j {:trigger Pair(i, j)} :: Pair(i, j) && 0 <= i && j == i + 1 < |list| ==>
          list[i].next == list[j] && list[j].prev == list[i])
    && (list != [] ==> list[0].prev == null && list[|list| - 1].next == null)
  }

  lemma ChainedNoDuplicates<K, V>(list: seq<NodeInfoListItem<K, V>>)
    requires Chained(list)
    ensures NoDuplicates(list)
  {
    forall i, j | 0 <= i < j < |list|
      ensures list[i] != list[j]
    {
      assert Pair(i, j);
    }
  }
}
