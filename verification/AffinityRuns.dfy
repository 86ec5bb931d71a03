/** The inter-pod affinity plugin on the snapshots of a run of the cache
    (framework/plugins/interpodaffinity with internal/cache). */
module AffinityRuns {
  import opened Api
  import opened NodeInfos
  import opened Sequences
  import opened CacheModel
  import opened CacheConservation
  import opened Snapshots
  import opened SnapshotRuns
  import opened SnapshotLists
  import opened AffinityFilter
  import opened AffinityRefinement
  import AffinityScoring
  import Scores

  /** The entries that a list of a snapshot points to. */
  function Entries(infos: map<string, NodeView>, names: seq<string>): (r: seq<NodeView>)
    requires forall n :: n in names ==> n in infos
    ensures |r| == |names| && forall i :: 0 <= i < |names| ==> r[i] == infos[names[i]]
  {
    seq(|names|, i requires 0 <= i < |names| => infos[names[i]])
  }

  function HasAffinity(): NodeView -> bool { (v: NodeView) => |v.podsWithAffinity| > 0 }

  lemma {:induction false} WithAffinityInside(infos: map<string, NodeView>, names: seq<string>, k: nat)
    requires k <= |names|
    ensures forall n :: n in WithAffinity(infos, names, k) ==> n in infos
  {
    if k > 0 {
      WithAffinityInside(infos, names, k - 1);
    }
  }

  lemma EntriesAppend(infos: map<string, NodeView>, names: seq<string>, n: string)
    requires (forall m :: m in names ==> m in infos) && n in infos
    ensures forall m :: m in names + [n] ==> m in infos
    ensures Entries(infos, names + [n]) == Entries(infos, names) + [infos[n]]
  {
  }

  /** The affinity list points to the entries of the node list that have affinity pods, in
      order. */
  lemma {:induction false} AffinityEntries(infos: map<string, NodeView>, names: seq<string>, k: nat)
    requires k <= |names| && forall n :: n in names ==> n in infos
    ensures forall n :: n in WithAffinity(infos, names, k) ==> n in infos
    ensures Entries(infos, WithAffinity(infos, names, k)) == Sequences.Filter(HasAffinity(), Entries(infos, names), k)
  {
    WithAffinityInside(infos, names, k);
    if k > 0 {
      AffinityEntries(infos, names, k - 1);
      if HasAffinityPods(infos[names[k - 1]]) {
        EntriesAppend(infos, WithAffinity(infos, names, k - 1), names[k - 1]);
      }
    }
  }

  // ---- a snapshot that equals the cache ----

  lemma EqualsListed(s: CacheState, p: SnapState)
    requires Equals(s, p)
    ensures forall n :: n in p.list <==> n in p.infos
    ensures forall n :: n in p.affinityList ==> n in p.infos
  {
    assert forall n :: n in p.list <==> n in (set m | m in p.list);
    WithAffinityInside(p.infos, p.list, |p.list|);
  }

  /** The entries with affinity pods, out of a list of entries in order. */
  lemma FilteredAgree(all: seq<NodeView>)
    requires forall v :: v in all ==> AffinitySubset(v)
    ensures ListsAgree(all, Sequences.Filter(HasAffinity(), all, |all|))
  {
    forall v
      ensures v in Sequences.Filter(HasAffinity(), all, |all|) <==> v in all && |v.podsWithAffinity| > 0
    {
      InFilter(HasAffinity(), all, |all|, v);
      assert all[..|all|] == all;
    }
  }

  lemma EntriesConserved(s: CacheState, names: seq<string>)
    requires Conserving(s) && forall n :: n in names ==> n in s.nodes
    ensures forall v :: v in Entries(s.nodes, names) ==> AffinitySubset(v)
  {
    forall v | v in Entries(s.nodes, names)
      ensures AffinitySubset(v)
    {
      var i :| 0 <= i < |names| && Entries(s.nodes, names)[i] == v;
      assert EntryOk(names[i], s.nodes[names[i]], s.podStates);
    }
  }

  /** Its two lists are what the plugin takes them for. */
  lemma SnapshotAgrees(s: CacheState, p: SnapState)
    requires Equals(s, p) && Conserving(s)
    ensures (forall n :: n in p.list ==> n in p.infos) && forall n :: n in p.affinityList ==> n in p.infos
    ensures Entries(p.infos, p.affinityList) == Sequences.Filter(HasAffinity(), Entries(p.infos, p.list), |p.list|)
    ensures ListsAgree(Entries(p.infos, p.list), Entries(p.infos, p.affinityList))
  {
    EqualsListed(s, p);
    AffinityEntries(p.infos, p.list, |p.list|);
    EntriesConserved(s, p.list);
    FilteredAgree(Entries(p.infos, p.list));
  }

  /** In every orderly run the verdict that the plugin gives on the snapshot of an update is
      that of the definition over all pods of the cache. */
  lemma EveryVerdictIsBruteForce(events: seq<Event>, n: nat, ttl: int, incoming: Pod, node: Node)
    requires 0 < n <= |events| && AllOrderly(events, n, ttl) && events[n - 1].SnapshotTaken?
    ensures var p := SystemRun(events, n, ttl).snap;
            && p.infos == SystemRun(events, n, ttl).cache.nodes
            && (forall m :: m in p.list <==> m in p.infos) && (forall m :: m in p.affinityList ==> m in p.infos)
            && var all, some := Entries(p.infos, p.list), Entries(p.infos, p.affinityList);
               PreFilterOf(incoming, all, some).Some? ==>
                 VerdictOf(PreFilterOf(incoming, all, some).value, incoming, node) == BruteForce(all, incoming, node)
  {
    EveryUpdateIsExact(events, n, ttl);
    RunExact(events, n, ttl);
    VerdictOnSnapshot(SystemRun(events, n, ttl).cache, SystemRun(events, n, ttl).snap, incoming, node);
  }

  lemma VerdictOnSnapshot(s: CacheState, p: SnapState, incoming: Pod, node: Node)
    requires Equals(s, p) && Conserving(s)
    ensures (forall m :: m in p.list <==> m in p.infos) && (forall m :: m in p.affinityList ==> m in p.infos)
    ensures var all, some := Entries(p.infos, p.list), Entries(p.infos, p.affinityList);
            PreFilterOf(incoming, all, some).Some? ==>
              VerdictOf(PreFilterOf(incoming, all, some).value, incoming, node) == BruteForce(all, incoming, node)
  {
    EqualsListed(s, p);
    SnapshotAgrees(s, p);
    var all, some := Entries(p.infos, p.list), Entries(p.infos, p.affinityList);
    if PreFilterOf(incoming, all, some).Some? {
      FilterIsBruteForce(all, some, incoming, node);
    }
  }

  /** And what it records in PreScore scores as the definition does. */
  lemma ScoreOnSnapshot(s: CacheState, p: SnapState, incoming: Pod, scored: Node, hardWeight: int,
          es: seq<Scores.Entry>)
    requires Equals(s, p) && Conserving(s)
    ensures (forall m :: m in p.list <==> m in p.infos) && (forall m :: m in p.affinityList ==> m in p.infos)
    ensures var all, some := Entries(p.infos, p.list), Entries(p.infos, p.affinityList);
            var nodes := AffinityScoring.NodesToProcess(incoming, all, some);
            multiset(es) == multiset(AffinityScoring.NodesEntries(incoming, nodes, hardWeight, |nodes|)) ==>
              Sum(Scores.OnLabels(scored.labels), es, |es|)
                == AffinityScoring.BruteForceScore(incoming, all, scored, hardWeight)
  {
    EqualsListed(s, p);
    SnapshotAgrees(s, p);
    var all, some := Entries(p.infos, p.list), Entries(p.infos, p.affinityList);
    var nodes := AffinityScoring.NodesToProcess(incoming, all, some);
    SameFilter(all, |all|);
    if multiset(es) == multiset(AffinityScoring.NodesEntries(incoming, nodes, hardWeight, |nodes|)) {
      AffinityScoring.ScoreIsBruteForce(incoming, all, scored, hardWeight, es);
    }
  }

  lemma {:induction false} SameFilter(nodes: seq<NodeView>, n: nat)
    requires n <= |nodes|
    ensures Sequences.Filter((v: NodeView) => |v.podsWithAffinity| > 0, nodes, n)
      == Sequences.Filter(HasAffinity(), nodes, n)
  {
    if n > 0 {
      SameFilter(nodes, n - 1);
    }
  }

  lemma EveryScoreIsBruteForce(events: seq<Event>, n: nat, ttl: int, incoming: Pod, scored: Node, hardWeight: int,
          es: seq<Scores.Entry>)
    requires 0 < n <= |events| && AllOrderly(events, n, ttl) && events[n - 1].SnapshotTaken?
    ensures var p := SystemRun(events, n, ttl).snap;
            && p.infos == SystemRun(events, n, ttl).cache.nodes
            && (forall m :: m in p.list <==> m in p.infos) && (forall m :: m in p.affinityList ==> m in p.infos)
            && var all, some := Entries(p.infos, p.list), Entries(p.infos, p.affinityList);
               var nodes := AffinityScoring.NodesToProcess(incoming, all, some);
               multiset(es) == multiset(AffinityScoring.NodesEntries(incoming, nodes, hardWeight, |nodes|)) ==>
                 Sum(Scores.OnLabels(scored.labels), es, |es|)
                   == AffinityScoring.BruteForceScore(incoming, all, scored, hardWeight)
  {
    EveryUpdateIsExact(events, n, ttl);
    RunExact(events, n, ttl);
    ScoreOnSnapshot(SystemRun(events, n, ttl).cache, SystemRun(events, n, ttl).snap, incoming, scored, hardWeight, es);
  }
}
