/** When a whole cleanup crashes (internal/cache/cache.go, framework/v1alpha1/types.go). */
module CacheCleanups {
  import opened Api
  import opened NodeInfos
  import opened Sequences
  import opened CacheModel
  import opened CacheInvariants
  import opened CacheConservation

  /** The swap-deletion of one pod leaves the keys of the others. */
  lemma SwapKeepsKeys(pods: seq<Pod>, i: nat, k: string)
    requires i < |pods| && pods[i].uid != k
    ensures Holds(SwapDelete(pods, i), k) <==> Holds(pods, k)
  {
    var w, last := SwapDelete(pods, i), |pods| - 1;
    if Holds(pods, k) {
      var j :| 0 <= j < |pods| && pods[j].uid == k;
      assert w[if j == last then i else j].uid == k;
    }
    if Holds(w, k) {
      var j :| 0 <= j < |w| && w[j].uid == k;
      assert pods[if j == i then last else j].uid == k;
    }
  }

  /** A removal leaves the node of an entry alone, and the other pods it holds. */
  lemma RemovalKeepsOthers(s: CacheState, pod: Pod, k: string, n: string)
    requires Conserving(s) && k != pod.uid && n in s.nodes
    ensures var t := PodRemoved(s, pod).0;
            t.nodes.Keys == s.nodes.Keys && t.nodes[n].node == s.nodes[n].node &&
            (Holds(t.nodes[n].pods, k) <==> Holds(s.nodes[n].pods, k))
  {
    var m := pod.nodeName;
    if m in s.nodes {
      var v, w := s.nodes[m], RemovePodFrom(s.nodes[m], pod, s.generation + 1);
      RemoveKeepsNode(v, pod, s.generation + 1);
      if RemoveOutcomeOf(v, pod).Removed? {
        SwapKeepsKeys(v.pods, Position(v.pods, pod.uid, 0), k);
        TakenIsTouch(s, pod, w);
      } else {
        PodRemovedFails(s, pod);
      }
    }
  }

  lemma OthersStayDoomed(s: CacheState, t: CacheState, now: int, k: string)
    requires Machine(s) && Machine(t)
    requires (k in t.assumedPods <==> k in s.assumedPods)
    requires k in s.podStates ==> k in t.podStates && t.podStates[k] == s.podStates[k]
    requires k in s.podStates && s.podStates[k].pod.nodeName in s.nodes ==>
      var n, uid := s.podStates[k].pod.nodeName, s.podStates[k].pod.uid;
      n in t.nodes && t.nodes[n].node == s.nodes[n].node &&
      (Holds(t.nodes[n].pods, uid) <==> Holds(s.nodes[n].pods, uid))
    requires t.nodes.Keys == s.nodes.Keys
    ensures Doomed(t, k, now) <==> Doomed(s, k, now)
  {
  }

  lemma ExpireMachine(s: CacheState, key: string, now: int)
    requires Machine(s)
    ensures Machine(Expire(s, key, now).0)
  {
    if key in s.podStates {
      PodRemovedKeepsStates(s, s.podStates[key].pod);
    }
  }

  /** A turn that does not crash leaves every other assumed pod as well or badly off as it
      was, and its own pod is not one to crash at. */
  lemma ExpireKeepsDoomed(s: CacheState, key: string, now: int, k: string)
    requires Machine(s) && Conserving(s) && !Expire(s, key, now).1.Crashed?
    ensures Machine(Expire(s, key, now).0)
    ensures Doomed(Expire(s, key, now).0, k, now) <==> Doomed(s, k, now)
  {
    ExpireCrashesIff(s, key, now);
    ExpireMachine(s, key, now);
    var t := Expire(s, key, now).0;
    if key in s.podStates {
      var held := s.podStates[key].pod;
      PodRemovedKeepsStates(s, held);
      if k == key {
        if !PodRemoved(s, held).1.Ok? {
          PodRemovedConserving(s, held);
        }
      } else {
        if k in s.podStates && s.podStates[k].pod.nodeName in s.nodes {
          RemovalKeepsOthers(s, held, k, s.podStates[k].pod.nodeName);
        }
        OthersStayDoomed(s, t, now, k);
      }
    }
  }

  /** A cleanup crashes if and only if it visits a doomed pod. */
  lemma {:induction false} CleanupCrashesAt(s: CacheState, now: int, keys: seq<string>, n: nat)
    requires Machine(s) && Conserving(s) && n <= |keys|
    ensures Cleanup(s, now, keys, n).1.Crashed? <==> exists i :: 0 <= i < n && Doomed(s, keys[i], now)
    ensures !Cleanup(s, now, keys, n).1.Crashed? ==>
      var t := Cleanup(s, now, keys, n).0;
      Machine(t) && Conserving(t) && forall k :: Doomed(t, k, now) <==> Doomed(s, k, now)
  {
    if n > 0 {
      CleanupCrashesAt(s, now, keys, n - 1);
      var (t, r) := Cleanup(s, now, keys, n - 1);
      if !r.Crashed? {
        ExpireCrashesIff(t, keys[n - 1], now);
        if !Expire(t, keys[n - 1], now).1.Crashed? {
          ExpireConserving(t, keys[n - 1], now);
          forall k
            ensures Machine(Expire(t, keys[n - 1], now).0)
            ensures Doomed(Expire(t, keys[n - 1], now).0, k, now) <==> Doomed(s, k, now)
          {
            ExpireKeepsDoomed(t, keys[n - 1], now, k);
          }
        }
      }
    }
  }

  /** Whatever the order in which the map yields the assumed keys, the cleanup crashes if and
      only if some assumed pod is due and its entry is an orphan that does not hold it. */
  lemma CleanupCrashesIff(s: CacheState, now: int, visit: seq<string>)
    requires Machine(s) && Conserving(s)
    requires !Cleanup(s, now, visit, |visit|).1.Crashed? ==> forall k :: k in visit <==> k in s.assumedPods
    ensures Cleanup(s, now, visit, |visit|).1.Crashed? <==> exists k :: k in s.assumedPods && Doomed(s, k, now)
  {
    CleanupCrashesAt(s, now, visit, |visit|);
    if !Cleanup(s, now, visit, |visit|).1.Crashed? {
      forall k | k in s.assumedPods
        ensures !Doomed(s, k, now)
      {
        var i :| 0 <= i < |visit| && visit[i] == k;
      }
    }
  }
}
