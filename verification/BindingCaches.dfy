/** Binding decisions per pod and node
    (pkg/controller/volume/scheduling/scheduler_binder_cache.go). */
module BindingCaches {
  import opened Api
  import opened VolumeMatching

  /** A nil slice is absent, which is not the same as an empty one. */
  datatype Decision = Decision(bindings: Option<seq<Binding>>, provisionings: Option<seq<PVC>>)

  type Decisions = map<string, map<string, Decision>>

  // ---- the operations on values ----

  function NodeDecisions(d: Decisions, pod: string): map<string, Decision> { if pod in d then d[pod] else map[] }

  function Updated(d: Decisions, pod: string, node: string, decision: Decision): Decisions {
    d[pod := NodeDecisions(d, pod)[node := decision]]
  }

  /** Clearing leaves the entry of the pod, if it has one, in place. */
  function Cleared(d: Decisions, pod: string, node: string): Decisions {
    if pod in d then d[pod := d[pod] - {node}] else d
  }

  function Lookup(d: Decisions, pod: string, node: string): Decision {
    if pod in d && node in d[pod] then d[pod][node] else Decision(None, None)
  }

  /** A decision is read back as it was written, and no other one is touched. */
  lemma LookupUpdated(d: Decisions, pod: string, node: string, decision: Decision, p: string, n: string)
    ensures Lookup(Updated(d, pod, node, decision), p, n) == if (p, n) == (pod, node) then decision else Lookup(d, p, n)
  {
  }

  lemma LookupCleared(d: Decisions, pod: string, node: string, p: string, n: string)
    ensures Lookup(Cleared(d, pod, node), p, n) ==
      if (p, n) == (pod, node) then Decision(None, None) else Lookup(d, p, n)
  {
  }

  // ---- the object ----

  class PodBindingCache {
    var bindingDecisions: Decisions

    constructor ()
      ensures bindingDecisions == map[]
    {
      bindingDecisions := map[];
    }

    method UpdateBindings(pod: string, node: string, bindings: Option<seq<Binding>>, pvcs: Option<seq<PVC>>)
      modifies this
      ensures bindingDecisions == Updated(old(bindingDecisions), pod, node, Decision(bindings, pvcs))
    {
      var decisions := if pod in bindingDecisions then bindingDecisions[pod] else map[];
      decisions := decisions[node := Decision(bindings, pvcs)];
      bindingDecisions := bindingDecisions[pod := decisions];
    }

    method ClearBindings(pod: string, node: string)
      modifies this
      ensures bindingDecisions == Cleared(old(bindingDecisions), pod, node)
    {
      if pod in bindingDecisions {
        bindingDecisions := bindingDecisions[pod := bindingDecisions[pod] - {node}];
      }
    }

    method DeleteBindings(pod: string)
      modifies this
      ensures bindingDecisions == old(bindingDecisions) - {pod}
    {
      bindingDecisions := bindingDecisions - {pod};
    }

    method GetBindings(pod: string, node: string) returns (bindings: Option<seq<Binding>>)
      ensures bindings == Lookup(bindingDecisions, pod, node).bindings
    {
      if pod !in bindingDecisions || node !in bindingDecisions[pod] {
        return None;
      }
      bindings := bindingDecisions[pod][node].bindings;
    }

    method GetProvisionedPVCs(pod: string, node: string) returns (pvcs: Option<seq<PVC>>)
      ensures pvcs == Lookup(bindingDecisions, pod, node).provisionings
    {
      if pod !in bindingDecisions || node !in bindingDecisions[pod] {
        return None;
      }
      pvcs := bindingDecisions[pod][node].provisionings;
    }
  }
}
