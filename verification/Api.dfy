/** The parts of the Kubernetes API objects that the scheduler reads, as values.
    A quantity is the integer the code asks it for: milli-units for CPU, plain
    units otherwise. */
module Api {
  datatype Option<+T> = None | Some(value: T)

  /** Resource names, split the way the name predicates of the helper package
      split them: an extended name and a prefixed native name (huge pages,
      attachable volumes) are both scalar; an unrecognized name is ignored. */
  datatype ResourceName =
    | Cpu
    | Memory
    | EphemeralStorage
    | Pods
    | Extended(name: string)
    | PrefixedNative(name: string)
    | Unrecognized(name: string)
  {
    predicate IsScalar() { Extended? || PrefixedNative? }
  }

  type ResourceList = map<ResourceName, int>

  datatype ContainerPort = ContainerPort(hostIP: string, protocol: string, hostPort: int)

  datatype Container = Container(requests: ResourceList, ports: seq<ContainerPort>)

  type Labels = map<string, string>

  /** One requirement of a label selector. */
  datatype Requirement =
    | In(key: string, values: set<string>)
    | NotIn(key: string, values: set<string>)
    | Exists(key: string)
    | DoesNotExist(key: string)
  {
    predicate Matches(labels: Labels) {
      match this
      case In(k, vs) => k in labels && labels[k] in vs
      case NotIn(k, vs) => k !in labels || labels[k] !in vs
      case Exists(k) => k in labels
      case DoesNotExist(k) => k !in labels
    }
  }

  /** A label selector as it stands in an object: absent, not convertible to a
      selector, or a conjunction of requirements. */
  datatype LabelSelector =
    | Absent
    | Malformed
    | Requirements(reqs: seq<Requirement>)
  {
    /** The converted selector: an absent one selects nothing, one without
        requirements selects everything. */
    predicate Matches(labels: Labels) {
      Requirements? && forall i | 0 <= i < |reqs| :: reqs[i].Matches(labels)
    }
  }

  /** A key with one of the values, or its negation; a key with any value, or its negation. */
  lemma RequirementIff(k: string, vs: set<string>, labels: Labels)
    ensures In(k, vs).Matches(labels) <==> exists v :: v in vs && (k, v) in labels.Items
    ensures NotIn(k, vs).Matches(labels) <==> !In(k, vs).Matches(labels)
    ensures Exists(k).Matches(labels) <==> k in labels.Keys
    ensures DoesNotExist(k).Matches(labels) <==> !Exists(k).Matches(labels)
  {
    if k in labels {
      assert (k, labels[k]) in labels.Items;
    }
  }

  /** A selector is the conjunction of its requirements. */
  lemma SelectorIff(a: seq<Requirement>, b: seq<Requirement>, labels: Labels)
    ensures Requirements([]).Matches(labels) && !Absent.Matches(labels) && !Malformed.Matches(labels)
    ensures Requirements(a + b).Matches(labels) <==>
            Requirements(a).Matches(labels) && Requirements(b).Matches(labels)
    ensures forall r: Requirement :: Requirements([r]).Matches(labels) <==> r.Matches(labels)
  {
    assert forall i :: 0 <= i < |a| ==> (a + b)[i] == a[i];
    forall i | 0 <= i < |b| && Requirements(a + b).Matches(labels)
      ensures b[i].Matches(labels)
    {
      assert (a + b)[|a| + i] == b[i];
    }
    forall r: Requirement
      ensures Requirements([r]).Matches(labels) <==> r.Matches(labels)
    {
      assert [r][0] == r;
    }
  }

  datatype AffinityTerm = AffinityTerm(namespaces: seq<string>, selector: LabelSelector, topologyKey: string)

  datatype WeightedTerm = WeightedTerm(weight: int, term: AffinityTerm)

  /** Pod affinity or pod anti-affinity: hard terms and soft terms. */
  datatype AffinityRules = AffinityRules(required: seq<AffinityTerm>, preferred: seq<WeightedTerm>)

  /** The affinity of a pod; `affinity == nil` in the source is both parts absent here,
      since every use tests the two parts. */
  datatype Affinity = Affinity(podAffinity: Option<AffinityRules>, podAntiAffinity: Option<AffinityRules>)

  datatype Pod = Pod(
    uid: string,
    name: string,
    namespace: string,
    nodeName: string,
    labels: Labels,
    containers: seq<Container>,
    initContainers: seq<Container>,
    overhead: ResourceList,
    affinity: Affinity)
  {
    predicate HasAffinity() { affinity.podAffinity.Some? || affinity.podAntiAffinity.Some? }
  }

  /** A node condition; `heartbeat` is the time of its last heartbeat in seconds. */
  datatype NodeCondition = NodeCondition(kind: string, heartbeat: int, reason: string, message: string)

  /** A node; `zone` is the failure-zone key that GetZoneKey derives from its labels. */
  datatype Node = Node(
    name: string,
    zone: string,
    labels: Labels,
    allocatable: ResourceList,
    conditions: seq<NodeCondition>)
}
