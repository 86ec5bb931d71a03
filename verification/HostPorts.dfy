/** Host ports in use on a node (framework/v1alpha1/types.go HostPortInfo,
    framework/plugins/nodeports/node_ports.go). */
module HostPorts {
  import opened Api

  datatype ProtocolPort = ProtocolPort(protocol: string, port: int)

  /** From ip to the protocol-port pairs taken on it. */
  type HostPortInfo = map<string, set<ProtocolPort>>

  type PortKey = (string, ProtocolPort)

  const BIND_ALL := "0.0.0.0"

  function SanitizedIP(ip: string): string { if |ip| == 0 then BIND_ALL else ip }

  function SanitizedProtocol(protocol: string): string { if |protocol| == 0 then "TCP" else protocol }

  function KeyOf(p: ContainerPort): PortKey {
    (SanitizedIP(p.hostIP), ProtocolPort(SanitizedProtocol(p.protocol), p.hostPort))
  }

  function AddPort(h: HostPortInfo, p: ContainerPort): HostPortInfo {
    if p.hostPort <= 0 then h
    else
      var (ip, pp) := KeyOf(p);
      if ip !in h then h[ip := {pp}] else h[ip := h[ip] + {pp}]
  }

  function RemovePort(h: HostPortInfo, p: ContainerPort): HostPortInfo {
    if p.hostPort <= 0 then h
    else
      var (ip, pp) := KeyOf(p);
      if ip !in h then h
      else
        var left := h[ip] - {pp};
        if left == {} then h - {ip} else h[ip := left]
  }

  function AddPorts(h: HostPortInfo, ps: seq<ContainerPort>, n: nat): HostPortInfo
    requires n <= |ps|
  {
    if n == 0 then h else AddPort(AddPorts(h, ps, n - 1), ps[n - 1])
  }

  function RemovePorts(h: HostPortInfo, ps: seq<ContainerPort>, n: nat): HostPortInfo
    requires n <= |ps|
  {
    if n == 0 then h else RemovePort(RemovePorts(h, ps, n - 1), ps[n - 1])
  }

  /** The ports of the first n containers added, in order. */
  function AddContainers(h: HostPortInfo, cs: seq<Container>, n: nat): HostPortInfo
    requires n <= |cs|
  {
    if n == 0 then h else AddPorts(AddContainers(h, cs, n - 1), cs[n - 1].ports, |cs[n - 1].ports|)
  }

  function RemoveContainers(h: HostPortInfo, cs: seq<Container>, n: nat): HostPortInfo
    requires n <= |cs|
  {
    if n == 0 then h else RemovePorts(RemoveContainers(h, cs, n - 1), cs[n - 1].ports, |cs[n - 1].ports|)
  }

  // ---- the meaning: a set of (ip, protocol, port) triples ----

  ghost function Taken(h: HostPortInfo): set<PortKey> {
    set ip, pp | ip in h && pp in h[ip] :: (ip, pp)
  }

  predicate NoEmptyIP(h: HostPortInfo) { forall ip :: ip in h ==> h[ip] != {} }

  ghost function KeysOfPorts(ps: seq<ContainerPort>, n: nat): set<PortKey>
    requires n <= |ps|
  {
    set i | 0 <= i < n && ps[i].hostPort > 0 :: KeyOf(ps[i])
  }

  ghost function KeysOfContainers(cs: seq<Container>, n: nat): set<PortKey>
    requires n <= |cs|
  {
    if n == 0 then {} else KeysOfContainers(cs, n - 1) + KeysOfPorts(cs[n - 1].ports, |cs[n - 1].ports|)
  }

  /** The host ports a pod asks for. */
  ghost function KeysOfPod(pod: Pod): set<PortKey> { KeysOfContainers(pod.containers, |pod.containers|) }

  /** An absent address stands for all of them, and an absent protocol for TCP. */
  lemma KeyOfIs(p: ContainerPort)
    ensures KeyOf(p).0 == (if p.hostIP == "" then "0.0.0.0" else p.hostIP)
    ensures KeyOf(p).1 == ProtocolPort(if p.protocol == "" then "TCP" else p.protocol, p.hostPort)
  {
  }

  lemma AddPortTaken(h: HostPortInfo, p: ContainerPort)
    requires NoEmptyIP(h)
    ensures NoEmptyIP(AddPort(h, p))
    ensures Taken(AddPort(h, p)) == Taken(h) + if p.hostPort > 0 then {KeyOf(p)} else {}
  {
  }

  lemma RemovePortTaken(h: HostPortInfo, p: ContainerPort)
    requires NoEmptyIP(h)
    ensures NoEmptyIP(RemovePort(h, p))
    ensures Taken(RemovePort(h, p)) == Taken(h) - if p.hostPort > 0 then {KeyOf(p)} else {}
  {
    if p.hostPort > 0 && KeyOf(p).0 in h {
      var (ip, pp) := KeyOf(p);
      forall t | t in Taken(h) - {(ip, pp)}
        ensures t in Taken(RemovePort(h, p))
      {
        assert t.0 == ip ==> t.1 in h[ip] - {pp};
      }
    }
  }

  /** Without empty addresses the taken ports determine the map. */
  lemma TakenDetermines(h: HostPortInfo, k: HostPortInfo)
    requires NoEmptyIP(h) && NoEmptyIP(k) && Taken(h) == Taken(k)
    ensures h == k
  {
    forall ip
      ensures ip in h <==> ip in k
      ensures ip in h && ip in k ==> h[ip] == k[ip]
    {
      assert forall pp :: (ip, pp) in Taken(h) <==> (ip, pp) in Taken(k);
      if ip in h {
        var pp :| pp in h[ip];
        assert (ip, pp) in Taken(h);
      }
      if ip in k {
        var pp :| pp in k[ip];
        assert (ip, pp) in Taken(k);
      }
    }
  }

  lemma KeysOfPortsStep(ps: seq<ContainerPort>, n: nat)
    requires 0 < n <= |ps|
    ensures KeysOfPorts(ps, n) == KeysOfPorts(ps, n - 1) + if ps[n - 1].hostPort > 0 then {KeyOf(ps[n - 1])} else {}
  {
  }

  lemma {:induction false} AddPortsTaken(h: HostPortInfo, ps: seq<ContainerPort>, n: nat)
    requires NoEmptyIP(h) && n <= |ps|
    ensures NoEmptyIP(AddPorts(h, ps, n))
    ensures Taken(AddPorts(h, ps, n)) == Taken(h) + KeysOfPorts(ps, n)
  {
    if n > 0 {
      AddPortsTaken(h, ps, n - 1);
      AddPortTaken(AddPorts(h, ps, n - 1), ps[n - 1]);
      KeysOfPortsStep(ps, n);
    }
  }

  lemma {:induction false} RemovePortsTaken(h: HostPortInfo, ps: seq<ContainerPort>, n: nat)
    requires NoEmptyIP(h) && n <= |ps|
    ensures NoEmptyIP(RemovePorts(h, ps, n))
    ensures Taken(RemovePorts(h, ps, n)) == Taken(h) - KeysOfPorts(ps, n)
  {
    if n > 0 {
      RemovePortsTaken(h, ps, n - 1);
      RemovePortTaken(RemovePorts(h, ps, n - 1), ps[n - 1]);
      KeysOfPortsStep(ps, n);
    }
  }

  lemma {:induction false} AddContainersTaken(h: HostPortInfo, cs: seq<Container>, n: nat)
    requires NoEmptyIP(h) && n <= |cs|
    ensures NoEmptyIP(AddContainers(h, cs, n))
    ensures Taken(AddContainers(h, cs, n)) == Taken(h) + KeysOfContainers(cs, n)
  {
    if n > 0 {
      AddContainersTaken(h, cs, n - 1);
      AddPortsTaken(AddContainers(h, cs, n - 1), cs[n - 1].ports, |cs[n - 1].ports|);
    }
  }

  lemma {:induction false} RemoveContainersTaken(h: HostPortInfo, cs: seq<Container>, n: nat)
    requires NoEmptyIP(h) && n <= |cs|
    ensures NoEmptyIP(RemoveContainers(h, cs, n))
    ensures Taken(RemoveContainers(h, cs, n)) == Taken(h) - KeysOfContainers(cs, n)
  {
    if n > 0 {
      RemoveContainersTaken(h, cs, n - 1);
      RemovePortsTaken(RemoveContainers(h, cs, n - 1), cs[n - 1].ports, |cs[n - 1].ports|);
    }
  }

  // ---- conflicts ----

  /** Two ports clash when they agree on protocol and port and either one is bound
      to every address or both to the same one. */
  predicate Clash(a: PortKey, b: PortKey) {
    a.1 == b.1 && (a.0 == b.0 || a.0 == BIND_ALL || b.0 == BIND_ALL)
  }

  /** The taken port has the number and the protocol of the wanted one, TCP if none is given,
      and one of them is for every address, as it is if none is given, or both are for one. */
  predicate InTheWay(p: ContainerPort, ip: string, pp: ProtocolPort) {
    && pp.port == p.hostPort && pp.protocol == (if p.protocol == "" then "TCP" else p.protocol)
    && (p.hostIP == "" || p.hostIP == "0.0.0.0" || ip == "0.0.0.0" || ip == p.hostIP)
  }

  /** The map lookups of the source: every ip for the wildcard, otherwise the wildcard
      ip and the ip itself. */
  method CheckConflict(h: HostPortInfo, p: ContainerPort) returns (conflict: bool)
    ensures conflict <==> p.hostPort > 0 && exists t :: t in Taken(h) && Clash(KeyOf(p), t)
    ensures conflict <==> p.hostPort > 0 && exists ip, pp :: ip in h && pp in h[ip] && InTheWay(p, ip, pp)
  {
    assert forall t :: Clash(KeyOf(p), t) <==> InTheWay(p, t.0, t.1);
    assert forall ip, pp :: ip in h && pp in h[ip] ==> (ip, pp) in Taken(h);
    if p.hostPort <= 0 {
      return false;
    }
    var (ip, pp) := KeyOf(p);
    if ip == BIND_ALL {
      var rest := h.Keys;
      while rest != {}
        invariant rest <= h.Keys
        invariant forall i :: i in h && i !in rest ==> pp !in h[i]
      {
        var i :| i in rest;
        if pp in h[i] {
          assert (i, pp) in Taken(h);
          return true;
        }
        rest := rest - {i};
      }
      return false;
    }
    if BIND_ALL in h && pp in h[BIND_ALL] {
      assert (BIND_ALL, pp) in Taken(h);
      return true;
    }
    if ip in h && pp in h[ip] {
      assert (ip, pp) in Taken(h);
      return true;
    }
    return false;
  }

  ghost predicate Conflicts(h: HostPortInfo, wanted: set<PortKey>) {
    exists w, t :: w in wanted && t in Taken(h) && Clash(w, t)
  }

  lemma {:induction false} InKeysOfContainers(cs: seq<Container>, n: nat, k: PortKey)
    requires n <= |cs|
    ensures k in KeysOfContainers(cs, n) <==>
            exists i, p :: 0 <= i < n && p in cs[i].ports && p.hostPort > 0 && KeyOf(p) == k
  {
    if n > 0 {
      InKeysOfContainers(cs, n - 1, k);
      var ps := cs[n - 1].ports;
      assert forall j :: 0 <= j < |ps| ==> ps[j] in ps;
    }
  }

  /** Some container of the pod asks for the port. */
  predicate AsksFor(pod: Pod, p: ContainerPort) {
    p.hostPort > 0 && exists i :: 0 <= i < |pod.containers| && p in pod.containers[i].ports
  }

  /** There is a conflict exactly if some container asks for a port that a taken one is in the
      way of. */
  lemma ConflictsIff(h: HostPortInfo, pod: Pod)
    ensures Conflicts(h, KeysOfPod(pod)) <==>
            exists p, ip, pp :: AsksFor(pod, p) && ip in h && pp in h[ip] && InTheWay(p, ip, pp)
  {
    var cs := pod.containers;
    if Conflicts(h, KeysOfPod(pod)) {
      var w, t :| w in KeysOfPod(pod) && t in Taken(h) && Clash(w, t);
      InKeysOfContainers(cs, |cs|, w);
      var i, p :| 0 <= i < |cs| && p in cs[i].ports && p.hostPort > 0 && KeyOf(p) == w;
      assert AsksFor(pod, p) && InTheWay(p, t.0, t.1);
    }
    if p, ip, pp :| AsksFor(pod, p) && ip in h && pp in h[ip] && InTheWay(p, ip, pp) {
      InKeysOfContainers(cs, |cs|, KeyOf(p));
      assert (ip, pp) in Taken(h) && Clash(KeyOf(p), (ip, pp));
    }
  }

  /** All host ports of a pod, in container order. */
  function ContainerPorts(cs: seq<Container>, n: nat): seq<ContainerPort>
    requires n <= |cs|
  {
    if n == 0 then [] else ContainerPorts(cs, n - 1) + cs[n - 1].ports
  }

  method GetContainerPorts(pod: Pod) returns (ports: seq<ContainerPort>)
    ensures ports == ContainerPorts(pod.containers, |pod.containers|)
    ensures KeysOfPorts(ports, |ports|) == KeysOfPod(pod)
  {
    ports := [];
    var cs := pod.containers;
    for j := 0 to |cs|
      invariant ports == ContainerPorts(cs, j)
      invariant KeysOfPorts(ports, |ports|) == KeysOfContainers(cs, j)
    {
      ghost var before := ports;
      ports := ports + cs[j].ports;
      KeysOfPortsConcat(before, cs[j].ports);
    }
  }

  lemma KeysOfPortsConcat(a: seq<ContainerPort>, b: seq<ContainerPort>)
    ensures KeysOfPorts(a + b, |a + b|) == KeysOfPorts(a, |a|) + KeysOfPorts(b, |b|)
  {
    forall k | k in KeysOfPorts(a, |a|) + KeysOfPorts(b, |b|)
      ensures k in KeysOfPorts(a + b, |a + b|)
    {
      if k in KeysOfPorts(a, |a|) {
        var i :| 0 <= i < |a| && a[i].hostPort > 0 && k == KeyOf(a[i]);
        assert (a + b)[i] == a[i];
      } else {
        var i :| 0 <= i < |b| && b[i].hostPort > 0 && k == KeyOf(b[i]);
        assert (a + b)[|a| + i] == b[i];
      }
    }
  }

  method FitsPorts(wanted: seq<ContainerPort>, used: HostPortInfo) returns (fits: bool)
    ensures fits <==> !Conflicts(used, KeysOfPorts(wanted, |wanted|))
  {
    for i := 0 to |wanted|
      invariant !Conflicts(used, KeysOfPorts(wanted, i))
    {
      var conflict := CheckConflict(used, wanted[i]);
      if conflict {
        assert KeyOf(wanted[i]) in KeysOfPorts(wanted, |wanted|);
        return false;
      }
      KeysOfPortsStep(wanted, i + 1);
    }
    return true;
  }

  /** The verdict on a pod: some port it wants clashes with a taken one. */
  method Fits(pod: Pod, used: HostPortInfo) returns (fits: bool)
    ensures fits <==> !Conflicts(used, KeysOfPod(pod))
  {
    var ports := GetContainerPorts(pod);
    fits := FitsPorts(ports, used);
  }
}
