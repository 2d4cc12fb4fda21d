/** What the stored endpoints of a service say once its reconcile was served. */
module EndpointsContent {
  import opened Api
  import opened Registry
  import opened ServiceController
  import opened EndpointsProperties

  /** The pod is of the service's namespace, carries its labels (a missing one reads as empty), is running, and has this
      address. */
  predicate Serves(pod: Pod, svc: Service, ip: string, node: string) {
    && pod.meta.namespace == svc.meta.namespace
    && (forall k :: k in svc.selector ==>
         if k in pod.meta.labels then pod.meta.labels[k] == svc.selector[k] else svc.selector[k] == "")
    && pod.status.phase == "Running" && pod.status.podIP != ""
    && pod.status.podIP == ip && pod.spec.nodeName == node
  }

  /** How many listed pods serve from there. */
  function Servers(svc: Service, pods: seq<Pod>, ip: string, node: string): nat {
    if pods == [] then 0
    else
      var rest, last := Servers(svc, pods[..|pods| - 1], ip, node), pods[|pods| - 1];
      if Serves(last, svc, ip, node) then rest + 1 else rest
  }

  ghost predicate IsServed(svc: Service, pods: seq<Pod>) {
    exists pod, ip, node :: pod in pods && Serves(pod, svc, ip, node)
  }

  predicate TargetOf(sp: ServicePort, port: EndpointPort) {
    && port.name == sp.name
    && (port.protocol == if sp.protocol == "" then "TCP" else sp.protocol)
    && (port.port == if sp.targetType == 1 || sp.targetInt != 0 then sp.targetInt else sp.port)
  }

  /** Every address as often as pods serve from it, in the order of the IPs, and every port of the service. */
  ghost predicate Describes(svc: Service, pods: seq<Pod>, subset: EndpointSubset) {
    && (forall ip, node :: multiset(subset.addresses)[EndpointAddress(ip, node)] == Servers(svc, pods, ip, node))
    && (forall i, j :: 0 <= i < j < |subset.addresses| ==> AtMost(subset.addresses[i].ip, subset.addresses[j].ip))
    && |subset.ports| == |svc.ports|
    && forall i :: 0 <= i < |svc.ports| ==> TargetOf(svc.ports[i], subset.ports[i])
  }

  lemma {:induction false} AddressesCounted(svc: Service, pods: seq<Pod>, ip: string, node: string)
    ensures multiset(Addresses(svc, pods))[EndpointAddress(ip, node)] == Servers(svc, pods, ip, node)
  {
    if pods == [] {
    } else {
      AddressesCounted(svc, pods[..|pods| - 1], ip, node);
      assert AddressOf(pods[|pods| - 1]) == EndpointAddress(ip, node) && Backs(pods[|pods| - 1], svc)
        <==> Serves(pods[|pods| - 1], svc, ip, node);
    }
  }

  lemma {:induction false} ServedCounts(svc: Service, pods: seq<Pod>, pod: Pod, ip: string, node: string)
    requires pod in pods && Serves(pod, svc, ip, node)
    ensures Servers(svc, pods, ip, node) > 0
  {
    var k := |pods| - 1;
    if pods[k] != pod {
      assert pods == pods[..k] + [pods[k]];
      ServedCounts(svc, pods[..k], pod, ip, node);
    }
  }

  lemma {:induction false} CountedServes(svc: Service, pods: seq<Pod>, ip: string, node: string)
    requires Servers(svc, pods, ip, node) > 0
    ensures IsServed(svc, pods)
  {
    var k := |pods| - 1;
    if Serves(pods[k], svc, ip, node) {
    } else {
      CountedServes(svc, pods[..k], ip, node);
      var pod, ip', node' :| pod in pods[..k] && Serves(pod, svc, ip', node');
      assert pod in pods;
    }
  }

  lemma SortedDescribes(svc: Service, pods: seq<Pod>, sorted: seq<EndpointAddress>)
    requires SortingOf(sorted, Addresses(svc, pods))
    ensures Describes(svc, pods, EndpointSubset(sorted, Ports(svc.ports)))
    ensures sorted != [] <==> IsServed(svc, pods)
  {
    forall ip, node ensures multiset(sorted)[EndpointAddress(ip, node)] == Servers(svc, pods, ip, node) {
      AddressesCounted(svc, pods, ip, node);
    }
    if sorted != [] {
      assert sorted[0] in multiset(sorted);
      assert sorted[0] == EndpointAddress(sorted[0].ip, sorted[0].nodeName);
      CountedServes(svc, pods, sorted[0].ip, sorted[0].nodeName);
    }
    if pod, ip, node :| pod in pods && Serves(pod, svc, ip, node) {
      ServedCounts(svc, pods, pod, ip, node);
      assert EndpointAddress(ip, node) in multiset(sorted);
    }
  }

  /** A served reconcile leaves the service with one subset that lists its pods and ports, or with none at all if no pod
      serves. New endpoints take the name, namespace and labels of the service, old ones keep their metadata; nothing
      else is touched. */
  lemma EndpointsDescribeService(svc: Service, pods: seq<Pod>, sorted: seq<EndpointAddress>,
                                 objects: map<string, Endpoints>, log: seq<Exchange<Endpoints>>)
    requires OnWire(objects) && SortingOf(sorted, Addresses(svc, pods)) && AllServed(log)
    requires Requests(log)
               == Write(svc, sorted, if svc.meta.name in objects then Some(objects[svc.meta.name]) else None)
    ensures var after := ServeAll(objects, log);
            && after.Keys == objects.Keys + {svc.meta.name}
            && (forall name :: name in objects && name != svc.meta.name ==> after[name] == objects[name])
            && var stored := after[svc.meta.name];
            && (if IsServed(svc, pods)
                then stored.subsets.Items? && |stored.subsets.items| == 1
                     && Describes(svc, pods, stored.subsets.items[0])
                else stored.subsets.Nil?)
            && if svc.meta.name in objects then stored.meta == objects[svc.meta.name].meta
               else && stored.meta.name == svc.meta.name && stored.meta.namespace == svc.meta.namespace
                    && stored.meta.labels == svc.meta.labels && stored.meta.annotations == map[]
  {
    AllServedRequests(objects, log);
    SortedDescribes(svc, pods, sorted);
    RepeatIsQuietIff(svc, sorted, objects);
    WriteServed(svc, sorted, objects);
  }
}
