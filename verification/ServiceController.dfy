/** The Service controller (internal/controller/service/service_controller.go): the endpoints of a
    service are the addresses of its running pods, sorted by IP. */
module ServiceController {
  import opened Api
  import opened Registry

  /** `targetType` is 1 for a named target port. */
  datatype ServicePort = ServicePort(name: string, protocol: string, port: int, targetType: int, targetInt: int)

  datatype Service = Service(meta: ObjectMeta, selector: Labels, ports: seq<ServicePort>)

  datatype EndpointAddress = EndpointAddress(ip: string, nodeName: string)

  datatype EndpointPort = EndpointPort(name: string, port: int, protocol: string)

  datatype EndpointSubset = EndpointSubset(addresses: seq<EndpointAddress>, ports: seq<EndpointPort>)

  /** A Go slice: nil, or a possibly empty list. The comparison the code uses tells them apart. */
  datatype Slice<T> = Nil | Items(items: seq<T>)

  datatype Endpoints = Endpoints(meta: ObjectMeta, subsets: Slice<EndpointSubset>)

  /** The JSON field is omitted when empty, so an empty list arrives, and is read back, as nil. */
  function OnTheWire(ep: Endpoints): Endpoints {
    if ep.subsets.Items? && ep.subsets.items == [] then ep.(subsets := Nil) else ep
  }

  predicate IsMatch(labels: Labels, selector: Labels) {
    forall k :: k in selector ==> Lookup(labels, k) == selector[k]
  }

  predicate Backs(pod: Pod, svc: Service) {
    && pod.meta.namespace == svc.meta.namespace
    && IsMatch(pod.meta.labels, svc.selector)
    && pod.status.phase == "Running" && pod.status.podIP != ""
  }

  function AddressOf(pod: Pod): EndpointAddress {
    EndpointAddress(pod.status.podIP, pod.spec.nodeName)
  }

  /** The addresses of the pods behind a service, in list order. */
  function Addresses(svc: Service, pods: seq<Pod>): seq<EndpointAddress> {
    if pods == [] then []
    else
      var rest, last := Addresses(svc, pods[..|pods| - 1]), pods[|pods| - 1];
      if Backs(last, svc) then rest + [AddressOf(last)] else rest
  }

  /** The endpoint port of a service port: TCP unless said otherwise, on the numeric target port, or on the
      service's own port if no target is given; a named target is not looked up. */
  function PortOf(sp: ServicePort): EndpointPort {
    EndpointPort(sp.name,
                 if sp.targetType != 1 && sp.targetInt == 0 then sp.port else sp.targetInt,
                 if sp.protocol == "" then "TCP" else sp.protocol)
  }

  function Ports(ports: seq<ServicePort>): seq<EndpointPort> {
    seq(|ports|, i requires 0 <= i < |ports| => PortOf(ports[i]))
  }

  /** Byte-wise order of strings. */
  predicate AtMost(a: string, b: string) {
    a == "" || (b != "" && (a[0] < b[0] || (a[0] == b[0] && AtMost(a[1..], b[1..]))))
  }

  predicate SortedByIP(addresses: seq<EndpointAddress>) {
    forall i, j :: 0 <= i < j < |addresses| ==> AtMost(addresses[i].ip, addresses[j].ip)
  }

  /** What sorting by IP may yield: the sort is not stable. */
  predicate SortingOf(sorted: seq<EndpointAddress>, addresses: seq<EndpointAddress>) {
    SortedByIP(sorted) && multiset(sorted) == multiset(addresses)
  }

  function Subsets(svc: Service, sorted: seq<EndpointAddress>): Slice<EndpointSubset> {
    Items(if sorted == [] then [] else [EndpointSubset(sorted, Ports(svc.ports))])
  }

  function DesiredEndpoints(svc: Service, sorted: seq<EndpointAddress>): Endpoints {
    Endpoints(ObjectMeta(svc.meta.name, svc.meta.namespace, svc.meta.labels, map[]), Subsets(svc, sorted))
  }

  /** The write a reconcile makes, if any, given the sorted addresses and the stored endpoints. */
  function Write(svc: Service, sorted: seq<EndpointAddress>, existing: Option<Endpoints>): seq<Request<Endpoints>> {
    match existing
    case None => [Create(svc.meta.name, OnTheWire(DesiredEndpoints(svc, sorted)))]
    case Some(ep) =>
      if ep.subsets != Subsets(svc, sorted) then [Update(ep.meta.name, OnTheWire(ep.(subsets := Subsets(svc, sorted))))]
      else []
  }

  method IsMatching(labels: Labels, selector: Labels) returns (matches: bool)
    ensures matches == IsMatch(labels, selector)
    ensures matches <==> forall item :: item in selector.Items ==>
                           item in labels.Items || (item.1 == "" && item.0 !in labels)
  {
    var rest := selector.Keys;
    while rest != {}
      invariant rest <= selector.Keys
      invariant forall k :: k in selector && k !in rest ==> Lookup(labels, k) == selector[k]
    {
      var k :| k in rest;
      if (if k in labels then labels[k] else "") != selector[k] {
        assert (k, selector[k]) in selector.Items;
        return false;
      }
      rest := rest - {k};
    }
    matches := true;
  }

  class Controller {
    const podClient: Client<Pod>
    const endpointsClient: Client<Endpoints>

    constructor (podClient: Client<Pod>, endpointsClient: Client<Endpoints>)
      ensures this.podClient == podClient && this.endpointsClient == endpointsClient
    {
      this.podClient, this.endpointsClient := podClient, endpointsClient;
    }

    ghost function Existing(name: string): Option<Endpoints>
      reads endpointsClient
    {
      if name in endpointsClient.objects then Some(endpointsClient.objects[name]) else None
    }

    /** Once both reads have succeeded it is decided what to write: exactly the write of some sorting of the addresses
        listed, whatever becomes of it. A service without a selector is left alone, and until it is decided nothing is
        sent. */
    method ReconcileService(svc: Service)
      returns (ok: bool, ghost decided: bool, ghost pods: seq<Pod>, ghost names: seq<string>,
               ghost sorted: seq<EndpointAddress>)
      modifies endpointsClient
      ensures svc.selector == map[] ==> ok && !decided
      ensures svc.selector != map[] && ok ==> decided
      ensures svc.selector != map[] && podClient.reliable && endpointsClient.reliable ==> decided
      ensures decided ==> Lists(podClient.objects, names, pods) && SortingOf(sorted, Addresses(svc, pods))
      ensures Issued(endpointsClient.reliable, old(endpointsClient.objects), old(endpointsClient.history),
                     endpointsClient.objects,
                     endpointsClient.history, if decided then Write(svc, sorted, old(Existing(svc.meta.name))) else [])
      ensures podClient.reliable && endpointsClient.reliable
              && (svc.meta.name in old(endpointsClient.objects) ==>
                   old(endpointsClient.objects)[svc.meta.name].meta.name == svc.meta.name)
              ==> ok
    {
      decided, pods, names, sorted := false, [], [], [];
      IssuedNothing(endpointsClient.reliable, endpointsClient.objects, endpointsClient.history);
      if |svc.selector| == 0 {
        ok := true;
        return;
      }
      var podItems: seq<Pod>;
      ok, podItems, names := podClient.List();
      pods := podItems;
      if !ok {
        return;
      }
      var ordered := SortedAddresses(svc, podItems);
      sorted := ordered;
      var subsets := BuildSubsets(svc, ordered);
      var existingEp: Option<Endpoints>;
      ok, existingEp := endpointsClient.Get(svc.meta.name);
      if !ok {
        return;
      }
      decided := true;
      if existingEp.None? {
        var desiredEp := Endpoints(ObjectMeta(svc.meta.name, svc.meta.namespace, svc.meta.labels, map[]),
                                   Items(subsets));
        ok := endpointsClient.Send(Create(desiredEp.meta.name, OnTheWire(desiredEp)));
        return;
      }
      var ep := existingEp.value;
      if ep.subsets != Items(subsets) {
        ep := ep.(subsets := Items(subsets));
        ok := endpointsClient.Send(Update(ep.meta.name, OnTheWire(ep)));
      }
    }

    /** The addresses of the matching pods, sorted by IP. */
    method SortedAddresses(svc: Service, pods: seq<Pod>) returns (sorted: seq<EndpointAddress>)
      ensures SortingOf(sorted, Addresses(svc, pods))
    {
      var matchingPods := MatchingPods(svc, pods);
      var addresses: seq<EndpointAddress> := [];
      for i := 0 to |matchingPods|
        invariant addresses == AddressesOf(matchingPods[..i])
      {
        assert matchingPods[..i + 1][..i] == matchingPods[..i];
        addresses := addresses + [EndpointAddress(matchingPods[i].status.podIP, matchingPods[i].spec.nodeName)];
      }
      assert matchingPods[..|matchingPods|] == matchingPods;
      SortingExists(addresses);
      sorted :| SortingOf(sorted, addresses);
    }

    /** One subset, or none at all if there is no address. */
    method BuildSubsets(svc: Service, addresses: seq<EndpointAddress>) returns (subsets: seq<EndpointSubset>)
      ensures Items(subsets) == Subsets(svc, addresses)
    {
      var ports := BuildPorts(svc.ports);
      subsets := [];
      if |addresses| > 0 {
        subsets := subsets + [EndpointSubset(addresses, ports)];
      }
    }

    method MatchingPods(svc: Service, pods: seq<Pod>) returns (matching: seq<Pod>)
      ensures AddressesOf(matching) == Addresses(svc, pods)
      ensures forall pod :: pod in matching <==> pod in pods && Backs(pod, svc)
    {
      matching := [];
      for i := 0 to |pods|
        invariant AddressesOf(matching) == Addresses(svc, pods[..i])
        invariant forall pod :: pod in matching <==> pod in pods[..i] && Backs(pod, svc)
      {
        assert pods[..i + 1][..i] == pods[..i];
        var pod := pods[i];
        if pod.meta.namespace == svc.meta.namespace {
          var m := IsMatching(pod.meta.labels, svc.selector);
          if m && pod.status.phase == "Running" && pod.status.podIP != "" {
            assert (matching + [pod])[..|matching|] == matching;
            matching := matching + [pod];
          }
        }
      }
      assert pods[..|pods|] == pods;
    }

    /** The entry just appended is patched in place. */
    method BuildPorts(ports: seq<ServicePort>) returns (built: seq<EndpointPort>)
      ensures built == Ports(ports)
    {
      built := [];
      for i := 0 to |ports|
        invariant built == Ports(ports[..i])
      {
        ghost var before := built;
        var sp := ports[i];
        built := built + [EndpointPort(sp.name, sp.targetInt, sp.protocol)];
        var last := |built| - 1;
        if sp.protocol == "" {
          built := built[last := built[last].(protocol := "TCP")];
        }
        if sp.targetType == 1 {
        } else if sp.targetInt == 0 {
          built := built[last := built[last].(port := sp.port)];
        }
        assert built == before + [PortOf(sp)];
        assert Ports(ports[..i + 1]) == Ports(ports[..i]) + [PortOf(ports[i])];
      }
      assert ports[..|ports|] == ports;
    }
  }

  function AddressesOf(pods: seq<Pod>): seq<EndpointAddress> {
    if pods == [] then [] else AddressesOf(pods[..|pods| - 1]) + [AddressOf(pods[|pods| - 1])]
  }

  // ----- The order of strings, and sorting

  lemma {:induction false} AtMostTotal(a: string, b: string)
    ensures AtMost(a, b) || AtMost(b, a)
  {
    if a != "" && b != "" {
      AtMostTotal(a[1..], b[1..]);
    }
  }

  lemma {:induction false} AtMostAntisymmetric(a: string, b: string)
    requires AtMost(a, b) && AtMost(b, a)
    ensures a == b
  {
    if a != "" && b != "" {
      AtMostAntisymmetric(a[1..], b[1..]);
      assert a == [a[0]] + a[1..] && b == [b[0]] + b[1..];
    }
  }

  lemma {:induction false} AtMostTransitive(a: string, b: string, c: string)
    requires AtMost(a, b) && AtMost(b, c)
    ensures AtMost(a, c)
  {
    if a != "" && a[0] == b[0] == c[0] {
      AtMostTransitive(a[1..], b[1..], c[1..]);
    }
  }

  lemma {:induction false} SortingExists(addresses: seq<EndpointAddress>)
    ensures exists sorted :: SortingOf(sorted, addresses)
  {
    if addresses == [] {
      assert SortingOf([], addresses);
    } else {
      var k := |addresses| - 1;
      SortingExists(addresses[..k]);
      var front :| SortingOf(front, addresses[..k]);
      var sorted := Insert(front, addresses[k]);
      assert addresses == addresses[..k] + [addresses[k]];
      assert SortingOf(sorted, addresses);
    }
  }

  lemma SortedFromHead(head: EndpointAddress, rest: seq<EndpointAddress>)
    requires SortedByIP(rest) && forall y :: y in rest ==> AtMost(head.ip, y.ip)
    ensures SortedByIP([head] + rest)
  {
    var all := [head] + rest;
    forall i, j | 0 <= i < j < |all| ensures AtMost(all[i].ip, all[j].ip) {
      assert all[j] == rest[j - 1];
      if i > 0 {
        assert all[i] == rest[i - 1];
      }
    }
  }

  lemma {:induction false} Insert(sorted: seq<EndpointAddress>, x: EndpointAddress) returns (all: seq<EndpointAddress>)
    requires SortedByIP(sorted)
    ensures SortedByIP(all) && multiset(all) == multiset(sorted) + multiset{x}
  {
    if sorted == [] {
      all := [x];
    } else if AtMost(x.ip, sorted[0].ip) {
      all := [x] + sorted;
      forall y | y in sorted ensures AtMost(x.ip, y.ip) {
        if y != sorted[0] {
          AtMostTransitive(x.ip, sorted[0].ip, y.ip);
        }
      }
      SortedFromHead(x, sorted);
    } else {
      AtMostTotal(x.ip, sorted[0].ip);
      var rest := Insert(sorted[1..], x);
      all := [sorted[0]] + rest;
      assert sorted == [sorted[0]] + sorted[1..];
      forall y | y in rest ensures AtMost(sorted[0].ip, y.ip) {
        assert y in multiset(rest);
        assert y == x || y in sorted[1..];
      }
      SortedFromHead(sorted[0], rest);
    }
  }
}
