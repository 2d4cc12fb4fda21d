/** When the endpoints of a service are a function of the set of its pods, and when a repeated reconcile
    has nothing to write. */
module EndpointsProperties {
  import opened Api
  import opened Registry
  import opened ServiceController

  /** The two agree up to here, where the first one ends or has the smaller byte. */
  predicate PrecedesAt(a: string, b: string, i: nat) {
    && i <= |a| && i <= |b| && (forall j :: 0 <= j < i ==> a[j] == b[j])
    && (i == |a| || (i < |b| && a[i] < b[i]))
  }

  lemma {:induction false} AtMostIff(a: string, b: string)
    ensures AtMost(a, b) <==> exists i: nat :: PrecedesAt(a, b, i)
  {
    if a == "" || (b != "" && a[0] < b[0]) {
      assert PrecedesAt(a, b, 0);
    } else if b != "" && a[0] == b[0] {
      AtMostIff(a[1..], b[1..]);
      if i: nat :| PrecedesAt(a, b, i) {
        assert PrecedesAt(a[1..], b[1..], i - 1);
      }
      if i: nat :| PrecedesAt(a[1..], b[1..], i) {
        assert forall j :: 0 < j < i + 1 ==> a[j] == a[1..][j - 1] && b[j] == b[1..][j - 1];
        assert PrecedesAt(a, b, i + 1);
      }
    }
  }

  /** Two pods of the service share an address but not a node. */
  ghost predicate Ambiguous(addresses: seq<EndpointAddress>) {
    exists a, b :: a in addresses && b in addresses && a.ip == b.ip && a != b
  }

  /** Any two sortings of any two orders of these addresses agree. */
  ghost predicate Determined(addresses: seq<EndpointAddress>) {
    forall p, q, s, t :: multiset(p) == multiset(addresses) && multiset(q) == multiset(addresses)
                         && SortingOf(s, p) && SortingOf(t, q)
                         ==> s == t
  }

  lemma {:induction false} SortingIsUnique(s: seq<EndpointAddress>, t: seq<EndpointAddress>)
    requires SortedByIP(s) && SortedByIP(t) && multiset(s) == multiset(t) && !Ambiguous(s)
    ensures s == t
  {
    assert |multiset(s)| == |s| && |multiset(t)| == |t|;
    if s == [] {
    } else {
      SameFirst(s, t);
      WithoutFirst(s);
      WithoutFirst(t);
      RestUnambiguous(s);
      SortingIsUnique(s[1..], t[1..]);
    }
  }

  lemma RestUnambiguous(s: seq<EndpointAddress>)
    requires s != [] && !Ambiguous(s)
    ensures !Ambiguous(s[1..])
  {
    assert forall a :: a in s[1..] ==> a in s;
  }

  lemma WithoutFirst(s: seq<EndpointAddress>)
    requires s != []
    ensures s == [s[0]] + s[1..] && multiset(s[1..]) == multiset(s) - multiset{s[0]}
  {
    assert s == [s[0]] + s[1..];
  }

  lemma SameFirst(s: seq<EndpointAddress>, t: seq<EndpointAddress>)
    requires SortedByIP(s) && SortedByIP(t) && multiset(s) == multiset(t) && !Ambiguous(s) && s != [] && t != []
    ensures s[0] == t[0]
  {
    assert s[0] in multiset(t) && t[0] in multiset(s);
    assert s[0] in t && t[0] in s;
    FirstIsLeast(s, t[0]);
    FirstIsLeast(t, s[0]);
    AtMostAntisymmetric(s[0].ip, t[0].ip);
  }

  lemma FirstIsLeast(s: seq<EndpointAddress>, x: EndpointAddress)
    requires SortedByIP(s) && x in s
    ensures AtMost(s[0].ip, x.ip)
  {
    AtMostTotal(x.ip, x.ip);
  }

  /** Swapping two addresses of one IP keeps a list sorted. */
  lemma SwapStaysSorted(s: seq<EndpointAddress>, i: nat, j: nat)
    requires SortedByIP(s) && i < |s| && j < |s| && s[i].ip == s[j].ip
    ensures SortingOf(s[i := s[j]][j := s[i]], s)
  {
    var t := s[i := s[j]][j := s[i]];
    assert forall k :: 0 <= k < |s| ==> t[k].ip == s[k].ip;
  }

  /** The sorted addresses are the same for every order of the pods, and whatever the unstable sort does,
      if and only if no two pods share an address without sharing a node. */
  lemma DeterminedIffUnambiguous(addresses: seq<EndpointAddress>)
    ensures Determined(addresses) <==> !Ambiguous(addresses)
  {
    if !Ambiguous(addresses) {
      forall p, q, s, t | multiset(p) == multiset(addresses) && multiset(q) == multiset(addresses) && SortingOf(s, p)
        && SortingOf(t, q)
        ensures s == t
      {
        assert !Ambiguous(s) by {
          assert forall a :: a in s ==> a in multiset(s);
        }
        SortingIsUnique(s, t);
      }
    }
    if Determined(addresses) {
      forall a, b | a in addresses && b in addresses && a.ip == b.ip ensures a == b {
        SharedIPSharesNode(addresses, a, b);
      }
    }
  }

  lemma SortingsAgree(addresses: seq<EndpointAddress>, s: seq<EndpointAddress>, t: seq<EndpointAddress>)
    requires Determined(addresses) && SortingOf(s, addresses) && SortingOf(t, addresses)
    ensures s == t
  {
  }

  lemma SharedIPSharesNode(addresses: seq<EndpointAddress>, a: EndpointAddress, b: EndpointAddress)
    requires Determined(addresses) && a in addresses && b in addresses && a.ip == b.ip
    ensures a == b
  {
    SortingExists(addresses);
    var s :| SortingOf(s, addresses);
    assert a in multiset(s) && b in multiset(s);
    var i :| 0 <= i < |s| && s[i] == a;
    var j :| 0 <= j < |s| && s[j] == b;
    SwapStaysSorted(s, i, j);
    var t := s[i := s[j]][j := s[i]];
    SortingsAgree(addresses, s, t);
  }

  /** Distinct IPs are sorted strictly. */
  lemma DistinctIPsAreStrictlySorted(s: seq<EndpointAddress>)
    requires SortedByIP(s) && forall i, j :: 0 <= i < j < |s| ==> s[i].ip != s[j].ip
    ensures forall i, j :: 0 <= i < j < |s| ==> AtMost(s[i].ip, s[j].ip) && !AtMost(s[j].ip, s[i].ip)
  {
    forall i, j | 0 <= i < j < |s| ensures !AtMost(s[j].ip, s[i].ip) {
      if AtMost(s[j].ip, s[i].ip) {
        AtMostAntisymmetric(s[i].ip, s[j].ip);
      }
    }
  }

  /** The addresses of a list of pods are those of the pods that back the service, in any order. */
  lemma {:induction false} AddressesPermute(svc: Service, pods: seq<Pod>, pods': seq<Pod>)
    requires multiset(pods) == multiset(pods')
    ensures multiset(Addresses(svc, pods)) == multiset(Addresses(svc, pods'))
    decreases |pods|
  {
    assert |multiset(pods)| == |pods| && |multiset(pods')| == |pods'|;
    if pods == [] {
    } else {
      var k, last := |pods| - 1, pods[|pods| - 1];
      assert last in multiset(pods');
      var i :| 0 <= i < |pods'| && pods'[i] == last;
      var rest := pods'[..i] + pods'[i + 1..];
      assert pods == pods[..k] + [last];
      assert pods' == pods'[..i] + [last] + pods'[i + 1..];
      assert multiset(pods[..k]) == multiset(pods) - multiset{last};
      assert multiset(rest) == multiset(pods') - multiset{last};
      AddressesPermute(svc, pods[..k], rest);
      AddressesConcat(svc, pods'[..i], pods'[i + 1..]);
      AddressesConcat(svc, pods'[..i], [last]);
      AddressesConcat(svc, pods'[..i] + [last], pods'[i + 1..]);
      assert [last][..0] == [];
    }
  }

  lemma {:induction false} AddressesConcat(svc: Service, a: seq<Pod>, b: seq<Pod>)
    ensures Addresses(svc, a + b) == Addresses(svc, a) + Addresses(svc, b)
  {
    if b == [] {
      assert a + b == a;
    } else {
      AddressesConcat(svc, a, b[..|b| - 1]);
      assert (a + b)[..|a + b| - 1] == a + b[..|b| - 1];
    }
  }

  /** The endpoints written depend on the set of pods alone, not on the order of the listing. */
  lemma EndpointsAreOrderIndependent(svc: Service, pods: seq<Pod>, pods': seq<Pod>, s: seq<EndpointAddress>,
                                     t: seq<EndpointAddress>)
    requires multiset(pods) == multiset(pods') && !Ambiguous(Addresses(svc, pods))
    requires SortingOf(s, Addresses(svc, pods)) && SortingOf(t, Addresses(svc, pods'))
    ensures DesiredEndpoints(svc, s) == DesiredEndpoints(svc, t)
  {
    AddressesPermute(svc, pods, pods');
    DeterminedIffUnambiguous(Addresses(svc, pods));
  }

  /** The endpoints stored after a reconcile whose write, if any, was served. */
  function StoredAfter(svc: Service, sorted: seq<EndpointAddress>, objects: map<string,
                       Endpoints>): map<string, Endpoints> {
    ServeRequests(objects, Write(svc, sorted, if svc.meta.name in objects then Some(objects[svc.meta.name]) else None))
  }

  /** The stored endpoints have the wire form: never an empty list of subsets. */
  predicate OnWire(objects: map<string, Endpoints>) {
    forall name :: name in objects ==> objects[name] == OnTheWire(objects[name]) && objects[name].meta.name == name
  }

  /** A reconcile stores the sorted addresses, or none at all; repeating it with the same sorting writes
      nothing if and only if there is an address: an empty list never equals the nil it is read back as. */
  lemma RepeatIsQuietIff(svc: Service, sorted: seq<EndpointAddress>, objects: map<string, Endpoints>)
    requires OnWire(objects)
    ensures var after := StoredAfter(svc, sorted, objects);
            && OnWire(after) && after.Keys == objects.Keys + {svc.meta.name}
            && after[svc.meta.name].subsets == (if sorted == [] then Nil else Subsets(svc, sorted))
            && (forall name :: name in objects && name != svc.meta.name ==> after[name] == objects[name])
            && (svc.meta.name in objects ==> after[svc.meta.name].meta == objects[svc.meta.name].meta)
            && (Write(svc, sorted, Some(after[svc.meta.name])) == [] <==> sorted != [])
            && StoredAfter(svc, sorted, after) == after
  {
    var name := svc.meta.name;
    var after := StoredAfter(svc, sorted, objects);
    WriteServed(svc, sorted, objects);
    WriteServed(svc, sorted, after);
  }

  /** The effect of the one write, if there is one. */
  lemma WriteServed(svc: Service, sorted: seq<EndpointAddress>, objects: map<string, Endpoints>)
    requires svc.meta.name in objects ==> objects[svc.meta.name].meta.name == svc.meta.name
    ensures StoredAfter(svc, sorted, objects) ==
            if svc.meta.name !in objects then objects[svc.meta.name := OnTheWire(DesiredEndpoints(svc, sorted))]
            else if objects[svc.meta.name].subsets != Subsets(svc, sorted)
            then objects[svc.meta.name := OnTheWire(objects[svc.meta.name].(subsets := Subsets(svc, sorted)))]
            else objects
  {
    var writes := Write(svc, sorted, if svc.meta.name in objects then Some(objects[svc.meta.name]) else None);
    if writes != [] {
      assert |writes| == 1 && writes[..|writes| - 1] == [];
      assert ServeRequests(objects, writes) == Serve(objects, writes[0]);
    }
  }
}
