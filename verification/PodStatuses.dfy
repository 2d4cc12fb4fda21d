/** What a pass of the kubelet reports of its pods. */
module PodStatuses {
  import opened Api
  import opened Registry
  import opened Kubelet
  import PodSets

  /** The listed container that stands for one of a pod's spec: the first of the pod under its name. */
  predicate StandsFor(podName: string, spec: Container, listed: seq<ContainerInfo>, m: nat) {
    && m < |listed| && listed[m].podName == podName && listed[m].name == "k8s-lite-" + podName + "-" + spec.name
    && forall l :: 0 <= l < m && listed[l].podName == podName ==> listed[l].name != listed[m].name
  }

  /** It has not exited, and an inspection yields this address. */
  ghost predicate Reports(addresses: Addresses, podName: string, spec: Container, listed: seq<ContainerInfo>,
                          ip: string) {
    exists m: nat :: StandsFor(podName, spec, listed, m) && ip != "" && ip == addresses(listed[m].id)
                && !(4 <= |listed[m].state| && listed[m].state[..4] == "Exit")
  }

  lemma {:induction false} FindNext(running: seq<ContainerInfo>, x: ContainerInfo, name: string)
    ensures Find(running + [x], name)
         == if Find(running, name).Some? then Find(running, name) else if x.name == name then Some(x) else None
  {
    if running != [] {
      assert (running + [x])[1..] == running[1..] + [x];
      FindNext(running[1..], x, name);
    }
  }

  lemma {:induction false} FindIsFirst(podName: string, spec: Container, listed: seq<ContainerInfo>, m: nat)
    requires StandsFor(podName, spec, listed, m)
    ensures Find(OfPod(listed, podName), listed[m].name) == Some(listed[m])
  {
    var k, name := |listed| - 1, listed[m].name;
    var front := OfPod(listed[..k], podName);
    FindNext(front, listed[k], name);
    if m < k {
      FindIsFirst(podName, spec, listed[..k], m);
    } else {
      OfPodOf(listed[..k], podName);
    }
  }

  lemma FoundIsFirst(podName: string, spec: Container, listed: seq<ContainerInfo>) returns (m: nat)
    requires Find(OfPod(listed, podName), ContainerName(podName, spec.name)).Some?
    ensures StandsFor(podName, spec, listed, m)
    ensures Find(OfPod(listed, podName), ContainerName(podName, spec.name)) == Some(listed[m])
  {
    OfPodOf(listed, podName);
    var x := Find(OfPod(listed, podName), ContainerName(podName, spec.name)).value;
    m :| 0 <= m < |listed| && listed[m] == x;
    m := SomeStandsFor(podName, spec, listed, m);
    FindIsFirst(podName, spec, listed, m);
  }

  lemma SomeStandsFor(podName: string, spec: Container, listed: seq<ContainerInfo>, j: nat) returns (m: nat)
    requires j < |listed| && listed[j].podName == podName && listed[j].name == ContainerName(podName, spec.name)
    ensures StandsFor(podName, spec, listed, m)
  {
    if l :| 0 <= l < j && listed[l].podName == podName && listed[l].name == listed[j].name {
      m := SomeStandsFor(podName, spec, listed, l);
    } else {
      m := j;
    }
  }

  lemma LearntIsReported(addresses: Addresses, podName: string, spec: Container, listed: seq<ContainerInfo>, ip: string)
    requires ip != ""
    ensures Learnt(addresses, podName, spec, OfPod(listed, podName)) == ip
       <==> Reports(addresses, podName, spec, listed, ip)
  {
    if Learnt(addresses, podName, spec, OfPod(listed, podName)) == ip {
      var m := FoundIsFirst(podName, spec, listed);
    }
    if Reports(addresses, podName, spec, listed, ip) {
      var m: nat :| StandsFor(podName, spec, listed, m) && ip == addresses(listed[m].id)
               && !(4 <= |listed[m].state| && listed[m].state[..4] == "Exit");
      FindIsFirst(podName, spec, listed, m);
    }
  }

  /** The address of a pod is that of its last container that reports one. */
  lemma {:induction false} LastReportCounts(addresses: Addresses, known: string, podName: string, specs: seq<Container>,
                                            listed: seq<ContainerInfo>, k: nat, ip: string)
    requires k < |specs| && Reports(addresses, podName, specs[k], listed, ip)
    requires forall j, other :: k < j < |specs| ==> !Reports(addresses, podName, specs[j], listed, other)
    ensures AddressAfter(addresses, known, podName, specs, OfPod(listed, podName)) == ip
  {
    var last := |specs| - 1;
    if k == last {
      LearntIsReported(addresses, podName, specs[k], listed, ip);
    } else {
      var learnt := Learnt(addresses, podName, specs[last], OfPod(listed, podName));
      if learnt != "" {
        LearntIsReported(addresses, podName, specs[last], listed, learnt);
        assert false;
      }
      LastReportCounts(addresses, known, podName, specs[..last], listed, k, ip);
    }
  }

  /** Without a report the known address is kept. */
  lemma {:induction false} NoReportKeeps(addresses: Addresses, known: string, podName: string, specs: seq<Container>,
                                         listed: seq<ContainerInfo>)
    requires forall j, ip :: 0 <= j < |specs| ==> !Reports(addresses, podName, specs[j], listed, ip)
    ensures AddressAfter(addresses, known, podName, specs, OfPod(listed, podName)) == known
  {
    if specs == [] {
    } else {
      var last := |specs| - 1;
      var learnt := Learnt(addresses, podName, specs[last], OfPod(listed, podName));
      if learnt != "" {
        LearntIsReported(addresses, podName, specs[last], listed, learnt);
        assert false;
      }
      NoReportKeeps(addresses, known, podName, specs[..last], listed);
    }
  }

  /** Pods of distinct names, each as stored. */
  predicate Stored(objects: map<string, Pod>, pods: seq<Pod>) {
    && (forall i :: 0 <= i < |pods| ==> pods[i].meta.name in objects && objects[pods[i].meta.name] == pods[i])
    && (forall i, j :: 0 <= i < j < |pods| ==> pods[i].meta.name != pods[j].meta.name)
  }

  /** What is stored of a pod after its status was written, or needed no writing. */
  predicate HasStatus(listedPod: Pod, running: seq<ContainerInfo>, ip: string, after: Pod) {
    && after.meta == listedPod.meta && after.spec == listedPod.spec
    && after.status.phase == (if |running| > 0 then "Running" else "Pending") && after.status.podIP == ip
  }

  lemma OneStatus(objects: map<string, Pod>, pod: Pod, running: seq<ContainerInfo>, ip: string)
    requires pod.meta.name in objects && objects[pod.meta.name] == pod
    requires ip == pod.status.podIP || ip != ""
    ensures var after := ServeRequests(objects, StatusWrite(pod, running, ip));
            && after.Keys == objects.Keys && HasStatus(pod, running, ip, after[pod.meta.name])
            && forall name :: name in objects && name != pod.meta.name ==> after[name] == objects[name]
  {
    var writes := StatusWrite(pod, running, ip);
    if writes != [] {
      assert |writes| == 1 && writes[..0] == [];
      assert ServeRequests(objects, writes) == Serve(objects, writes[0]);
    }
  }

  /** The statuses of the first pods are stored, and all other pods are as before. */
  ghost predicate HaveStatus(objects: map<string, Pod>, addresses: Addresses, pods: seq<Pod>, k: nat,
                             listed: seq<ContainerInfo>, after: map<string, Pod>)
    requires k <= |pods|
  {
    && after.Keys == objects.Keys
    && (forall i :: 0 <= i < k && pods[i].meta.name in after ==>
         StatusOf(addresses, pods[i], listed, after[pods[i].meta.name]))
    && (forall name :: name in objects && (forall i :: 0 <= i < k ==> pods[i].meta.name != name) ==>
         after[name] == objects[name])
  }

  ghost predicate StatusOf(addresses: Addresses, pod: Pod, listed: seq<ContainerInfo>, after: Pod) {
    var running := OfPod(listed, pod.meta.name);
    HasStatus(pod, running, AddressOf(addresses, pod, running), after)
  }

  lemma NextStatus(objects: map<string, Pod>, addresses: Addresses, pods: seq<Pod>, k: nat, listed: seq<ContainerInfo>,
                   before: map<string, Pod>, after: map<string, Pod>)
    requires Stored(objects, pods) && k < |pods| && HaveStatus(objects, addresses, pods, k, listed, before)
    requires after.Keys == before.Keys && pods[k].meta.name in after
    requires StatusOf(addresses, pods[k], listed, after[pods[k].meta.name])
    requires forall name :: name in before && name != pods[k].meta.name ==> after[name] == before[name]
    ensures HaveStatus(objects, addresses, pods, k + 1, listed, after)
  {
  }

  lemma NextServed(objects: map<string, Pod>, addresses: Addresses, pods: seq<Pod>, k: nat, listed: seq<ContainerInfo>)
    requires k < |pods|
    ensures var before := ServeRequests(objects, StatusWrites(addresses, pods[..k], listed));
            var running := OfPod(listed, pods[k].meta.name);
            ServeRequests(objects, StatusWrites(addresses, pods[..k + 1], listed))
            == ServeRequests(before, StatusWrite(pods[k], running, AddressOf(addresses, pods[k], running)))
  {
    var running := OfPod(listed, pods[k].meta.name);
    assert pods[..k + 1][..k] == pods[..k];
    ServeRequestsConcat(objects, StatusWrites(addresses, pods[..k], listed),
                        StatusWrite(pods[k], running, AddressOf(addresses, pods[k], running)));
  }

  lemma {:induction false} StatusesServed(objects: map<string, Pod>, addresses: Addresses, pods: seq<Pod>, k: nat,
                                          listed: seq<ContainerInfo>)
    requires Stored(objects, pods) && k <= |pods|
    ensures HaveStatus(objects, addresses, pods, k, listed,
                       ServeRequests(objects, StatusWrites(addresses, pods[..k], listed)))
  {
    if k == 0 {
    } else {
      var pod := pods[k - 1];
      var running := OfPod(listed, pod.meta.name);
      var before := ServeRequests(objects, StatusWrites(addresses, pods[..k - 1], listed));
      StatusesServed(objects, addresses, pods, k - 1, listed);
      AddressKeptOrFound(addresses, pod.status.podIP, pod.meta.name, pod.spec.containers, running);
      OneStatus(before, pod, running, AddressOf(addresses, pod, running));
      NextServed(objects, addresses, pods, k - 1, listed);
      NextStatus(objects, addresses, pods, k - 1, listed, before,
                 ServeRequests(objects, StatusWrites(addresses, pods[..k], listed)));
    }
  }

  /** The pod has been reported: Running exactly if any container of it was listed, at the address of its last container
      that has one, or at the one known before; nothing else of it has changed. */
  ghost predicate Reported(addresses: Addresses, pod: Pod, listed: seq<ContainerInfo>, after: Pod) {
    && after.meta == pod.meta && after.spec == pod.spec
    && (after.status.phase == "Running" <==> exists x :: x in listed && x.podName == pod.meta.name)
    && (after.status.phase == "Running" || after.status.phase == "Pending")
    && (forall k, ip :: LastReport(addresses, pod, listed, k, ip) ==> after.status.podIP == ip)
    && ((forall k, ip :: !LastReport(addresses, pod, listed, k, ip)) ==> after.status.podIP == pod.status.podIP)
  }

  ghost predicate LastReport(addresses: Addresses, pod: Pod, listed: seq<ContainerInfo>, k: nat, ip: string) {
    && k < |pod.spec.containers| && Reports(addresses, pod.meta.name, pod.spec.containers[k], listed, ip)
    && forall j, other :: k < j < |pod.spec.containers| ==>
         !Reports(addresses, pod.meta.name, pod.spec.containers[j], listed, other)
  }

  lemma {:induction false} SomeLastReport(addresses: Addresses, pod: Pod, listed: seq<ContainerInfo>, j: nat,
                                          ip: string)
    returns (k: nat, last: string)
    requires j < |pod.spec.containers| && Reports(addresses, pod.meta.name, pod.spec.containers[j], listed, ip)
    ensures LastReport(addresses, pod, listed, k, last)
    decreases |pod.spec.containers| - j
  {
    if later, other :| j < later < |pod.spec.containers|
                       && Reports(addresses, pod.meta.name, pod.spec.containers[later], listed, other)
    {
      k, last := SomeLastReport(addresses, pod, listed, later, other);
    } else {
      k, last := j, ip;
    }
  }

  lemma StatusIsReported(addresses: Addresses, pod: Pod, listed: seq<ContainerInfo>, after: Pod)
    requires var running := OfPod(listed, pod.meta.name);
             HasStatus(pod, running, AddressOf(addresses, pod, running), after)
    ensures Reported(addresses, pod, listed, after)
  {
    var running := OfPod(listed, pod.meta.name);
    OfPodOf(listed, pod.meta.name);
    if |running| > 0 {
      assert running[0] in running;
    }
    forall k, ip | LastReport(addresses, pod, listed, k, ip) ensures after.status.podIP == ip {
      LastReportCounts(addresses, pod.status.podIP, pod.meta.name, pod.spec.containers, listed, k, ip);
    }
    if forall k, ip :: !LastReport(addresses, pod, listed, k, ip) {
      forall j, ip | 0 <= j < |pod.spec.containers|
        ensures !Reports(addresses, pod.meta.name, pod.spec.containers[j], listed, ip)
      {
        if Reports(addresses, pod.meta.name, pod.spec.containers[j], listed, ip) {
          var k, last := SomeLastReport(addresses, pod, listed, j, ip);
          assert false;
        }
      }
      NoReportKeeps(addresses, pod.status.podIP, pod.meta.name, pod.spec.containers, listed);
    }
  }

  /** A fault-free pass reports every pod assigned to the node, and writes no other pod. */
  lemma PassReports(objects: map<string, Pod>, addresses: Addresses, nodeName: string, pods: seq<Pod>,
                    names: seq<string>,
                    listed: seq<ContainerInfo>, log: seq<Exchange<Pod>>)
    requires PodSets.Keyed(objects) && Lists(objects, names, pods)
    requires Requests(log) == StatusWrites(addresses, Assigned(pods, nodeName), listed) && AllServed(log)
    ensures var after := ServeAll(objects, log);
            && after.Keys == objects.Keys
            && forall name :: name in objects ==>
                 if objects[name].spec.nodeName == nodeName then Reported(addresses, objects[name], listed, after[name])
                 else after[name] == objects[name]
  {
    var mine := Assigned(pods, nodeName);
    AssignedStored(objects, nodeName, pods, names);
    AllServedRequests(objects, log);
    StatusesServed(objects, addresses, mine, |mine|, listed);
    assert mine[..|mine|] == mine;
    var after := ServeAll(objects, log);
    forall name | name in objects && objects[name].spec.nodeName == nodeName
      ensures Reported(addresses, objects[name], listed, after[name])
    {
      assert objects[name] in mine;
      var i :| 0 <= i < |mine| && mine[i] == objects[name];
      StatusIsReported(addresses, mine[i], listed, after[name]);
    }
  }

  lemma AssignedStored(objects: map<string, Pod>, nodeName: string, pods: seq<Pod>, names: seq<string>)
    requires PodSets.Keyed(objects) && Lists(objects, names, pods)
    ensures Stored(objects, Assigned(pods, nodeName))
    ensures forall name :: name in objects ==>
              (objects[name] in Assigned(pods, nodeName) <==> objects[name].spec.nodeName == nodeName)
    ensures forall i :: 0 <= i < |Assigned(pods, nodeName)| ==> Assigned(pods, nodeName)[i].spec.nodeName == nodeName
  {
    var mine := Assigned(pods, nodeName);
    AssignedOf(pods, nodeName);
    assert forall i :: 0 <= i < |pods| ==> names[i] == pods[i].meta.name;
    forall i | 0 <= i < |mine|
      ensures mine[i].meta.name in objects && objects[mine[i].meta.name] == mine[i] && mine[i].spec.nodeName == nodeName
    {
      assert mine[i] in mine;
      var j :| 0 <= j < |pods| && pods[j] == mine[i];
      assert names[j] in objects;
    }
    forall name | name in objects ensures objects[name] in pods {
      var j :| 0 <= j < |names| && names[j] == name;
    }
  }

  /** A status is sent if and only if the phase changes or an address is known: a second pass over the same listing
      sends none to pods without an address. */
  lemma SilentIff(pod: Pod, running: seq<ContainerInfo>, ip: string)
    ensures StatusWrite(pod, running, ip) == [] <==>
              ip == "" && pod.status.phase == if |running| > 0 then "Running" else "Pending"
  {
  }
}
