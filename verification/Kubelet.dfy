/** The kubelet (internal/kubelet/agent.go) over a container runtime (internal/kubelet/runtime.go):
    one pass makes the containers of a node follow the pods assigned to it. */
module Kubelet {
  import opened Api
  import opened Registry
  import opened PodSets

  datatype ContainerInfo = ContainerInfo(id: nat, name: string, state: string, podName: string)

  datatype ProbeResult = Healthy | Unhealthy | ProbeError

  datatype RuntimeCall = Stop(id: nat) | Run(name: string, podName: string)

  type Containers = map<nat, ContainerInfo>

  function ContainerName(pod: string, container: string): string {
    "k8s-lite-" + pod + "-" + container
  }

  /** The container engine: its containers by id, and the next id it will hand out. */
  datatype Engine = Engine(containers: Containers, nextId: nat)

  /** Container names are unique, as the engine enforces, and ids are those it has handed out. */
  ghost predicate WellFormed(engine: Engine) {
    && (forall id :: id in engine.containers ==> id < engine.nextId && engine.containers[id].id == id)
    && (forall x, y :: x in engine.containers && y in engine.containers && x != y
                       ==> engine.containers[x].name != engine.containers[y].name)
  }

  ghost predicate NameUsed(containers: Containers, name: string) {
    exists id :: id in containers && containers[id].name == name
  }

  /** A working engine: running under a name in use, by whatever container, is refused; a stopped
      container is removed, and stopping one that is gone does nothing. */
  ghost function Exec(engine: Engine, call: RuntimeCall): Engine {
    match call
    case Stop(id) => engine.(containers := engine.containers - {id})
    case Run(name, podName) =>
      if NameUsed(engine.containers, name) then engine
      else
        var started := ContainerInfo(engine.nextId, name, "running", podName);
        Engine(engine.containers[engine.nextId := started], engine.nextId + 1)
  }

  /** A container that has stopped but could not be removed. */
  function Halted(engine: Engine, id: nat): Engine {
    if id in engine.containers
    then engine.(containers := engine.containers[id := engine.containers[id].(state := "exited")])
    else engine
  }

  ghost function ExecAll(engine: Engine, calls: seq<RuntimeCall>): Engine {
    if calls == [] then engine else Exec(ExecAll(engine, calls[..|calls| - 1]), calls[|calls| - 1])
  }

  lemma {:induction false} ExecAllConcat(engine: Engine, a: seq<RuntimeCall>, b: seq<RuntimeCall>)
    ensures ExecAll(engine, a + b) == ExecAll(ExecAll(engine, a), b)
  {
    if b == [] {
      assert a + b == a;
    } else {
      ExecAllConcat(engine, a, b[..|b| - 1]);
      assert (a + b)[..|a + b| - 1] == a + b[..|b| - 1];
    }
  }

  lemma ExecOne(engine: Engine, call: RuntimeCall)
    ensures ExecAll(engine, [call]) == Exec(engine, call)
  {
    assert [call][..0] == [];
  }

  /** The agent asked for exactly `plan`, and a working engine has carried it out. */
  ghost predicate Asked(reliable: bool, calls: seq<RuntimeCall>, engine: Engine, calls': seq<RuntimeCall>,
                        engine': Engine,
                        plan: seq<RuntimeCall>)
  {
    calls' == calls + plan && (reliable ==> engine' == ExecAll(engine, plan))
  }

  lemma AskedThen(reliable: bool, c0: seq<RuntimeCall>, e0: Engine, c1: seq<RuntimeCall>, e1: Engine,
                  c2: seq<RuntimeCall>, e2: Engine, first: seq<RuntimeCall>, second: seq<RuntimeCall>)
    requires Asked(reliable, c0, e0, c1, e1, first) && Asked(reliable, c1, e1, c2, e2, second)
    ensures Asked(reliable, c0, e0, c2, e2, first + second)
  {
    ExecAllConcat(e0, first, second);
  }

  class Runtime {
    const reliable: bool
    var engine: Engine
    var calls: seq<RuntimeCall>

    constructor (reliable: bool)
      ensures WellFormed(engine) && this.reliable == reliable && engine.containers == map[] && calls == []
    {
      this.reliable, engine, calls := reliable, Engine(map[], 0), [];
    }

    method RunContainer(podName: string, container: string) returns (ok: bool)
      requires WellFormed(engine)
      modifies this
      ensures WellFormed(engine)
      ensures Asked(reliable, old(calls), old(engine), calls, engine, [Run(ContainerName(podName, container), podName)])
      ensures engine == old(engine) || engine == Exec(old(engine), Run(ContainerName(podName, container), podName))
    {
      var name := ContainerName(podName, container);
      ExecOne(engine, Run(name, podName));
      calls := calls + [Run(name, podName)];
      var lost: bool := *;
      if (!reliable && lost) || (exists id :: id in engine.containers && engine.containers[id].name == name) {
        return false;
      }
      engine := Engine(engine.containers[engine.nextId := ContainerInfo(engine.nextId, name, "running", podName)],
                       engine.nextId + 1);
      ok := true;
    }

    method StopContainer(id: nat) returns (ok: bool)
      requires WellFormed(engine)
      modifies this
      ensures WellFormed(engine)
      ensures Asked(reliable, old(calls), old(engine), calls, engine, [Stop(id)])
      ensures engine == old(engine) || engine == Exec(old(engine), Stop(id)) || engine == Halted(old(engine), id)
      ensures ok ==>
                id in old(engine).containers
                  && (engine == Exec(old(engine), Stop(id)) || engine == Halted(old(engine), id))
    {
      ExecOne(engine, Stop(id));
      calls := calls + [Stop(id)];
      var lost: bool := *;
      if !reliable && lost {
        return false;
      }
      ok := id in engine.containers;
      var removed: bool := *;
      if reliable || removed {
        engine := engine.(containers := engine.containers - {id});
      } else if ok {
        engine := engine.(containers := engine.containers[id := engine.containers[id].(state := "exited")]);
      }
    }

    /** The labelled containers, running or not, in any order. */
    method ListContainers() returns (ok: bool, listed: seq<ContainerInfo>)
      requires WellFormed(engine)
      ensures reliable ==> ok
      ensures ok ==> Listing(engine.containers, listed)
    {
      listed := [];
      ok := true;
      var lost: bool := *;
      if !reliable && lost {
        return false, listed;
      }
      var rest := engine.containers.Keys;
      while rest != {}
        invariant rest <= engine.containers.Keys
        invariant forall i :: 0 <= i < |listed| ==>
          listed[i].id in engine.containers && engine.containers[listed[i].id] == listed[i] && listed[i].podName != ""
        invariant forall id :: id in engine.containers && engine.containers[id].podName != "" ==>
          id in rest || engine.containers[id] in listed
      {
        var id :| id in rest;
        if engine.containers[id].podName != "" {
          listed := listed + [engine.containers[id]];
        }
        rest := rest - {id};
      }
    }
  }

  ghost predicate Listing(containers: Containers, listed: seq<ContainerInfo>) {
    && (forall i :: 0 <= i < |listed| ==>
         listed[i].id in containers && containers[listed[i].id] == listed[i] && listed[i].podName != "")
    && (forall id :: id in containers && containers[id].podName != "" ==> containers[id] in listed)
  }

  /** The listed containers of one pod, in list order. */
  function OfPod(listed: seq<ContainerInfo>, podName: string): seq<ContainerInfo> {
    if listed == [] then []
    else
      var rest, last := OfPod(listed[..|listed| - 1], podName), listed[|listed| - 1];
      if last.podName == podName then rest + [last] else rest
  }

  /** The first listed container of a name. */
  function Find(running: seq<ContainerInfo>, name: string): (found: Option<ContainerInfo>)
    ensures found.Some? ==> found.value in running && found.value.name == name
    ensures found.None? ==> forall i :: 0 <= i < |running| ==> running[i].name != name
  {
    if running == [] then None
    else if running[0].name == name then Some(running[0])
    else Find(running[1..], name)
  }

  type Probes = (string, string) -> ProbeResult

  /** The code looks for the prefix "Exit" in the state. */
  predicate NeedsRestart(probes: Probes, podName: string, container: Container, state: string) {
    || HasPrefix(state, "Exit")
    || (container.hasLivenessProbe && probes(podName, container.name) == Unhealthy)
  }

  /** What the agent asks of the runtime for one container of a pod. */
  function ContainerPlan(probes: Probes, podName: string, container: Container,
                         running: seq<ContainerInfo>): seq<RuntimeCall> {
    var name := ContainerName(podName, container.name);
    var found := Find(running, name);
    if found.None? then [Run(name, podName)]
    else if NeedsRestart(probes, podName, container, found.value.state) then [Stop(found.value.id), Run(name, podName)]
    else []
  }

  function PodPlan(probes: Probes, podName: string, containers: seq<Container>,
                   running: seq<ContainerInfo>): seq<RuntimeCall> {
    if containers == [] then []
    else
      var k := |containers| - 1;
      PodPlan(probes, podName, containers[..k], running) + ContainerPlan(probes, podName, containers[k], running)
  }

  function SyncPlan(probes: Probes, pods: seq<Pod>, listed: seq<ContainerInfo>): seq<RuntimeCall> {
    if pods == [] then []
    else
      var pod := pods[|pods| - 1];
      SyncPlan(probes, pods[..|pods| - 1], listed)
      + PodPlan(probes, pod.meta.name, pod.spec.containers, OfPod(listed, pod.meta.name))
  }

  /** What the agent writes back: the listed pod with a phase and an address. */
  function WithStatus(pod: Pod, phase: string, ip: string): Pod {
    pod.(status := PodStatus(phase, ip))
  }

  function PhaseOf(running: seq<ContainerInfo>): string {
    if running == [] then "Pending" else "Running"
  }

  /** The status PUT, skipped when the phase stays and no address is known. */
  function StatusWrite(pod: Pod, running: seq<ContainerInfo>, ip: string): seq<Request<Pod>> {
    if pod.status.phase != PhaseOf(running) || ip != ""
    then [Update(pod.meta.name, WithStatus(pod, PhaseOf(running), ip))] else []
  }

  /** What inspecting a container yields during a pass: its address, or nothing. */
  type Addresses = nat -> string

  /** The address found for one container of a pod: that of the first listed one of its name, unless that has exited. */
  function Learnt(addresses: Addresses, podName: string, spec: Container, running: seq<ContainerInfo>): string {
    var found := Find(running, ContainerName(podName, spec.name));
    if found.Some? && !HasPrefix(found.value.state, "Exit") then addresses(found.value.id) else ""
  }

  /** The known address, replaced by every one that is found. */
  function AddressAfter(addresses: Addresses, known: string, podName: string, specs: seq<Container>,
                        running: seq<ContainerInfo>): string
  {
    if specs == [] then known
    else
      var k := |specs| - 1;
      var learnt := Learnt(addresses, podName, specs[k], running);
      if learnt != "" then learnt else AddressAfter(addresses, known, podName, specs[..k], running)
  }

  lemma {:induction false} AddressKeptOrFound(addresses: Addresses, known: string, podName: string,
                                              specs: seq<Container>, running: seq<ContainerInfo>)
    ensures var ip := AddressAfter(addresses, known, podName, specs, running); ip == known || ip != ""
  {
    if specs == [] {
    } else {
      AddressKeptOrFound(addresses, known, podName, specs[..|specs| - 1], running);
    }
  }

  function AddressOf(addresses: Addresses, pod: Pod, running: seq<ContainerInfo>): string {
    AddressAfter(addresses, pod.status.podIP, pod.meta.name, pod.spec.containers, running)
  }

  function StatusWrites(addresses: Addresses, pods: seq<Pod>, listed: seq<ContainerInfo>): seq<Request<Pod>> {
    if pods == [] then []
    else
      var k := |pods| - 1;
      var running := OfPod(listed, pods[k].meta.name);
      StatusWrites(addresses, pods[..k], listed) + StatusWrite(pods[k], running, AddressOf(addresses, pods[k], running))
  }

  /** The listed pods of a node, in list order. */
  function Assigned(pods: seq<Pod>, nodeName: string): seq<Pod> {
    if pods == [] then []
    else
      var rest, last := Assigned(pods[..|pods| - 1], nodeName), pods[|pods| - 1];
      if last.spec.nodeName == nodeName then rest + [last] else rest
  }

  function PodNames(pods: seq<Pod>): set<string> {
    set i | 0 <= i < |pods| :: pods[i].meta.name
  }

  /** The map the agent builds from a listing: pod name to its listed containers. */
  ghost predicate Grouped(groups: map<string, seq<ContainerInfo>>, listed: seq<ContainerInfo>) {
    forall name :: if name in groups then groups[name] == OfPod(listed, name) && groups[name] != []
                   else OfPod(listed, name) == []
  }

  ghost predicate StopsOther(pods: seq<Pod>, listed: seq<ContainerInfo>, call: RuntimeCall) {
    exists x :: x in listed && call == Stop(x.id) && x.podName !in PodNames(pods)
  }

  /** `cleanup` stops exactly the listed containers of pods other than these. */
  ghost predicate Cleanup(pods: seq<Pod>, listed: seq<ContainerInfo>, cleanup: seq<RuntimeCall>) {
    && (forall i :: 0 <= i < |cleanup| ==> StopsOther(pods, listed, cleanup[i]))
    && (forall j :: 0 <= j < |listed| && listed[j].podName !in PodNames(pods) ==> Stop(listed[j].id) in cleanup)
  }

  lemma {:induction false} AssignedOf(pods: seq<Pod>, nodeName: string)
    ensures forall pod :: pod in Assigned(pods, nodeName) <==> pod in pods && pod.spec.nodeName == nodeName
    ensures (forall i, j :: 0 <= i < j < |pods| ==> pods[i].meta.name != pods[j].meta.name) ==>
              forall i, j :: 0 <= i < j < |Assigned(pods, nodeName)|
                             ==> Assigned(pods, nodeName)[i].meta.name != Assigned(pods, nodeName)[j].meta.name
  {
    if pods == [] {
    } else {
      var k := |pods| - 1;
      AssignedOf(pods[..k], nodeName);
      assert pods == pods[..k] + [pods[k]];
      forall i | 0 <= i < |Assigned(pods[..k], nodeName)| ensures Assigned(pods[..k], nodeName)[i] in pods[..k] {
      }
    }
  }

  lemma {:induction false} OfPodOf(listed: seq<ContainerInfo>, podName: string)
    ensures forall x :: x in OfPod(listed, podName) <==> x in listed && x.podName == podName
  {
    if listed == [] {
    } else {
      var k := |listed| - 1;
      OfPodOf(listed[..k], podName);
      assert listed == listed[..k] + [listed[k]];
    }
  }

  /** What an agent can see change: its calls and the engine, its requests and the pods. */
  datatype Moment = Moment(calls: seq<RuntimeCall>, engine: Engine,
                           history: seq<Exchange<Pod>>, objects: map<string, Pod>)

  /** Between two moments the agent carried out the plans of these pods on this listing. */
  ghost predicate Handled(probes: Probes, addresses: Addresses, steadyEngine: bool, steadyApi: bool, from: Moment,
                          to: Moment, pods: seq<Pod>, listed: seq<ContainerInfo>)
  {
    && Asked(steadyEngine, from.calls, from.engine, to.calls, to.engine, SyncPlan(probes, pods, listed))
    && Issued(steadyApi, from.objects, from.history, to.objects, to.history, StatusWrites(addresses, pods, listed))
  }

  lemma HandledNext(probes: Probes, addresses: Addresses, steadyEngine: bool, steadyApi: bool, from: Moment,
                    mid: Moment, to: Moment, pods: seq<Pod>, i: nat, listed: seq<ContainerInfo>)
    requires i < |pods| && Handled(probes, addresses, steadyEngine, steadyApi, from, mid, pods[..i], listed)
    requires var name := pods[i].meta.name; var running := OfPod(listed, name);
             && Asked(steadyEngine, mid.calls, mid.engine, to.calls, to.engine,
                      PodPlan(probes, name, pods[i].spec.containers, running))
             && Issued(steadyApi, mid.objects, mid.history, to.objects, to.history,
                       StatusWrite(pods[i], running, AddressOf(addresses, pods[i], running)))
    ensures Handled(probes, addresses, steadyEngine, steadyApi, from, to, pods[..i + 1], listed)
  {
    var name := pods[i].meta.name;
    var running := OfPod(listed, name);
    assert pods[..i + 1][..i] == pods[..i];
    assert Asked(steadyEngine, from.calls, from.engine, to.calls, to.engine,
                 SyncPlan(probes, pods[..i + 1], listed)) by {
      AskedThen(steadyEngine, from.calls, from.engine, mid.calls, mid.engine, to.calls, to.engine,
                SyncPlan(probes, pods[..i], listed), PodPlan(probes, name, pods[i].spec.containers, running));
    }
    assert Issued(steadyApi, from.objects, from.history, to.objects, to.history,
                  StatusWrites(addresses, pods[..i + 1], listed)) by {
      IssuedThen(steadyApi, from.objects, from.history, mid.objects, mid.history, to.objects, to.history,
                 StatusWrites(addresses, pods[..i], listed),
                 StatusWrite(pods[i], running, AddressOf(addresses, pods[i], running)));
    }
  }

  lemma NextContainer(reliable: bool, c0: seq<RuntimeCall>, e0: Engine, c1: seq<RuntimeCall>, e1: Engine,
                      c2: seq<RuntimeCall>, e2: Engine, probes: Probes, podName: string, specs: seq<Container>, i: nat,
                      running: seq<ContainerInfo>)
    requires i < |specs|
    requires Asked(reliable, c0, e0, c1, e1, PodPlan(probes, podName, specs[..i], running))
    requires Asked(reliable, c1, e1, c2, e2, ContainerPlan(probes, podName, specs[i], running))
    ensures Asked(reliable, c0, e0, c2, e2, PodPlan(probes, podName, specs[..i + 1], running))
  {
    assert specs[..i + 1][..i] == specs[..i];
    AskedThen(reliable, c0, e0, c1, e1, c2, e2, PodPlan(probes, podName, specs[..i], running),
              ContainerPlan(probes, podName, specs[i], running));
  }

  class Agent {
    const nodeName: string
    const podClient: Client<Pod>
    const runtime: Runtime
    const probes: Probes
    const addresses: Addresses

    constructor (nodeName: string, podClient: Client<Pod>, runtime: Runtime, probes: Probes, addresses: Addresses)
      ensures this.nodeName == nodeName && this.podClient == podClient && this.runtime == runtime
      ensures this.probes == probes && this.addresses == addresses
    {
      this.nodeName, this.podClient, this.runtime := nodeName, podClient, runtime;
      this.probes, this.addresses := probes, addresses;
    }

    /** The requests and runtime calls of one pod depend on the listing alone. */
    method ReconcilePod(pod: Pod, running: seq<ContainerInfo>)
      requires WellFormed(runtime.engine)
      modifies podClient, runtime
      ensures WellFormed(runtime.engine)
      ensures Asked(runtime.reliable, old(runtime.calls), old(runtime.engine), runtime.calls, runtime.engine,
                    PodPlan(probes, pod.meta.name, pod.spec.containers, running))
      ensures Issued(podClient.reliable, old(podClient.objects), old(podClient.history), podClient.objects,
                     podClient.history, StatusWrite(pod, running, AddressOf(addresses, pod, running)))
    {
      var podIP := ReconcileContainers(pod, running);
      var newPhase := "Pending";
      if |running| > 0 {
        newPhase := "Running";
      }
      IssuedNothing(podClient.reliable, podClient.objects, podClient.history);
      if pod.status.phase != newPhase || podIP != "" {
        var written := pod.(status := PodStatus(newPhase, podIP));
        var ok := podClient.Send(Update(written.meta.name, written));
      }
    }

    /** The loop over a pod's containers, and the address it has learnt at the end. */
    method ReconcileContainers(pod: Pod, running: seq<ContainerInfo>) returns (podIP: string)
      requires WellFormed(runtime.engine)
      modifies runtime
      ensures WellFormed(runtime.engine)
      ensures Asked(runtime.reliable, old(runtime.calls), old(runtime.engine), runtime.calls, runtime.engine,
                    PodPlan(probes, pod.meta.name, pod.spec.containers, running))
      ensures podIP == AddressOf(addresses, pod, running)
    {
      podIP := pod.status.podIP;
      var podName, specs := pod.meta.name, pod.spec.containers;
      for i := 0 to |specs|
        invariant WellFormed(runtime.engine)
        invariant Asked(runtime.reliable, old(runtime.calls), old(runtime.engine), runtime.calls, runtime.engine,
                        PodPlan(probes, podName, specs[..i], running))
        invariant podIP == AddressAfter(addresses, pod.status.podIP, podName, specs[..i], running)
      {
        ghost var calls, engine := runtime.calls, runtime.engine;
        assert specs[..i + 1][..i] == specs[..i];
        var learnt := ReconcileContainer(podName, specs[i], running);
        if learnt != "" {
          podIP := learnt;
        }
        NextContainer(runtime.reliable, old(runtime.calls), old(runtime.engine), calls, engine, runtime.calls,
                      runtime.engine,
                      probes, podName, specs, i, running);
      }
      assert specs[..|specs|] == specs;
    }

    /** The body of the loop over a pod's containers. */
    method ReconcileContainer(podName: string, spec: Container, running: seq<ContainerInfo>) returns (ip: string)
      requires WellFormed(runtime.engine)
      modifies runtime
      ensures WellFormed(runtime.engine)
      ensures Asked(runtime.reliable, old(runtime.calls), old(runtime.engine), runtime.calls, runtime.engine,
                    ContainerPlan(probes, podName, spec, running))
      ensures ip == Learnt(addresses, podName, spec, running)
    {
      ip := "";
      var expectedName := ContainerName(podName, spec.name);
      var found := false;
      var i := 0;
      while i < |running|
        invariant i <= |running| && !found && ip == ""
        invariant Find(running, expectedName) == Find(running[i..], expectedName)
        invariant unchanged(runtime)
      {
        var rc := running[i];
        assert running[i..][1..] == running[i + 1..];
        if rc.name == expectedName {
          found := true;
          var stop := HasPrefix(rc.state, "Exit");
          if !stop {
            ip := addresses(rc.id);
            stop := spec.hasLivenessProbe && probes(podName, spec.name) == Unhealthy;
          }
          if stop {
            ExecAllConcat(runtime.engine, [Stop(rc.id)], [Run(expectedName, podName)]);
            var stopped := runtime.StopContainer(rc.id);
            var started := runtime.RunContainer(podName, spec.name);
          }
          break;
        }
        i := i + 1;
      }
      if !found {
        var started := runtime.RunContainer(podName, spec.name);
      }
    }

    /** A pass: the plan of every assigned pod on one listing, then a stop for every listed
        container of any other pod. */
    method RunSync() returns (ghost pods: seq<Pod>, ghost names: seq<string>, ghost listed: seq<ContainerInfo>,
                              ghost cleanup: seq<RuntimeCall>)
      requires WellFormed(runtime.engine) && Keyed(podClient.objects)
      modifies podClient, runtime
      ensures WellFormed(runtime.engine)
      ensures Asked(runtime.reliable, old(runtime.calls), old(runtime.engine), runtime.calls, runtime.engine,
                    SyncPlan(probes, Assigned(pods, nodeName), listed) + cleanup)
      ensures (podClient.reliable && runtime.reliable) || Assigned(pods, nodeName) != [] || cleanup != [] ==>
                && Lists(old(podClient.objects), names, pods)
                && Listing(old(runtime.engine).containers, listed)
                && Cleanup(Assigned(pods, nodeName), listed, cleanup)
      ensures Issued(podClient.reliable, old(podClient.objects), old(podClient.history), podClient.objects,
                     podClient.history, StatusWrites(addresses, Assigned(pods, nodeName), listed))
    {
      pods, listed, cleanup := [], [], [];
      IssuedNothing(podClient.reliable, podClient.objects, podClient.history);
      var podsListed, podItems, keys := podClient.List();
      names := keys;
      if !podsListed {
        return;
      }
      var myPods: seq<Pod> := [];
      for i := 0 to |podItems|
        invariant myPods == Assigned(podItems[..i], nodeName)
      {
        assert podItems[..i + 1][..i] == podItems[..i];
        if podItems[i].spec.nodeName == nodeName {
          myPods := myPods + [podItems[i]];
        }
      }
      assert podItems[..|podItems|] == podItems;
      var containersListed, items := runtime.ListContainers();
      if !containersListed {
        return;
      }
      pods, listed := podItems, items;
      assert forall i :: 0 <= i < |podItems| ==> names[i] == podItems[i].meta.name;
      AssignedOf(podItems, nodeName);
      var runningPods := GroupByPod(items);
      ghost var groups := runningPods;
      runningPods := ReconcilePods(myPods, items, runningPods);
      ghost var mid := Now();
      cleanup := StopOthers(runningPods);
      AskedThen(runtime.reliable, old(runtime.calls), old(runtime.engine), mid.calls, mid.engine, runtime.calls,
                runtime.engine,
                SyncPlan(probes, myPods, items), cleanup);
      CleanupOf(myPods, items, groups, runningPods, cleanup);
    }

    method GroupByPod(items: seq<ContainerInfo>) returns (runningPods: map<string, seq<ContainerInfo>>)
      ensures Grouped(runningPods, items)
    {
      runningPods := map[];
      for i := 0 to |items|
        invariant Grouped(runningPods, items[..i])
      {
        assert items[..i + 1][..i] == items[..i];
        var podName := items[i].podName;
        var sofar := if podName in runningPods then runningPods[podName] else [];
        runningPods := runningPods[podName := sofar + [items[i]]];
      }
      assert items[..|items|] == items;
    }

    ghost function Now(): Moment
      reads podClient, runtime
    {
      Moment(runtime.calls, runtime.engine, podClient.history, podClient.objects)
    }

    /** The loop over the assigned pods; each pod's entry of the map is dropped once handled. */
    method ReconcilePods(myPods: seq<Pod>, items: seq<ContainerInfo>, groups: map<string, seq<ContainerInfo>>)
      returns (runningPods: map<string, seq<ContainerInfo>>)
      requires WellFormed(runtime.engine) && Grouped(groups, items)
      requires forall i, j :: 0 <= i < j < |myPods| ==> myPods[i].meta.name != myPods[j].meta.name
      modifies podClient, runtime
      ensures WellFormed(runtime.engine) && runningPods == groups - PodNames(myPods)
      ensures Handled(probes, addresses, runtime.reliable, podClient.reliable, old(Now()), Now(), myPods, items)
    {
      runningPods := groups;
      IssuedNothing(podClient.reliable, podClient.objects, podClient.history);
      for i := 0 to |myPods|
        invariant WellFormed(runtime.engine)
        invariant Handled(probes, addresses, runtime.reliable, podClient.reliable, old(Now()), Now(), myPods[..i],
                          items)
        invariant runningPods == groups - PodNames(myPods[..i])
      {
        ghost var mid := Now();
        var pod := myPods[i];
        EntryOf(groups, items, myPods, i);
        var running := if pod.meta.name in runningPods then runningPods[pod.meta.name] else [];
        ReconcilePod(pod, running);
        runningPods := runningPods - {pod.meta.name};
        HandledNext(probes, addresses, runtime.reliable, podClient.reliable, old(Now()), mid, Now(), myPods, i, items);
      }
      assert myPods[..|myPods|] == myPods;
    }

    /** The loop over what is left of the map. */
    method StopOthers(runningPods: map<string, seq<ContainerInfo>>) returns (ghost cleanup: seq<RuntimeCall>)
      requires WellFormed(runtime.engine)
      modifies runtime
      ensures WellFormed(runtime.engine)
      ensures Asked(runtime.reliable, old(runtime.calls), old(runtime.engine), runtime.calls, runtime.engine, cleanup)
      ensures forall i :: 0 <= i < |cleanup| ==> StopsOneOf(runningPods, cleanup[i])
      ensures forall name, x :: name in runningPods && name != "" && x in runningPods[name] ==> Stop(x.id) in cleanup
    {
      cleanup := [];
      var rest := runningPods.Keys;
      while rest != {}
        invariant rest <= runningPods.Keys && WellFormed(runtime.engine)
        invariant Asked(runtime.reliable, old(runtime.calls), old(runtime.engine), runtime.calls, runtime.engine,
                        cleanup)
        invariant forall i :: 0 <= i < |cleanup| ==> StopsOneOf(runningPods, cleanup[i])
        invariant forall name, x :: name in runningPods && name != "" && name !in rest && x in runningPods[name] ==>
                    Stop(x.id) in cleanup
      {
        var podName :| podName in rest;
        if podName != "" {
          ghost var calls, engine := runtime.calls, runtime.engine;
          ghost var stops := StopGroup(runningPods[podName]);
          AskedThen(runtime.reliable, old(runtime.calls), old(runtime.engine), calls, engine, runtime.calls,
                    runtime.engine, cleanup, stops);
          cleanup := cleanup + stops;
        }
        rest := rest - {podName};
      }
    }

    /** The inner loop: every container of one group is stopped. */
    method StopGroup(containers: seq<ContainerInfo>) returns (ghost stops: seq<RuntimeCall>)
      requires WellFormed(runtime.engine)
      modifies runtime
      ensures WellFormed(runtime.engine)
      ensures Asked(runtime.reliable, old(runtime.calls), old(runtime.engine), runtime.calls, runtime.engine, stops)
      ensures |stops| == |containers| && forall k :: 0 <= k < |stops| ==> stops[k] == Stop(containers[k].id)
    {
      stops := [];
      for k := 0 to |containers|
        invariant WellFormed(runtime.engine)
        invariant Asked(runtime.reliable, old(runtime.calls), old(runtime.engine), runtime.calls, runtime.engine, stops)
        invariant |stops| == k && forall j :: 0 <= j < k ==> stops[j] == Stop(containers[j].id)
      {
        ghost var calls, engine := runtime.calls, runtime.engine;
        var stopped := runtime.StopContainer(containers[k].id);
        AskedThen(runtime.reliable, old(runtime.calls), old(runtime.engine), calls, engine, runtime.calls,
                  runtime.engine,
                  stops, [Stop(containers[k].id)]);
        stops := stops + [Stop(containers[k].id)];
      }
    }
  }

  ghost predicate StopsOneOf(groups: map<string, seq<ContainerInfo>>, call: RuntimeCall) {
    exists name, x :: name in groups && name != "" && x in groups[name] && call == Stop(x.id)
  }

  lemma CleanupOf(pods: seq<Pod>, listed: seq<ContainerInfo>, groups: map<string, seq<ContainerInfo>>,
                  rest: map<string, seq<ContainerInfo>>, cleanup: seq<RuntimeCall>)
    requires Grouped(groups, listed) && rest == groups - PodNames(pods)
    requires forall j :: 0 <= j < |listed| ==> listed[j].podName != ""
    requires forall i :: 0 <= i < |cleanup| ==> StopsOneOf(rest, cleanup[i])
    requires forall name, x :: name in rest && name != "" && x in rest[name] ==> Stop(x.id) in cleanup
    ensures Cleanup(pods, listed, cleanup)
  {
    forall i | 0 <= i < |cleanup| ensures StopsOther(pods, listed, cleanup[i]) {
      assert StopsOneOf(rest, cleanup[i]);
      var name, x :| name in rest && name != "" && x in rest[name] && cleanup[i] == Stop(x.id);
      OfPodOf(listed, name);
      assert name in groups && x in OfPod(listed, name);
    }
    forall j | 0 <= j < |listed| && listed[j].podName !in PodNames(pods) ensures Stop(listed[j].id) in cleanup {
      var name := listed[j].podName;
      OfPodOf(listed, name);
      assert listed[j] in OfPod(listed, name);
      assert name in groups;
      assert listed[j] in rest[name];
    }
  }

  /** The entry a pod still has in the map when its turn comes. */
  lemma EntryOf(groups: map<string, seq<ContainerInfo>>, listed: seq<ContainerInfo>, pods: seq<Pod>, i: nat)
    requires Grouped(groups, listed) && i < |pods|
    requires forall i, j :: 0 <= i < j < |pods| ==> pods[i].meta.name != pods[j].meta.name
    ensures var rest, name := groups - PodNames(pods[..i]), pods[i].meta.name;
            && OfPod(listed, name) == (if name in rest then rest[name] else [])
            && rest - {name} == groups - PodNames(pods[..i + 1])
  {
    var name := pods[i].meta.name;
    assert name !in PodNames(pods[..i]);
    assert PodNames(pods[..i + 1]) == PodNames(pods[..i]) + {name};
  }
}
