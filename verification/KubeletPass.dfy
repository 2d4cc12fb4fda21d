/** What a pass of the kubelet achieves on a working container engine. */
module KubeletPass {
  import opened Api
  import opened Kubelet

  /** The containers a pod's pass restarts. */
  ghost predicate Restarted(probes: Probes, podName: string, specs: seq<Container>, x: ContainerInfo) {
    && x.podName == podName
    && exists i :: 0 <= i < |specs| && x.name == ContainerName(podName, specs[i].name)
                   && NeedsRestart(probes, podName, specs[i], x.state)
  }

  /** No container of another pod, or of none, has a name this pod's containers need. */
  ghost predicate NamesFree(podName: string, specs: seq<Container>, present: Containers) {
    forall id, i :: id in present && 0 <= i < |specs| && present[id].name == ContainerName(podName, specs[i].name)
                    ==> present[id].podName == podName
  }

  /** The pod has a container of its own under every name its spec asks for. */
  ghost predicate HasContainers(podName: string, specs: seq<Container>, present: Containers) {
    forall i :: 0 <= i < |specs| ==> HasContainer(podName, specs[i].name, present)
  }

  ghost predicate HasContainer(podName: string, container: string, present: Containers) {
    exists id :: id in present && present[id].name == ContainerName(podName, container)
      && present[id].podName == podName
  }

  ghost predicate ListedOf(running: seq<ContainerInfo>, podName: string, present: Containers) {
    && (forall x :: x in running ==> x.podName == podName && x.id in present && present[x.id] == x)
    && (forall id :: id in present && present[id].podName == podName ==> present[id] in running)
  }

  predicate DistinctPods(pods: seq<Pod>) {
    forall i, j :: 0 <= i < j < |pods| ==> pods[i].meta.name != pods[j].meta.name
  }

  /** No two containers of different pods need the same name. */
  predicate NamesApart(pods: seq<Pod>) {
    forall i, j, k, l :: 0 <= i < |pods| && 0 <= j < |pods| && i != j
                         && 0 <= k < |pods[i].spec.containers| && 0 <= l < |pods[j].spec.containers|
      ==> ContainerName(pods[i].meta.name, pods[i].spec.containers[k].name)
          != ContainerName(pods[j].meta.name, pods[j].spec.containers[l].name)
  }

  ghost predicate AllNamesFree(pods: seq<Pod>, present: Containers) {
    forall i :: 0 <= i < |pods| ==> NamesFree(pods[i].meta.name, pods[i].spec.containers, present)
  }

  /** Every assigned pod has a container of its own for everything in its spec. */
  ghost predicate AllHaveContainers(pods: seq<Pod>, present: Containers) {
    forall i :: 0 <= i < |pods| ==> HasContainers(pods[i].meta.name, pods[i].spec.containers, present)
  }

  ghost predicate SomeRestarts(probes: Probes, pods: seq<Pod>, x: ContainerInfo) {
    exists i :: 0 <= i < |pods| && Restarted(probes, pods[i].meta.name, pods[i].spec.containers, x)
  }

  /** Some assigned pod asks for a container of this name and pod. */
  ghost predicate Wanted(pods: seq<Pod>, name: string, podName: string) {
    exists i, k :: 0 <= i < |pods| && 0 <= k < |pods[i].spec.containers|
                   && podName == pods[i].meta.name && name == ContainerName(podName, pods[i].spec.containers[k].name)
  }

  /** What a pass leaves of a container that was there before: all of it, unless its pod is gone or
      its pod's pass restarts it. Containers without a pod label are never touched. */
  ghost predicate Survives(probes: Probes, pods: seq<Pod>, x: ContainerInfo) {
    x.podName == "" || (x.podName in PodNames(pods) && !SomeRestarts(probes, pods, x))
  }

  // ----- What calls do to an engine

  lemma CallKeeps(engine: Engine, call: RuntimeCall)
    requires WellFormed(engine)
    ensures var after := Exec(engine, call);
            && WellFormed(after) && engine.nextId <= after.nextId
            && (forall id :: id in engine.containers ==> (id in after.containers <==> call != Stop(id)))
            && (forall id :: id in engine.containers && id in after.containers ==>
                 after.containers[id] == engine.containers[id])
            && (forall id :: id in after.containers && id !in engine.containers ==>
                 && engine.nextId <= id && after.containers[id].state == "running"
                 && call == Run(after.containers[id].name, after.containers[id].podName))
  {
  }

  /** Containers go only by a stop, come only by a run, and otherwise stay as they are. */
  lemma {:induction false} CallsKeep(engine: Engine, calls: seq<RuntimeCall>)
    requires WellFormed(engine)
    ensures var after := ExecAll(engine, calls);
            && WellFormed(after) && engine.nextId <= after.nextId
            && (forall id :: id in engine.containers ==> (id in after.containers <==> Stop(id) !in calls))
            && (forall id :: id in engine.containers && id in after.containers ==>
                 after.containers[id] == engine.containers[id])
            && (forall id :: id in after.containers && id !in engine.containers ==>
                 && engine.nextId <= id && after.containers[id].state == "running"
                 && Run(after.containers[id].name, after.containers[id].podName) in calls)
  {
    if calls == [] {
    } else {
      var k := |calls| - 1;
      CallsKeep(engine, calls[..k]);
      CallKeeps(ExecAll(engine, calls[..k]), calls[k]);
      assert forall call :: call in calls <==> call in calls[..k] || call == calls[k] by {
        assert calls == calls[..k] + [calls[k]];
      }
    }
  }

  /** Every stop is of a container that was there before, and the next call runs one under its name. */
  ghost predicate Follows(calls: seq<RuntimeCall>, present: Containers) {
    && (forall j :: 0 <= j < |calls| && calls[j].Stop? ==> calls[j].id in present)
    && (forall j :: 0 <= j < |calls| - 1 && calls[j].Stop? ==>
         calls[j + 1].Run? && calls[j + 1].name == present[calls[j].id].name)
  }

  ghost predicate Paired(calls: seq<RuntimeCall>, present: Containers) {
    Follows(calls, present) && (calls != [] ==> calls[|calls| - 1].Run?)
  }

  lemma PairedConcat(a: seq<RuntimeCall>, b: seq<RuntimeCall>, present: Containers)
    requires Paired(a, present) && Paired(b, present)
    ensures Paired(a + b, present)
  {
    forall j | 0 <= j < |a + b| - 1 && (a + b)[j].Stop?
      ensures (a + b)[j + 1].Run? && (a + b)[j].id in present && (a + b)[j + 1].name == present[(a + b)[j].id].name
    {
      if j < |a| {
        assert a[j].Stop? && j != |a| - 1;
      } else {
        assert (a + b)[j] == b[j - |a|] && (a + b)[j + 1] == b[j + 1 - |a|];
      }
    }
  }

  /** The calls run a container under the name, or leave one that has it. */
  ghost predicate Provides(calls: seq<RuntimeCall>, present: Containers, name: string) {
    || (exists podName :: Run(name, podName) in calls)
    || (exists id :: id in present && present[id].name == name && Stop(id) !in calls)
  }

  /** The last call has just taken the name away. */
  ghost predicate Vacates(calls: seq<RuntimeCall>, present: Containers, name: string) {
    calls != [] && var last := calls[|calls| - 1]; last.Stop? && last.id in present && present[last.id].name == name
  }

  lemma {:induction false} NameHeld(engine: Engine, calls: seq<RuntimeCall>, name: string)
    requires WellFormed(engine) && Follows(calls, engine.containers)
    requires Provides(calls, engine.containers, name) && !Vacates(calls, engine.containers, name)
    ensures NameUsed(ExecAll(engine, calls).containers, name)
  {
    if calls == [] {
      var id :| id in engine.containers && engine.containers[id].name == name;
    } else {
      var k := |calls| - 1;
      if calls[k].Run? && calls[k].name == name {
        RunHolds(ExecAll(engine, calls[..k]), name, calls[k].podName);
      } else {
        ProvidedBefore(engine.containers, calls, name);
        NameHeld(engine, calls[..k], name);
        CallsKeep(engine, calls[..k]);
        StillHeld(engine.containers, ExecAll(engine, calls[..k]), calls[k], name);
      }
    }
  }

  /** Unless the last call runs a container of this name, the name was provided for without it. */
  lemma ProvidedBefore(present: Containers, calls: seq<RuntimeCall>, name: string)
    requires calls != [] && Follows(calls, present) && Provides(calls, present, name) && !Vacates(calls, present, name)
    requires var last := calls[|calls| - 1]; !(last.Run? && last.name == name)
    ensures var front := calls[..|calls| - 1];
            Follows(front, present) && Provides(front, present, name) && !Vacates(front, present, name)
  {
    var k := |calls| - 1;
    var front, last := calls[..k], calls[k];
    assert forall call :: call in calls <==> call in front || call == last by {
      assert calls == front + [last];
    }
    assert forall j :: 0 <= j < k ==> front[j] == calls[j];
    assert front != [] && calls[k - 1].Stop? ==> calls[k - 1 + 1].name == present[calls[k - 1].id].name;
  }

  lemma StillHeld(present: Containers, mid: Engine, last: RuntimeCall, name: string)
    requires WellFormed(mid) && NameUsed(mid.containers, name)
    requires forall id :: id in present && id in mid.containers ==> mid.containers[id] == present[id]
    requires last.Stop? ==> last.id in present && present[last.id].name != name
    ensures NameUsed(Exec(mid, last).containers, name)
  {
    var id :| id in mid.containers && mid.containers[id].name == name;
    CallKeeps(mid, last);
    assert id in Exec(mid, last).containers && Exec(mid, last).containers[id].name == name;
  }

  lemma RunHolds(engine: Engine, name: string, podName: string)
    ensures NameUsed(Exec(engine, Run(name, podName)).containers, name)
  {
    var after := Exec(engine, Run(name, podName));
    if !NameUsed(engine.containers, name) {
      assert after.containers[engine.nextId].name == name;
    }
  }

  // ----- What a pass asks for

  lemma {:induction false} AskedForOne(probes: Probes, podName: string, specs: seq<Container>,
                                       running: seq<ContainerInfo>, call: RuntimeCall)
    returns (k: nat)
    requires call in PodPlan(probes, podName, specs, running)
    ensures k < |specs| && call in ContainerPlan(probes, podName, specs[k], running)
  {
    k := |specs| - 1;
    if call !in ContainerPlan(probes, podName, specs[k], running) {
      k := AskedForOne(probes, podName, specs[..k], running, call);
    }
  }

  lemma {:induction false} AskedByPod(probes: Probes, podName: string, specs: seq<Container>,
                                      running: seq<ContainerInfo>, k: nat, call: RuntimeCall)
    requires k < |specs| && call in ContainerPlan(probes, podName, specs[k], running)
    ensures call in PodPlan(probes, podName, specs, running)
  {
    if k == |specs| - 1 {
    } else {
      assert specs[..|specs| - 1][k] == specs[k];
      AskedByPod(probes, podName, specs[..|specs| - 1], running, k, call);
    }
  }

  /** A call in the plan of one pod. */
  ghost predicate InPlanOf(probes: Probes, pod: Pod, listed: seq<ContainerInfo>, call: RuntimeCall) {
    call in PodPlan(probes, pod.meta.name, pod.spec.containers, OfPod(listed, pod.meta.name))
  }

  lemma {:induction false} AskedForPod(probes: Probes, pods: seq<Pod>, listed: seq<ContainerInfo>, call: RuntimeCall)
    returns (i: nat)
    requires call in SyncPlan(probes, pods, listed)
    ensures i < |pods| && InPlanOf(probes, pods[i], listed, call)
  {
    i := |pods| - 1;
    if !InPlanOf(probes, pods[i], listed, call) {
      i := AskedForPod(probes, pods[..i], listed, call);
    }
  }

  lemma {:induction false} AskedByPass(probes: Probes, pods: seq<Pod>, listed: seq<ContainerInfo>, i: nat,
                                       call: RuntimeCall)
    requires i < |pods| && InPlanOf(probes, pods[i], listed, call)
    ensures call in SyncPlan(probes, pods, listed)
  {
    if i == |pods| - 1 {
    } else {
      assert pods[..|pods| - 1][i] == pods[i];
      AskedByPass(probes, pods[..|pods| - 1], listed, i, call);
    }
  }

  lemma ListedNames(before: Engine, listed: seq<ContainerInfo>, x: ContainerInfo, y: ContainerInfo)
    requires WellFormed(before) && Listing(before.containers, listed) && x in listed && y in listed && x.name == y.name
    ensures x == y
  {
  }

  /** The plan of a pod stops exactly the listed containers it has to restart. */
  lemma PodStops(probes: Probes, pod: Pod, listed: seq<ContainerInfo>, before: Engine, id: nat)
    requires WellFormed(before) && Listing(before.containers, listed)
    ensures InPlanOf(probes, pod, listed, Stop(id)) <==>
              && id in before.containers && before.containers[id].podName != ""
              && Restarted(probes, pod.meta.name, pod.spec.containers, before.containers[id])
  {
    var name, specs := pod.meta.name, pod.spec.containers;
    var running := OfPod(listed, name);
    OfPodOf(listed, name);
    if InPlanOf(probes, pod, listed, Stop(id)) {
      var k := AskedForOne(probes, name, specs, running, Stop(id));
      var x := Find(running, ContainerName(name, specs[k].name)).value;
      assert x in listed && x.id == id;
    }
    if id in before.containers && before.containers[id].podName != ""
      && Restarted(probes, name, specs, before.containers[id]) {
      var x := before.containers[id];
      var k :| 0 <= k < |specs| && x.name == ContainerName(name, specs[k].name)
        && NeedsRestart(probes, name, specs[k], x.state);
      assert x in running;
      var found := Find(running, x.name);
      ListedNames(before, listed, x, found.value);
      AskedByPod(probes, name, specs, running, k, Stop(id));
    }
  }

  lemma PassStops(probes: Probes, pods: seq<Pod>, listed: seq<ContainerInfo>, before: Engine, id: nat)
    requires WellFormed(before) && Listing(before.containers, listed)
    ensures Stop(id) in SyncPlan(probes, pods, listed) <==>
              id in before.containers && before.containers[id].podName != ""
                && SomeRestarts(probes, pods, before.containers[id])
  {
    if Stop(id) in SyncPlan(probes, pods, listed) {
      var i := AskedForPod(probes, pods, listed, Stop(id));
      PodStops(probes, pods[i], listed, before, id);
    }
    if id in before.containers && before.containers[id].podName != ""
      && SomeRestarts(probes, pods, before.containers[id]) {
      var i :| 0 <= i < |pods| && Restarted(probes, pods[i].meta.name, pods[i].spec.containers, before.containers[id]);
      PodStops(probes, pods[i], listed, before, id);
      AskedByPass(probes, pods, listed, i, Stop(id));
    }
  }

  lemma PassRuns(probes: Probes, pods: seq<Pod>, listed: seq<ContainerInfo>, name: string, podName: string)
    ensures Run(name, podName) in SyncPlan(probes, pods, listed) ==> Wanted(pods, name, podName)
  {
    if Run(name, podName) in SyncPlan(probes, pods, listed) {
      var i := AskedForPod(probes, pods, listed, Run(name, podName));
      var k := AskedForOne(probes, pods[i].meta.name, pods[i].spec.containers, OfPod(listed, pods[i].meta.name),
                           Run(name, podName));
    }
  }

  lemma ContainerPlanPaired(probes: Probes, podName: string, spec: Container, listed: seq<ContainerInfo>,
                            before: Engine)
    requires WellFormed(before) && Listing(before.containers, listed)
    ensures Paired(ContainerPlan(probes, podName, spec, OfPod(listed, podName)), before.containers)
  {
    var running := OfPod(listed, podName);
    var found := Find(running, ContainerName(podName, spec.name));
    if found.Some? {
      OfPodOf(listed, podName);
      assert found.value in listed;
    }
  }

  lemma {:induction false} PodPlanPaired(probes: Probes, podName: string, specs: seq<Container>,
                                         listed: seq<ContainerInfo>, before: Engine)
    requires WellFormed(before) && Listing(before.containers, listed)
    ensures Paired(PodPlan(probes, podName, specs, OfPod(listed, podName)), before.containers)
  {
    if specs == [] {
    } else {
      var k, running := |specs| - 1, OfPod(listed, podName);
      PodPlanPaired(probes, podName, specs[..k], listed, before);
      ContainerPlanPaired(probes, podName, specs[k], listed, before);
      PairedConcat(PodPlan(probes, podName, specs[..k], running), ContainerPlan(probes, podName, specs[k], running),
                   before.containers);
    }
  }

  lemma {:induction false} SyncPlanPaired(probes: Probes, pods: seq<Pod>, listed: seq<ContainerInfo>, before: Engine)
    requires WellFormed(before) && Listing(before.containers, listed)
    ensures Paired(SyncPlan(probes, pods, listed), before.containers)
  {
    if pods == [] {
    } else {
      var k := |pods| - 1;
      var name, specs := pods[k].meta.name, pods[k].spec.containers;
      SyncPlanPaired(probes, pods[..k], listed, before);
      PodPlanPaired(probes, name, specs, listed, before);
      PairedConcat(SyncPlan(probes, pods[..k], listed), PodPlan(probes, name, specs, OfPod(listed, name)),
                   before.containers);
    }
  }

  /** Every name an assigned pod asks for is provided by the plan: by a run, or by a container left alone. */
  lemma PlanProvides(probes: Probes, pods: seq<Pod>, listed: seq<ContainerInfo>, before: Engine, i: nat, k: nat)
    requires WellFormed(before) && Listing(before.containers, listed)
    requires i < |pods| && k < |pods[i].spec.containers|
    ensures Provides(SyncPlan(probes, pods, listed), before.containers,
                     ContainerName(pods[i].meta.name, pods[i].spec.containers[k].name))
  {
    var podName, specs := pods[i].meta.name, pods[i].spec.containers;
    var running, name := OfPod(listed, podName), ContainerName(podName, specs[k].name);
    var plan := SyncPlan(probes, pods, listed);
    OfPodOf(listed, podName);
    var found := Find(running, name);
    if found.None? || NeedsRestart(probes, podName, specs[k], found.value.state) {
      AskedByPod(probes, podName, specs, running, k, Run(name, podName));
      AskedByPass(probes, pods, listed, i, Run(name, podName));
    } else if Stop(found.value.id) in plan {
      SyncPlanPaired(probes, pods, listed, before);
      var j :| 0 <= j < |plan| && plan[j] == Stop(found.value.id);
      assert plan[j + 1].name == name;
      assert Run(name, plan[j + 1].podName) in plan;
    }
  }

  // ----- The whole pass

  lemma OrphansRemoved(pods: seq<Pod>, listed: seq<ContainerInfo>, cleanup: seq<RuntimeCall>, before: Engine,
                       call: RuntimeCall)
    requires WellFormed(before) && Listing(before.containers, listed) && Cleanup(pods, listed, cleanup)
    ensures call in cleanup <==>
              && call.Stop? && call.id in before.containers
              && before.containers[call.id].podName != "" && before.containers[call.id].podName !in PodNames(pods)
  {
    if call in cleanup {
      var i :| 0 <= i < |cleanup| && cleanup[i] == call;
      assert StopsOther(pods, listed, cleanup[i]);
    }
    if call.Stop? && call.id in before.containers
       && before.containers[call.id].podName != "" && before.containers[call.id].podName !in PodNames(pods)
    {
      assert before.containers[call.id] in listed;
      var j :| 0 <= j < |listed| && listed[j] == before.containers[call.id];
      assert Stop(listed[j].id) in cleanup;
    }
  }

  lemma StoppedOrNot(probes: Probes, pods: seq<Pod>, listed: seq<ContainerInfo>, cleanup: seq<RuntimeCall>,
                     before: Engine, id: nat)
    requires WellFormed(before) && Listing(before.containers, listed) && Cleanup(pods, listed, cleanup)
    requires id in before.containers
    ensures Stop(id) in SyncPlan(probes, pods, listed) + cleanup <==> !Survives(probes, pods, before.containers[id])
  {
    PassStops(probes, pods, listed, before, id);
    OrphansRemoved(pods, listed, cleanup, before, Stop(id));
    var x := before.containers[id];
    if SomeRestarts(probes, pods, x) {
      var i :| 0 <= i < |pods| && Restarted(probes, pods[i].meta.name, pods[i].spec.containers, x);
      assert x.podName in PodNames(pods);
    }
  }

  /** A fault-free pass, whatever the names: containers of unassigned pods go, fit ones stay under their ids, the rest
      are restarted; every new container is one an assigned pod asked for; and no labelled container of any other pod is
      left. */
  lemma PassSyncs(probes: Probes, pods: seq<Pod>, listed: seq<ContainerInfo>, cleanup: seq<RuntimeCall>, before: Engine)
    requires WellFormed(before) && Listing(before.containers, listed) && Cleanup(pods, listed, cleanup)
    ensures var after := ExecAll(before, SyncPlan(probes, pods, listed) + cleanup);
            && WellFormed(after)
            && (forall id :: id in before.containers ==>
                 (id in after.containers <==> Survives(probes, pods, before.containers[id])))
            && (forall id :: id in before.containers && id in after.containers ==>
                 after.containers[id] == before.containers[id])
            && (forall id :: id in after.containers && id !in before.containers ==>
                 before.nextId <= id && after.containers[id].state == "running"
                 && Wanted(pods, after.containers[id].name, after.containers[id].podName))
            && (forall id :: id in after.containers && after.containers[id].podName != "" ==>
                 after.containers[id].podName in PodNames(pods))
  {
    var plan := SyncPlan(probes, pods, listed);
    var after := ExecAll(before, plan + cleanup);
    CallsKeep(before, plan + cleanup);
    forall id | id in before.containers
      ensures id in after.containers <==> Survives(probes, pods, before.containers[id])
    {
      StoppedOrNot(probes, pods, listed, cleanup, before, id);
    }
    forall id | id in after.containers && id !in before.containers
      ensures Wanted(pods, after.containers[id].name, after.containers[id].podName)
      ensures after.containers[id].podName in PodNames(pods)
    {
      var call := Run(after.containers[id].name, after.containers[id].podName);
      OrphansRemoved(pods, listed, cleanup, before, call);
      PassRuns(probes, pods, listed, call.name, call.podName);
    }
  }

  /** The pod asks for this container, but it has exited, in the spelling the code looks for, or its probe fails. */
  predicate Replaces(probes: Probes, pod: Pod, spec: Container, x: ContainerInfo) {
    && x.podName == pod.meta.name && x.name == "k8s-lite-" + pod.meta.name + "-" + spec.name
    && ((|x.state| >= 4 && x.state[..4] == "Exit")
        || (spec.hasLivenessProbe && probes(pod.meta.name, spec.name) == Unhealthy))
  }

  /** A fault-free pass removes a container if and only if it is of a pod not assigned to the node, or of one that asks
      for its replacement. */
  lemma RemovedIff(probes: Probes, pods: seq<Pod>, listed: seq<ContainerInfo>, cleanup: seq<RuntimeCall>,
                   before: Engine, id: nat)
    requires WellFormed(before) && Listing(before.containers, listed) && Cleanup(pods, listed, cleanup)
    requires id in before.containers
    ensures var x := before.containers[id];
            id !in ExecAll(before, SyncPlan(probes, pods, listed) + cleanup).containers <==>
              && x.podName != ""
              && ((forall i :: 0 <= i < |pods| ==> pods[i].meta.name != x.podName)
                  || exists i, k :: 0 <= i < |pods| && 0 <= k < |pods[i].spec.containers|
                                    && Replaces(probes, pods[i], pods[i].spec.containers[k], x))
  {
    var x := before.containers[id];
    PassSyncs(probes, pods, listed, cleanup, before);
    assert x.podName in PodNames(pods) <==> exists i :: 0 <= i < |pods| && pods[i].meta.name == x.podName;
    RestartsReplace(probes, pods, x);
  }

  lemma RestartsReplace(probes: Probes, pods: seq<Pod>, x: ContainerInfo)
    ensures SomeRestarts(probes, pods, x) <==>
              exists i, k :: 0 <= i < |pods| && 0 <= k < |pods[i].spec.containers|
                             && Replaces(probes, pods[i], pods[i].spec.containers[k], x)
  {
    if SomeRestarts(probes, pods, x) {
      var i :| 0 <= i < |pods| && Restarted(probes, pods[i].meta.name, pods[i].spec.containers, x);
      var k :| 0 <= k < |pods[i].spec.containers|
        && x.name == ContainerName(pods[i].meta.name, pods[i].spec.containers[k].name)
               && NeedsRestart(probes, pods[i].meta.name, pods[i].spec.containers[k], x.state);
      assert Replaces(probes, pods[i], pods[i].spec.containers[k], x);
    }
    if i, k :| 0 <= i < |pods| && 0 <= k < |pods[i].spec.containers|
               && Replaces(probes, pods[i], pods[i].spec.containers[k], x)
    {
      assert NeedsRestart(probes, pods[i].meta.name, pods[i].spec.containers[k], x.state);
      assert Restarted(probes, pods[i].meta.name, pods[i].spec.containers, x);
    }
  }

  /** Names apart and free: every assigned pod gets its containers. */
  lemma FreeNamesAreServed(probes: Probes, pods: seq<Pod>, listed: seq<ContainerInfo>, cleanup: seq<RuntimeCall>,
                           before: Engine, i: nat, k: nat)
    requires NamesApart(pods) && AllNamesFree(pods, before.containers)
    requires WellFormed(before) && Listing(before.containers, listed) && Cleanup(pods, listed, cleanup)
    requires i < |pods| && k < |pods[i].spec.containers|
    ensures HasContainer(pods[i].meta.name, pods[i].spec.containers[k].name,
                         ExecAll(before, SyncPlan(probes, pods, listed) + cleanup).containers)
  {
    var plan, name := SyncPlan(probes, pods, listed), ContainerName(pods[i].meta.name, pods[i].spec.containers[k].name);
    var mid := ExecAll(before, plan);
    SyncPlanPaired(probes, pods, listed, before);
    PlanProvides(probes, pods, listed, before, i, k);
    NameHeld(before, plan, name);
    var id :| id in mid.containers && mid.containers[id].name == name;
    CallsKeep(before, plan);
    if id in before.containers {
      assert NamesFree(pods[i].meta.name, pods[i].spec.containers, before.containers);
    } else {
      PassRuns(probes, pods, listed, name, mid.containers[id].podName);
    }
    assert mid.containers[id].podName == pods[i].meta.name;
    ExecAllConcat(before, plan, cleanup);
    CallsKeep(mid, cleanup);
    OrphansRemoved(pods, listed, cleanup, before, Stop(id));
    assert pods[i].meta.name in PodNames(pods);
  }

  /** Whether every assigned pod has its containers after a pass depends on names alone. The engine keeps container
      names unique and leftovers are stopped only after new containers were started: so it is the case if and only if no
      two pods need the same name and no container of another pod, or of none, held a needed name before. */
  lemma AllServedIffNamesFree(probes: Probes, pods: seq<Pod>, listed: seq<ContainerInfo>, cleanup: seq<RuntimeCall>,
                              before: Engine)
    requires DistinctPods(pods) && WellFormed(before)
    requires Listing(before.containers, listed) && Cleanup(pods, listed, cleanup)
    ensures AllHaveContainers(pods, ExecAll(before, SyncPlan(probes, pods, listed) + cleanup).containers)
       <==> NamesApart(pods) && AllNamesFree(pods, before.containers)
  {
    var after := ExecAll(before, SyncPlan(probes, pods, listed) + cleanup);
    CallsKeep(before, SyncPlan(probes, pods, listed) + cleanup);
    if NamesApart(pods) && AllNamesFree(pods, before.containers) {
      forall i, k | 0 <= i < |pods| && 0 <= k < |pods[i].spec.containers|
        ensures HasContainer(pods[i].meta.name, pods[i].spec.containers[k].name, after.containers)
      {
        FreeNamesAreServed(probes, pods, listed, cleanup, before, i, k);
      }
    }
    if AllHaveContainers(pods, after.containers) {
      ServedApart(pods, after);
      forall i, id, k | 0 <= i < |pods| && id in before.containers && 0 <= k < |pods[i].spec.containers|
                        && before.containers[id].name
                          == ContainerName(pods[i].meta.name, pods[i].spec.containers[k].name)
        ensures before.containers[id].podName == pods[i].meta.name
      {
        ServedWasFree(probes, pods, listed, cleanup, before, i, k, id);
      }
    }
  }

  /** A container of another pod that holds a needed name keeps it until every run has been refused. */
  lemma ServedWasFree(probes: Probes, pods: seq<Pod>, listed: seq<ContainerInfo>, cleanup: seq<RuntimeCall>,
                      before: Engine, i: nat, k: nat, id: nat)
    requires NamesApart(pods) && WellFormed(before)
    requires Listing(before.containers, listed) && Cleanup(pods, listed, cleanup)
    requires i < |pods| && k < |pods[i].spec.containers| && id in before.containers
    requires before.containers[id].name == ContainerName(pods[i].meta.name, pods[i].spec.containers[k].name)
    requires HasContainer(pods[i].meta.name, pods[i].spec.containers[k].name,
                          ExecAll(before, SyncPlan(probes, pods, listed) + cleanup).containers)
    ensures before.containers[id].podName == pods[i].meta.name
  {
    var plan, x := SyncPlan(probes, pods, listed), before.containers[id];
    var mid := ExecAll(before, plan);
    CallsKeep(before, plan);
    ExecAllConcat(before, plan, cleanup);
    CallsKeep(mid, cleanup);
    var other :| other in ExecAll(mid, cleanup).containers && ExecAll(mid, cleanup).containers[other].name == x.name
                 && ExecAll(mid, cleanup).containers[other].podName == pods[i].meta.name;
    forall call | call in cleanup ensures call.Stop? {
      OrphansRemoved(pods, listed, cleanup, before, call);
    }
    assert other in mid.containers && mid.containers[other].name == x.name
      && mid.containers[other].podName == pods[i].meta.name;
    if Stop(id) in plan {
      PassStops(probes, pods, listed, before, id);
      var j :| 0 <= j < |pods| && Restarted(probes, pods[j].meta.name, pods[j].spec.containers, x);
      assert j == i;
    } else {
      assert id in mid.containers && id == other;
    }
  }

  lemma ServedApart(pods: seq<Pod>, engine: Engine)
    requires DistinctPods(pods) && WellFormed(engine) && AllHaveContainers(pods, engine.containers)
    ensures NamesApart(pods)
  {
    forall i, j, k, l | 0 <= i < |pods| && 0 <= j < |pods| && i != j
                        && 0 <= k < |pods[i].spec.containers| && 0 <= l < |pods[j].spec.containers|
      ensures ContainerName(pods[i].meta.name, pods[i].spec.containers[k].name)
           != ContainerName(pods[j].meta.name, pods[j].spec.containers[l].name)
    {
      assert HasContainers(pods[i].meta.name, pods[i].spec.containers, engine.containers);
      assert HasContainers(pods[j].meta.name, pods[j].spec.containers, engine.containers);
      assert HasContainer(pods[i].meta.name, pods[i].spec.containers[k].name, engine.containers);
      assert HasContainer(pods[j].meta.name, pods[j].spec.containers[l].name, engine.containers);
      assert pods[i].meta.name != pods[j].meta.name;
    }
  }

  /** Such names exist although pod and container names differ. */
  lemma NamesCanCollide()
    ensures ContainerName("a", "b-c") == ContainerName("a-b", "c")
  {
    assert "k8s-lite-" + "a" + "-" + "b-c" == "k8s-lite-a-b-c" == "k8s-lite-" + "a-b" + "-" + "c";
  }

  /** A leftover is enough: the only assigned pod gets no container in the pass that removes the container of a
      pod which is no longer assigned. */
  lemma LeftoverBlocks(probes: Probes)
    returns (pods: seq<Pod>, before: Engine, listed: seq<ContainerInfo>, cleanup: seq<RuntimeCall>)
    ensures |pods| == 1 && |pods[0].spec.containers| == 1 && DistinctPods(pods) && NamesApart(pods)
    ensures WellFormed(before) && Listing(before.containers, listed) && Cleanup(pods, listed, cleanup)
    ensures ExecAll(before, SyncPlan(probes, pods, listed) + cleanup).containers == map[]
  {
    var x := ContainerInfo(0, ContainerName("a-b", "c"), "running", "a-b");
    pods := [Pod(ObjectMeta("a", "", map[], map[]), PodSpec([Container("b-c", "image", false)], "node"), UNSCHEDULED)];
    before, listed, cleanup := Engine(map[0 := x], 1), [x], [Stop(0)];
    NamesCanCollide();
    assert PodNames(pods) == {"a"} by {
      assert pods[0].meta.name in PodNames(pods);
    }
    assert x in listed && StopsOther(pods, listed, cleanup[0]);
    PassSyncs(probes, pods, listed, cleanup, before);
    var after := ExecAll(before, SyncPlan(probes, pods, listed) + cleanup);
    if id :| id in after.containers {
      assert Wanted(pods, after.containers[id].name, after.containers[id].podName);
      ServedWasFree(probes, pods, listed, cleanup, before, 0, 0, 0);
      assert false;
    }
  }

  /** Some liveness probe of an assigned pod finds this container of it unhealthy. */
  ghost predicate ProbeFails(probes: Probes, pods: seq<Pod>, x: ContainerInfo) {
    exists i, k :: 0 <= i < |pods| && 0 <= k < |pods[i].spec.containers|
      && FailsFor(probes, pods[i], pods[i].spec.containers[k], x)
  }

  predicate FailsFor(probes: Probes, pod: Pod, spec: Container, x: ContainerInfo) {
    && x.podName == pod.meta.name && x.name == ContainerName(pod.meta.name, spec.name)
    && spec.hasLivenessProbe && probes(pod.meta.name, spec.name) == Unhealthy
  }

  /** The engine reports "exited", the code looks for "Exit": an exited container is never restarted for
      having exited, and its pod is reported as running. It is replaced if and only if a liveness probe of its
      pod fails. */
  lemma ExitedIsNotRestarted(probes: Probes, pods: seq<Pod>, listed: seq<ContainerInfo>, cleanup: seq<RuntimeCall>,
                             before: Engine, id: nat)
    requires WellFormed(before) && Listing(before.containers, listed) && Cleanup(pods, listed, cleanup)
    requires id in before.containers && before.containers[id].state == "exited"
    requires before.containers[id].podName in PodNames(pods) && before.containers[id].podName != ""
    ensures var after := ExecAll(before, SyncPlan(probes, pods, listed) + cleanup);
            && (id in after.containers <==> !ProbeFails(probes, pods, before.containers[id]))
            && (id in after.containers ==> after.containers[id] == before.containers[id])
    ensures PhaseOf(OfPod(listed, before.containers[id].podName)) == "Running"
  {
    var x := before.containers[id];
    PassSyncs(probes, pods, listed, cleanup, before);
    RestartedByProbe(probes, pods, x);
    OfPodOf(listed, x.podName);
    assert x in OfPod(listed, x.podName);
  }

  lemma RestartedByProbe(probes: Probes, pods: seq<Pod>, x: ContainerInfo)
    requires x.state == "exited"
    ensures SomeRestarts(probes, pods, x) <==> ProbeFails(probes, pods, x)
  {
    assert x.state[..4] == "exit" && "exit"[0] != "Exit"[0];
    if SomeRestarts(probes, pods, x) {
      var i :| 0 <= i < |pods| && Restarted(probes, pods[i].meta.name, pods[i].spec.containers, x);
      var k :| 0 <= k < |pods[i].spec.containers|
        && x.name == ContainerName(pods[i].meta.name, pods[i].spec.containers[k].name)
               && NeedsRestart(probes, pods[i].meta.name, pods[i].spec.containers[k], x.state);
      assert FailsFor(probes, pods[i], pods[i].spec.containers[k], x);
    }
    if ProbeFails(probes, pods, x) {
      var i, k :| 0 <= i < |pods| && 0 <= k < |pods[i].spec.containers|
        && FailsFor(probes, pods[i], pods[i].spec.containers[k], x);
      assert NeedsRestart(probes, pods[i].meta.name, pods[i].spec.containers[k], x.state);
      assert Restarted(probes, pods[i].meta.name, pods[i].spec.containers, x);
    }
  }

  lemma FirstStop(pods: seq<Pod>, listed: seq<ContainerInfo>, cleanup: seq<RuntimeCall>)
    requires Cleanup(pods, listed, cleanup)
    ensures cleanup != [] ==> StopsOther(pods, listed, cleanup[0])
  {
  }

  /** A pass over what such a pass left, when no container has exited and no probe fails, asks the
      engine for nothing. */
  lemma {:induction false} QuietPass(probes: Probes, pods: seq<Pod>, listed: seq<ContainerInfo>,
                                     cleanup: seq<RuntimeCall>, engine: Engine)
    requires WellFormed(engine) && Listing(engine.containers, listed) && Cleanup(pods, listed, cleanup)
    requires forall j :: 0 <= j < |pods| ==> pods[j].meta.name != ""
    requires AllHaveContainers(pods, engine.containers)
    requires forall id :: id in engine.containers && engine.containers[id].podName != "" ==>
               engine.containers[id].podName in PodNames(pods)
    requires forall id :: id in engine.containers ==> !SomeRestarts(probes, pods, engine.containers[id])
    ensures SyncPlan(probes, pods, listed) == [] && cleanup == []
  {
    assert forall call :: !StopsOther(pods, listed, call);
    FirstStop(pods, listed, cleanup);
    QuietPlan(probes, pods, |pods|, listed, engine);
    assert pods[..|pods|] == pods;
  }

  lemma {:induction false} QuietPlan(probes: Probes, pods: seq<Pod>, i: nat, listed: seq<ContainerInfo>, engine: Engine)
    requires i <= |pods| && WellFormed(engine) && Listing(engine.containers, listed)
    requires forall j :: 0 <= j < |pods| ==> pods[j].meta.name != ""
    requires AllHaveContainers(pods, engine.containers)
    requires forall id :: id in engine.containers ==> !SomeRestarts(probes, pods, engine.containers[id])
    ensures SyncPlan(probes, pods[..i], listed) == []
  {
    if i == 0 {
    } else {
      QuietPlan(probes, pods, i - 1, listed, engine);
      assert pods[..i][..i - 1] == pods[..i - 1];
      var name, specs := pods[i - 1].meta.name, pods[i - 1].spec.containers;
      OfPodOf(listed, name);
      assert HasContainers(name, specs, engine.containers);
      forall id | id in engine.containers ensures !Restarted(probes, name, specs, engine.containers[id]) {
        assert !SomeRestarts(probes, pods, engine.containers[id]);
      }
      QuietPod(probes, name, specs, |specs|, OfPod(listed, name), engine.containers);
      assert specs[..|specs|] == specs;
    }
  }

  lemma {:induction false} QuietPod(probes: Probes, podName: string, specs: seq<Container>, k: nat,
                                    running: seq<ContainerInfo>, present: Containers)
    requires k <= |specs| && ListedOf(running, podName, present) && HasContainers(podName, specs, present)
    requires forall id :: id in present ==> !Restarted(probes, podName, specs, present[id])
    ensures PodPlan(probes, podName, specs[..k], running) == []
  {
    if k == 0 {
    } else {
      QuietPod(probes, podName, specs, k - 1, running, present);
      assert specs[..k][..k - 1] == specs[..k - 1];
      var name := ContainerName(podName, specs[k - 1].name);
      assert HasContainer(podName, specs[k - 1].name, present);
      var id :| id in present && present[id].name == name && present[id].podName == podName;
      assert present[id] in running;
      var found := Find(running, name);
      assert found.Some? && found.value in running;
      assert !Restarted(probes, podName, specs, present[found.value.id]);
    }
  }
}
