/** Schedulers, kubelets and everyone who creates or deletes pods, interleaved one API call at a time
    over a store that checks no versions. */
module PodProtocol {
  import opened Api
  import Registry
  import Scheduler
  import Kubelet

  /** A stored pod and how often it has been written; the code keeps no such count. */
  datatype Entry = Entry(pod: Pod, version: nat)

  /** A process that lists pods and writes some of them back. */
  datatype Agent = SchedulerAgent(id: nat) | KubeletAgent(id: nat)

  /** The processes of a cluster; a kubelet has a node name. */
  datatype Cluster = Cluster(schedulers: set<nat>, kubelets: map<nat, string>) {
    predicate Has(a: Agent) {
      match a case SchedulerAgent(i) => i in schedulers case KubeletAgent(i) => i in kubelets
    }

    /** The node name of the pods an agent takes up: the scheduler those without one. */
    function Domain(a: Agent): string
      requires Has(a)
    {
      match a case SchedulerAgent(_) => "" case KubeletAgent(i) => kubelets[i]
    }

    /** No two processes take up the same pods: at most one scheduler, one kubelet per node name, and next to a
        scheduler no kubelet with an empty name. */
    ghost predicate Separate() {
      forall a: Agent, b: Agent {:trigger Domain(a), Domain(b)} :: Has(a) && Has(b) && a != b ==> Domain(a) != Domain(b)
    }
  }

  /** `used` are the names ever given to a pod; `pending` is, per agent, what is left of the list it
      is working through. */
  datatype State = State(store: map<string, Entry>, used: set<string>, pending: map<Agent, map<string, Entry>>) {
    function PendingOf(a: Agent): map<string, Entry> {
      if a in pending then pending[a] else map[]
    }
  }

  datatype Action =
    | Create(name: string, pod: Pod)
    | Delete(name: string)
    | List(agent: Agent)
    | Skip(agent: Agent, name: string)
    | Put(agent: Agent, name: string, written: Pod)

  /** What an agent may write over the pod it listed: the scheduler a node name, the kubelet a phase
      and an address, and only if the phase changes or an address is known. */
  predicate Writes(a: Agent, listed: Pod, written: Pod) {
    match a
    case SchedulerAgent(_) =>
      var node := written.spec.nodeName;
      node != "" && written == Scheduler.Bound(listed, node)
    case KubeletAgent(_) =>
      var phase, ip := written.status.phase, written.status.podIP;
      && written == Kubelet.WithStatus(listed, phase, ip)
      && (phase == "Pending" || phase == "Running") && (ip == listed.status.podIP || ip != "")
      && (listed.status.phase != phase || ip != "")
  }

  /** Anyone may create a pod under a name never used before, or delete any pod, at any time. An agent
      lists, then handles what it listed in any order, writing a pod back or passing it over. */
  predicate Enabled(c: Cluster, s: State, action: Action) {
    match action
    case Create(name, _) => name !in s.used
    case Delete(_) => true
    case List(a) => c.Has(a)
    case Skip(a, name) => c.Has(a) && name in s.PendingOf(a)
    case Put(a, name, written) => c.Has(a) && name in s.PendingOf(a) && Writes(a, s.PendingOf(a)[name].pod, written)
  }

  function Apply(c: Cluster, s: State, action: Action): State
    requires Enabled(c, s, action)
  {
    match action
    case Create(name, pod) => s.(store := s.store[name := Entry(pod, 0)], used := s.used + {name})
    case Delete(name) => s.(store := s.store - {name})
    case List(a) =>
      s.(pending := s.pending[a := map name | name in s.store && s.store[name].pod.spec.nodeName == c.Domain(a) ::
                               s.store[name]])
    case Skip(a, name) => s.(pending := s.pending[a := s.PendingOf(a) - {name}])
    case Put(a, name, written) =>
      s.(store := if name in s.store then s.store[name := Entry(written, s.store[name].version + 1)] else s.store,
         pending := s.pending[a := s.PendingOf(a) - {name}])
  }

  // ----- The requests of the agents are such writes

  /** Every PUT of a scheduler's round is a write this protocol allows it, over the pod it listed. */
  lemma {:induction false} BindingsAreWrites(id: nat, unscheduled: seq<Pod>, choices: seq<string>,
                                             request: Registry.Request<Pod>)
    requires |choices| <= |unscheduled| && request in Scheduler.Bindings(unscheduled, choices)
    ensures exists k :: 0 <= k < |choices| && request.Update? && request.name == unscheduled[k].meta.name
                        && Writes(SchedulerAgent(id), unscheduled[k], request.obj)
  {
    var k := |choices| - 1;
    if request in Scheduler.Bindings(unscheduled, choices[..k]) {
      BindingsAreWrites(id, unscheduled, choices[..k], request);
    } else {
      assert request.obj == Scheduler.Bound(unscheduled[k], choices[k]);
    }
  }

  /** And so is every status PUT of a kubelet's pass. */
  lemma {:induction false} StatusWritesAreWrites(id: nat, addresses: Kubelet.Addresses, pods: seq<Pod>,
                                                 listed: seq<Kubelet.ContainerInfo>, request: Registry.Request<Pod>)
    requires request in Kubelet.StatusWrites(addresses, pods, listed)
    ensures exists k :: 0 <= k < |pods| && request.Update? && request.name == pods[k].meta.name
                        && Writes(KubeletAgent(id), pods[k], request.obj)
  {
    var k := |pods| - 1;
    if request in Kubelet.StatusWrites(addresses, pods[..k], listed) {
      StatusWritesAreWrites(id, addresses, pods[..k], listed, request);
      var j :| 0 <= j < k && request.Update? && request.name == pods[..k][j].meta.name
               && Writes(KubeletAgent(id), pods[..k][j], request.obj);
      assert pods[..k][j] == pods[j];
    } else {
      var running := Kubelet.OfPod(listed, pods[k].meta.name);
      assert request in Kubelet.StatusWrite(pods[k], running, Kubelet.AddressOf(addresses, pods[k], running));
      Kubelet.AddressKeptOrFound(addresses, pods[k].status.podIP, pods[k].meta.name, pods[k].spec.containers, running);
    }
  }

  /** A PUT that succeeds overwrites the very version its agent listed. */
  predicate NoLostUpdate(s: State, action: Action) {
    action.Put? && action.name in s.store && action.name in s.PendingOf(action.agent) ==>
      s.store[action.name] == s.PendingOf(action.agent)[action.name]
  }

  ghost predicate IsRun(c: Cluster, states: seq<State>, actions: seq<Action>) {
    && |states| == |actions| + 1
    && states[0] == State(map[], {}, map[])
    && forall i :: 0 <= i < |actions| ==>
      Enabled(c, states[i], actions[i]) && states[i + 1] == Apply(c, states[i], actions[i])
  }

  /** The ownership nobody wrote down: a pod an agent still has on its list has a used name, is in the
      agent's domain, and if it still exists, is exactly as listed. */
  ghost predicate Owned(c: Cluster, s: State, a: Agent, name: string)
    requires c.Has(a) && name in s.PendingOf(a)
  {
    var listed := s.PendingOf(a)[name];
    && name in s.used
    && listed.pod.spec.nodeName == c.Domain(a)
    && (name in s.store ==> s.store[name] == listed)
  }

  ghost predicate Inv(c: Cluster, s: State) {
    && s.store.Keys <= s.used
    && forall a, name {:trigger s.PendingOf(a)[name]} :: c.Has(a) && name in s.PendingOf(a) ==> Owned(c, s, a, name)
  }

  lemma PendingAfter(c: Cluster, s: State, action: Action, a: Agent, name: string)
    requires Enabled(c, s, action) && name in Apply(c, s, action).PendingOf(a)
    ensures action.List? && action.agent == a ==>
      name in s.store && Apply(c, s, action).PendingOf(a)[name] == s.store[name]
        && s.store[name].pod.spec.nodeName == c.Domain(a)
    ensures !(action.List? && action.agent == a) ==>
      name in s.PendingOf(a) && Apply(c, s, action).PendingOf(a)[name] == s.PendingOf(a)[name]
    ensures (action.Skip? || action.Put?) && action.agent == a ==> name != action.name
  {
  }

  lemma StepKeepsInv(c: Cluster, s: State, action: Action)
    requires c.Separate() && Inv(c, s) && Enabled(c, s, action)
    ensures Inv(c, Apply(c, s, action))
  {
    var t := Apply(c, s, action);
    if action.Put? {
      assert Owned(c, s, action.agent, action.name);
    }
    forall a, name | c.Has(a) && name in t.PendingOf(a) ensures Owned(c, t, a, name) {
      PendingAfter(c, s, action, a, name);
      if action.List? && action.agent == a {
      } else {
        assert Owned(c, s, a, name);
        if action.Put? && action.name == name {
          assert a != action.agent && c.Domain(a) != c.Domain(action.agent);
        }
      }
    }
  }

  lemma {:induction false} InvHolds(c: Cluster, states: seq<State>, actions: seq<Action>, n: nat)
    requires c.Separate() && IsRun(c, states, actions) && n < |states|
    ensures Inv(c, states[n])
  {
    if n == 0 {
      assert forall a :: states[0].PendingOf(a) == map[];
    } else {
      InvHolds(c, states, actions, n - 1);
      StepKeepsInv(c, states[n - 1], actions[n - 1]);
    }
  }

  /** In a cluster of separate processes no interleaving ever loses an update. */
  lemma NoUpdateIsLost(c: Cluster, states: seq<State>, actions: seq<Action>, n: nat)
    requires c.Separate() && IsRun(c, states, actions) && n < |actions|
    ensures NoLostUpdate(states[n], actions[n])
  {
    InvHolds(c, states, actions, n);
    var s, action := states[n], actions[n];
    if action.Put? && action.name in s.PendingOf(action.agent) {
      assert Owned(c, s, action.agent, action.name);
    }
  }

  ghost predicate AlwaysClean(c: Cluster) {
    forall states, actions, n: nat :: IsRun(c, states, actions) && n < |actions| ==> NoLostUpdate(states[n], actions[n])
  }

  /** A pod that either of two agents would take up and write over. */
  function Contested(domain: string): Pod {
    Pod(ObjectMeta("pod", "", map[], map[]), PodSpec([], domain), PodStatus("", ""))
  }

  function WriteOf(a: Agent, listed: Pod): (written: Pod)
    ensures Writes(a, listed, written)
  {
    match a
    case SchedulerAgent(_) => Scheduler.Bound(listed, "node")
    case KubeletAgent(_) => Kubelet.WithStatus(listed, "Running", "10.0.0.1")
  }

  /** Two agents that take up the same pods can lose an update: both list, both write. */
  lemma TwoWritersClash(c: Cluster, a: Agent, b: Agent) returns (states: seq<State>, actions: seq<Action>)
    requires c.Has(a) && c.Has(b) && a != b && c.Domain(a) == c.Domain(b)
    ensures IsRun(c, states, actions) && |actions| == 5 && !NoLostUpdate(states[4], actions[4])
  {
    var pod := Contested(c.Domain(a));
    var listed := Entry(pod, 0);
    var s0 := State(map[], {}, map[]);
    var s1 := Apply(c, s0, Create("pod", pod));
    var s2 := Apply(c, s1, List(a));
    var s3 := Apply(c, s2, List(b));
    assert s2.PendingOf(a)["pod"] == listed && s3.PendingOf(a)["pod"] == listed && s3.PendingOf(b)["pod"] == listed;
    var put := Put(a, "pod", WriteOf(a, pod));
    var s4 := Apply(c, s3, put);
    assert s4.PendingOf(b)["pod"] == listed && s4.store["pod"].version == 1;
    var last := Put(b, "pod", WriteOf(b, pod));
    states := [s0, s1, s2, s3, s4, Apply(c, s4, last)];
    actions := [Create("pod", pod), List(a), List(b), put, last];
  }

  /** Separation is exactly what the protocol needs: every run is free of lost updates if and only if
      no two processes take up the same pods. */
  lemma CleanIffSeparate(c: Cluster)
    ensures AlwaysClean(c) <==> c.Separate()
  {
    if c.Separate() {
      forall states, actions, n: nat | IsRun(c, states, actions) && n < |actions|
        ensures NoLostUpdate(states[n], actions[n])
      {
        NoUpdateIsLost(c, states, actions, n);
      }
    }
    if AlwaysClean(c) {
      forall a: Agent, b: Agent | c.Has(a) && c.Has(b) && a != b ensures c.Domain(a) != c.Domain(b) {
        NotShared(c, a, b);
      }
    }
  }

  lemma NotShared(c: Cluster, a: Agent, b: Agent)
    requires AlwaysClean(c) && c.Has(a) && c.Has(b) && a != b
    ensures c.Domain(a) != c.Domain(b)
  {
    if c.Domain(a) == c.Domain(b) {
      var states, actions := TwoWritersClash(c, a, b);
      assert false;
    }
  }

  // ----- Over whole runs

  /** What an agent has on its list is what was stored under that name when it listed: since then the pod may
      have been written or deleted, but not replaced. */
  ghost predicate Known(c: Cluster, s: State, a: Agent, name: string)
    requires c.Has(a) && name in s.PendingOf(a)
  {
    var listed := s.PendingOf(a)[name];
    && name in s.used && listed.pod.spec.nodeName == c.Domain(a)
    && (name in s.store ==>
         && listed.version <= s.store[name].version
         && listed.pod.meta == s.store[name].pod.meta
         && listed.pod.spec.containers == s.store[name].pod.spec.containers)
  }

  ghost predicate AllKnown(c: Cluster, s: State) {
    && s.store.Keys <= s.used
    && forall a, name {:trigger s.PendingOf(a)[name]} :: c.Has(a) && name in s.PendingOf(a) ==> Known(c, s, a, name)
  }

  lemma StepKeepsKnown(c: Cluster, s: State, action: Action)
    requires AllKnown(c, s) && Enabled(c, s, action)
    ensures AllKnown(c, Apply(c, s, action))
  {
    var t := Apply(c, s, action);
    if action.Put? {
      assert Known(c, s, action.agent, action.name);
    }
    forall a, name | c.Has(a) && name in t.PendingOf(a) ensures Known(c, t, a, name) {
      PendingAfter(c, s, action, a, name);
      if !(action.List? && action.agent == a) {
        assert Known(c, s, a, name);
      }
    }
  }

  lemma {:induction false} KnownHolds(c: Cluster, states: seq<State>, actions: seq<Action>, n: nat)
    requires IsRun(c, states, actions) && n < |states|
    ensures AllKnown(c, states[n])
  {
    if n == 0 {
      assert forall a :: states[0].PendingOf(a) == map[];
    } else {
      KnownHolds(c, states, actions, n - 1);
      StepKeepsKnown(c, states[n - 1], actions[n - 1]);
    }
  }

  /** From one moment to a later one a pod that still exists has kept its metadata and its containers, its version has
      not gone back, and a pod that is gone is not brought back. */
  ghost predicate Later(s: State, t: State) {
    && s.used <= t.used
    && (forall name :: name in t.store && name in s.used ==> name in s.store)
    && (forall name :: name in s.store && name in t.store ==>
         && t.store[name].version >= s.store[name].version
         && t.store[name].pod.meta == s.store[name].pod.meta
         && t.store[name].pod.spec.containers == s.store[name].pod.spec.containers)
  }

  lemma StepIsLater(c: Cluster, s: State, action: Action)
    requires AllKnown(c, s) && Enabled(c, s, action)
    ensures Later(s, Apply(c, s, action))
  {
    if action.Put? {
      assert Known(c, s, action.agent, action.name);
    }
  }

  lemma LaterStill(s: State, t: State, u: State)
    requires s.store.Keys <= s.used && Later(s, t) && Later(t, u)
    ensures Later(s, u)
  {
  }

  /** Whatever the cluster, no write of any agent brings a deleted pod back or changes what a pod is. */
  lemma {:induction false} NoResurrection(c: Cluster, states: seq<State>, actions: seq<Action>, i: nat, j: nat)
    requires IsRun(c, states, actions) && i <= j < |states|
    ensures Later(states[i], states[j])
    decreases j
  {
    KnownHolds(c, states, actions, i);
    if i == j {
    } else {
      NoResurrection(c, states, actions, i, j - 1);
      KnownHolds(c, states, actions, j - 1);
      StepIsLater(c, states[j - 1], actions[j - 1]);
      LaterStill(states[i], states[j - 1], states[j]);
    }
  }

  lemma UsedGrows(c: Cluster, states: seq<State>, actions: seq<Action>, i: nat, j: nat)
    requires IsRun(c, states, actions) && i <= j < |states|
    ensures states[i].used <= states[j].used
  {
    NoResurrection(c, states, actions, i, j);
  }

  /** A pod once bound stays bound to its node for as long as it exists. */
  ghost predicate StaysBound(s: State, t: State) {
    forall name :: name in s.store && name in t.store && s.store[name].pod.spec.nodeName != ""
                   ==> t.store[name].pod.spec.nodeName == s.store[name].pod.spec.nodeName
  }

  ghost predicate AlwaysBoundOnce(c: Cluster) {
    forall states, actions, i: nat, j: nat :: IsRun(c, states, actions) && i <= j < |states| ==>
      StaysBound(states[i], states[j])
  }

  /** At most one scheduler, and next to it no kubelet with an empty node name. */
  ghost predicate SoleBinder(c: Cluster) {
    && (forall i, j :: i in c.schedulers && j in c.schedulers ==> i == j)
    && (c.schedulers != {} ==> forall k :: k in c.kubelets ==> c.kubelets[k] != "")
  }

  /** A pod on an agent's list that still exists is still on that agent's node. */
  ghost predicate InDomain(c: Cluster, s: State, a: Agent, name: string)
    requires c.Has(a)
  {
    name in s.PendingOf(a) && name in s.store ==> s.store[name].pod.spec.nodeName == c.Domain(a)
  }

  ghost predicate AllInDomain(c: Cluster, s: State) {
    forall a, name {:trigger InDomain(c, s, a, name)} {:trigger s.PendingOf(a)[name]} :: c.Has(a) ==>
      InDomain(c, s, a, name)
  }

  lemma StepKeepsDomains(c: Cluster, s: State, action: Action)
    requires SoleBinder(c) && AllKnown(c, s) && AllInDomain(c, s) && Enabled(c, s, action)
    ensures AllInDomain(c, Apply(c, s, action)) && StaysBound(s, Apply(c, s, action))
  {
    var t := Apply(c, s, action);
    if action.Put? {
      assert Known(c, s, action.agent, action.name) && InDomain(c, s, action.agent, action.name);
    }
    forall a, name | c.Has(a) ensures InDomain(c, t, a, name) {
      assert InDomain(c, s, a, name);
      if name in t.PendingOf(a) {
        PendingAfter(c, s, action, a, name);
        if !(action.List? && action.agent == a) {
          assert Known(c, s, a, name);
        }
      }
    }
  }

  lemma {:induction false} DomainsHold(c: Cluster, states: seq<State>, actions: seq<Action>, n: nat)
    requires SoleBinder(c) && IsRun(c, states, actions) && n < |states|
    ensures AllInDomain(c, states[n])
  {
    if n == 0 {
      assert forall a :: states[0].PendingOf(a) == map[];
    } else {
      DomainsHold(c, states, actions, n - 1);
      KnownHolds(c, states, actions, n - 1);
      StepKeepsDomains(c, states[n - 1], actions[n - 1]);
    }
  }

  lemma BoundThen(c: Cluster, s: State, t: State, action: Action)
    requires s.store.Keys <= s.used <= t.used && StaysBound(s, t)
    requires SoleBinder(c) && AllKnown(c, t) && AllInDomain(c, t) && Enabled(c, t, action)
    ensures StaysBound(s, Apply(c, t, action))
  {
    StepKeepsDomains(c, t, action);
    StepIsLater(c, t, action);
  }

  lemma {:induction false} BoundOnce(c: Cluster, states: seq<State>, actions: seq<Action>, i: nat, j: nat)
    requires SoleBinder(c) && IsRun(c, states, actions) && i <= j < |states|
    ensures StaysBound(states[i], states[j])
    decreases j
  {
    if i == j {
    } else {
      BoundOnce(c, states, actions, i, j - 1);
      DomainsHold(c, states, actions, j - 1);
      KnownHolds(c, states, actions, i);
      KnownHolds(c, states, actions, j - 1);
      UsedGrows(c, states, actions, i, j - 1);
      BoundThen(c, states[i], states[j - 1], actions[j - 1]);
    }
  }

  /** Any scheduler next to any other agent that takes up pods without a node has a run in which a bound pod moves to
      another node, or is unbound. */
  lemma RebindClash(c: Cluster, i: nat, b: Agent) returns (states: seq<State>, actions: seq<Action>)
    requires i in c.schedulers && c.Has(b) && b != SchedulerAgent(i) && c.Domain(b) == ""
    ensures IsRun(c, states, actions) && |actions| == 5 && !StaysBound(states[4], states[5])
  {
    var a, pod := SchedulerAgent(i), Contested("");
    var listed := Entry(pod, 0);
    var s0 := State(map[], {}, map[]);
    var s1 := Apply(c, s0, Create("pod", pod));
    var s2 := Apply(c, s1, List(a));
    var s3 := Apply(c, s2, List(b));
    assert s2.PendingOf(a)["pod"] == listed && s3.PendingOf(a)["pod"] == listed && s3.PendingOf(b)["pod"] == listed;
    var put := Put(a, "pod", Scheduler.Bound(pod, "other"));
    var s4 := Apply(c, s3, put);
    assert s4.PendingOf(b)["pod"] == listed && s4.store["pod"].pod.spec.nodeName == "other";
    var last := Put(b, "pod", WriteOf(b, pod));
    var s5 := Apply(c, s4, last);
    assert s5.store["pod"].pod.spec.nodeName != "other";
    states := [s0, s1, s2, s3, s4, s5];
    actions := [Create("pod", pod), List(a), List(b), put, last];
  }

  /** Bind-once holds in every run if and only if there is at most one scheduler and, next to it, no kubelet with an
      empty node name: several kubelets of one node do not matter. */
  lemma BoundOnceIffSoleBinder(c: Cluster)
    ensures AlwaysBoundOnce(c) <==> SoleBinder(c)
  {
    if SoleBinder(c) {
      forall states, actions, i: nat, j: nat | IsRun(c, states, actions) && i <= j < |states|
        ensures StaysBound(states[i], states[j])
      {
        BoundOnce(c, states, actions, i, j);
      }
    }
    if AlwaysBoundOnce(c) {
      forall i, b: Agent | i in c.schedulers && c.Has(b) && b != SchedulerAgent(i) ensures c.Domain(b) != "" {
        NoSecondBinder(c, i, b);
      }
      forall i, j | i in c.schedulers && j in c.schedulers ensures i == j {
        assert c.Domain(SchedulerAgent(j)) == "";
      }
      forall i, k | i in c.schedulers && k in c.kubelets ensures c.kubelets[k] != "" {
        assert c.Domain(KubeletAgent(k)) == c.kubelets[k];
      }
    }
  }

  lemma NoSecondBinder(c: Cluster, i: nat, b: Agent)
    requires AlwaysBoundOnce(c) && i in c.schedulers && c.Has(b) && b != SchedulerAgent(i)
    ensures c.Domain(b) != ""
  {
    if c.Domain(b) == "" {
      var states, actions := RebindClash(c, i, b);
      assert false;
    }
  }

  /** A pod that has no node is exactly as it was created. */
  ghost predicate UntouchedUntilBound(s: State, t: State) {
    forall name :: name in s.store && name in t.store && t.store[name].pod.spec.nodeName == "" ==>
      t.store[name] == s.store[name]
  }

  ghost predicate AlwaysUntouchedUntilBound(c: Cluster) {
    forall states, actions, i: nat, j: nat :: IsRun(c, states, actions) && i <= j < |states| ==>
      UntouchedUntilBound(states[i], states[j])
  }

  lemma StepLeavesUnbound(c: Cluster, s: State, action: Action)
    requires AllKnown(c, s) && Enabled(c, s, action) && forall k :: k in c.kubelets ==> c.kubelets[k] != ""
    ensures UntouchedUntilBound(s, Apply(c, s, action))
  {
    if action.Put? {
      assert Known(c, s, action.agent, action.name);
    }
  }

  lemma UntouchedThen(c: Cluster, s: State, t: State, action: Action)
    requires s.store.Keys <= s.used <= t.used && UntouchedUntilBound(s, t)
    requires AllKnown(c, t) && Enabled(c, t, action) && forall k :: k in c.kubelets ==> c.kubelets[k] != ""
    ensures UntouchedUntilBound(s, Apply(c, t, action))
  {
    StepLeavesUnbound(c, t, action);
    StepIsLater(c, t, action);
  }

  lemma {:induction false} Untouched(c: Cluster, states: seq<State>, actions: seq<Action>, i: nat, j: nat)
    requires IsRun(c, states, actions) && i <= j < |states|
    requires forall k :: k in c.kubelets ==> c.kubelets[k] != ""
    ensures UntouchedUntilBound(states[i], states[j])
    decreases j
  {
    if i == j {
    } else {
      Untouched(c, states, actions, i, j - 1);
      KnownHolds(c, states, actions, i);
      KnownHolds(c, states, actions, j - 1);
      UsedGrows(c, states, actions, i, j - 1);
      UntouchedThen(c, states[i], states[j - 1], actions[j - 1]);
    }
  }

  lemma TouchedBefore(c: Cluster, k: nat) returns (states: seq<State>, actions: seq<Action>)
    requires k in c.kubelets && c.kubelets[k] == ""
    ensures IsRun(c, states, actions) && |actions| == 3 && !UntouchedUntilBound(states[2], states[3])
  {
    var a, pod := KubeletAgent(k), Contested("");
    var s0 := State(map[], {}, map[]);
    var s1 := Apply(c, s0, Create("pod", pod));
    var s2 := Apply(c, s1, List(a));
    assert s2.PendingOf(a)["pod"] == Entry(pod, 0);
    var put := Put(a, "pod", WriteOf(a, pod));
    states, actions := [s0, s1, s2, Apply(c, s2, put)], [Create("pod", pod), List(a), put];
  }

  /** Pods are left alone until they are bound in every run if and only if no kubelet has an empty node name. */
  lemma UntouchedIffNodesNamed(c: Cluster)
    ensures AlwaysUntouchedUntilBound(c) <==> forall k :: k in c.kubelets ==> c.kubelets[k] != ""
  {
    if forall k :: k in c.kubelets ==> c.kubelets[k] != "" {
      forall states, actions, i: nat, j: nat | IsRun(c, states, actions) && i <= j < |states|
        ensures UntouchedUntilBound(states[i], states[j])
      {
        Untouched(c, states, actions, i, j);
      }
    }
    if AlwaysUntouchedUntilBound(c) {
      forall k | k in c.kubelets ensures c.kubelets[k] != "" {
        MustBeNamed(c, k);
      }
    }
  }

  lemma MustBeNamed(c: Cluster, k: nat)
    requires AlwaysUntouchedUntilBound(c) && k in c.kubelets
    ensures c.kubelets[k] != ""
  {
    if c.kubelets[k] == "" {
      var states, actions := TouchedBefore(c, k);
      assert false;
    }
  }

  /** One scheduler and named nodes: over whole runs a pod is bound at most once, keeps its metadata and containers, is
      not touched before it is bound, and is never brought back, however many kubelets share a node. */
  lemma BindOnceNoResurrection(c: Cluster, states: seq<State>, actions: seq<Action>, i: nat, j: nat)
    requires SoleBinder(c) && (forall k :: k in c.kubelets ==> c.kubelets[k] != "")
    requires IsRun(c, states, actions) && i <= j < |states|
    ensures Later(states[i], states[j]) && StaysBound(states[i], states[j]) && UntouchedUntilBound(states[i], states[j])
  {
    NoResurrection(c, states, actions, i, j);
    BoundOnce(c, states, actions, i, j);
    Untouched(c, states, actions, i, j);
  }
}
