/** The ReplicaSet controller (internal/controller/replicaset/controller.go): every pass lists the
    ReplicaSets and the pods once, and corrects each ReplicaSet from that one, ageing, pod list. */
module ReplicaSetController {
  import opened Api
  import opened Registry

  /** The strict selector test: an empty selector selects nothing, a missing label never matches. */
  predicate Selects(selector: Labels, labels: Labels) {
    && selector != map[]
    && forall k :: k in selector ==> k in labels && labels[k] == selector[k]
  }

  /** The pods of a list that a selector owns, in list order. */
  function Owned(selector: Labels, pods: seq<Pod>): seq<Pod> {
    if pods == [] then []
    else
      var rest := Owned(selector, pods[..|pods| - 1]);
      var last := pods[|pods| - 1];
      if Selects(selector, last.meta.labels) then rest + [last] else rest
  }

  /** A new pod: the template under a drawn name, not yet run. */
  function PodFrom(rs: ReplicaSet, draw: string): Pod {
    Pod(rs.template.meta.(name := rs.meta.name + "-" + draw), rs.template.spec, UNSCHEDULED)
  }

  function Creates(rs: ReplicaSet, draws: seq<string>): seq<Request<Pod>> {
    seq(|draws|, i requires 0 <= i < |draws| => Create(PodFrom(rs, draws[i]).meta.name, PodFrom(rs, draws[i])))
  }

  function Deletes(owned: seq<Pod>, count: nat): seq<Request<Pod>>
    requires count <= |owned|
  {
    seq(count, i requires 0 <= i < |owned| => Delete(owned[i].meta.name))
  }

  /** How many names a ReplicaSet draws when it finds `current` pods. */
  function Deficit(rs: ReplicaSet, current: nat): nat {
    if rs.replicas.Some? && current < rs.replicas.value then rs.replicas.value - current else 0
  }

  function Surplus(rs: ReplicaSet, current: nat): nat
    requires rs.replicas.Some? ==> 0 <= rs.replicas.value
  {
    if rs.replicas.Some? && rs.replicas.value < current then current - rs.replicas.value else 0
  }

  /** The requests one ReplicaSet issues on a pod list, whatever becomes of them. */
  function Plan(rs: ReplicaSet, pods: seq<Pod>, draws: seq<string>): seq<Request<Pod>>
    requires rs.replicas.Some? ==> 0 <= rs.replicas.value
  {
    var owned := Owned(rs.selector, pods);
    Creates(rs, draws) + Deletes(owned, Surplus(rs, |owned|))
  }

  ghost predicate Draws(rs: ReplicaSet, pods: seq<Pod>, draws: seq<string>) {
    && |draws| == Deficit(rs, |Owned(rs.selector, pods)|)
    && forall i :: 0 <= i < |draws| ==> |draws[i]| == 5
  }

  /** The requests of a whole pass: the plans of all ReplicaSets on the same list, in order. */
  function PassPlan(rss: seq<ReplicaSet>, pods: seq<Pod>, draws: seq<seq<string>>): seq<Request<Pod>>
    requires |draws| == |rss|
    requires forall i :: 0 <= i < |rss| && rss[i].replicas.Some? ==> 0 <= rss[i].replicas.value
  {
    if rss == [] then []
    else
      var k := |rss| - 1;
      PassPlan(rss[..k], pods, draws[..k]) + Plan(rss[k], pods, draws[k])
  }

  /** Between two moments of the pod client the plans of these ReplicaSets were issued, in order. */
  ghost predicate PlansIssued(reliable: bool, before: map<string, Pod>, history: seq<Exchange<Pod>>, after: map<string,
                              Pod>,
                              history': seq<Exchange<Pod>>, rss: seq<ReplicaSet>, pods: seq<Pod>,
                              draws: seq<seq<string>>)
  {
    && |draws| == |rss| && (forall i :: 0 <= i < |rss| ==> Draws(rss[i], pods, draws[i]))
    && (forall i :: 0 <= i < |rss| && rss[i].replicas.Some? ==> 0 <= rss[i].replicas.value)
    && Issued(reliable, before, history, after, history', PassPlan(rss, pods, draws))
  }

  lemma PlansIssuedThen(reliable: bool, o0: map<string, Pod>, h0: seq<Exchange<Pod>>, o1: map<string, Pod>,
                        h1: seq<Exchange<Pod>>,
                        o2: map<string, Pod>, h2: seq<Exchange<Pod>>, rss: seq<ReplicaSet>, i: nat, pods: seq<Pod>,
                        draws: seq<seq<string>>, drawn: seq<string>)
    requires i < |rss| && PlansIssued(reliable, o0, h0, o1, h1, rss[..i], pods, draws)
    requires rss[i].replicas.Some? ==> 0 <= rss[i].replicas.value
    requires Draws(rss[i], pods, drawn) && Issued(reliable, o1, h1, o2, h2, Plan(rss[i], pods, drawn))
    ensures PlansIssued(reliable, o0, h0, o2, h2, rss[..i + 1], pods, draws + [drawn])
  {
    var front, all := rss[..i], rss[..i + 1];
    assert all[..i] == front && all[i] == rss[i] && (draws + [drawn])[..i] == draws;
    assert PassPlan(all, pods, draws + [drawn]) == PassPlan(front, pods, draws) + Plan(rss[i], pods, drawn);
    IssuedThen(reliable, o0, h0, o1, h1, o2, h2, PassPlan(front, pods, draws), Plan(rss[i], pods, drawn));
    forall j | 0 <= j < |all| ensures Draws(all[j], pods, (draws + [drawn])[j]) {
      if j < i {
        assert all[j] == front[j];
      }
    }
  }

  method LabelsMatch(selector: Labels, labels: Labels) returns (matches: bool)
    ensures matches == Selects(selector, labels)
    ensures matches <==> selector != map[] && selector.Items <= labels.Items
  {
    if |selector| == 0 {
      return false;
    }
    var rest := selector.Keys;
    while rest != {}
      invariant rest <= selector.Keys
      invariant forall k :: k in selector && k !in rest ==> k in labels && labels[k] == selector[k]
    {
      var k :| k in rest;
      if k !in labels || labels[k] != selector[k] {
        assert (k, selector[k]) in selector.Items;
        return false;
      }
      rest := rest - {k};
    }
    matches := true;
  }

  class Controller {
    const podClient: Client<Pod>
    const rsClient: Client<ReplicaSet>

    constructor (podClient: Client<Pod>, rsClient: Client<ReplicaSet>)
      ensures this.podClient == podClient && this.rsClient == rsClient
    {
      this.podClient := podClient;
      this.rsClient := rsClient;
    }

    method CreatePod(rs: ReplicaSet) returns (ok: bool, ghost draw: string)
      modifies podClient
      ensures |draw| == 5
      ensures Issued(podClient.reliable, old(podClient.objects), old(podClient.history), podClient.objects,
                     podClient.history,
                     [Create(PodFrom(rs, draw).meta.name, PodFrom(rs, draw))])
    {
      assert |"00000"| == 5;
      var uuid: string :| |uuid| == 5;
      var pod := Pod(rs.template.meta, rs.template.spec, UNSCHEDULED);
      pod := pod.(meta := pod.meta.(name := rs.meta.name + "-" + uuid));
      draw := uuid;
      ok := podClient.Send(Create(pod.meta.name, pod));
    }

    /** Whatever calls fail, the controller issues exactly the plan of the list it was given. */
    method ReconcileRS(rs: ReplicaSet, allPods: seq<Pod>) returns (ghost draws: seq<string>)
      requires rs.replicas.Some? ==> 0 <= rs.replicas.value
      modifies podClient
      ensures Draws(rs, allPods, draws)
      ensures Issued(podClient.reliable, old(podClient.objects), old(podClient.history),
                     podClient.objects, podClient.history, Plan(rs, allPods, draws))
    {
      draws := [];
      IssuedNothing(podClient.reliable, podClient.objects, podClient.history);
      if rs.replicas.None? {
        return;
      }
      var desired := rs.replicas.value;
      var ownedPods: seq<Pod> := [];
      for i := 0 to |allPods|
        invariant ownedPods == Owned(rs.selector, allPods[..i])
        invariant unchanged(podClient)
      {
        assert allPods[..i + 1][..i] == allPods[..i];
        var m := LabelsMatch(rs.selector, allPods[i].meta.labels);
        if m {
          ownedPods := ownedPods + [allPods[i]];
        }
      }
      assert allPods[..|allPods|] == allPods;
      var current := |ownedPods|;
      if current < desired {
        var diff := desired - current;
        for i := 0 to diff
          invariant |draws| == i && forall j :: 0 <= j < i ==> |draws[j]| == 5
          invariant Issued(podClient.reliable, old(podClient.objects), old(podClient.history),
                           podClient.objects, podClient.history, Creates(rs, draws))
        {
          ghost var history, objects := podClient.history, podClient.objects;
          var ok, draw := CreatePod(rs);
          IssuedThen(podClient.reliable, old(podClient.objects), old(podClient.history), objects, history,
                     podClient.objects, podClient.history, Creates(rs, draws), Creates(rs, [draw]));
          assert Creates(rs, draws) + Creates(rs, [draw]) == Creates(rs, draws + [draw]);
          draws := draws + [draw];
        }
      } else if current > desired {
        var diff := current - desired;
        for i := 0 to diff
          invariant Issued(podClient.reliable, old(podClient.objects), old(podClient.history),
                           podClient.objects, podClient.history, Deletes(ownedPods, i))
        {
          ghost var history, objects := podClient.history, podClient.objects;
          var pod := ownedPods[i];
          var ok := podClient.Send(Delete(pod.meta.name));
          IssuedThen(podClient.reliable, old(podClient.objects), old(podClient.history), objects, history,
                     podClient.objects, podClient.history, Deletes(ownedPods, i), [Delete(pod.meta.name)]);
          assert Deletes(ownedPods, i) + [Delete(pod.meta.name)] == Deletes(ownedPods, i + 1);
        }
      }
    }

    /** The loop of a pass: every ReplicaSet is corrected from the same pod list. */
    method ReconcileAll(rsList: seq<ReplicaSet>, podList: seq<Pod>) returns (ghost draws: seq<seq<string>>)
      requires forall i :: 0 <= i < |rsList| && rsList[i].replicas.Some? ==> 0 <= rsList[i].replicas.value
      modifies podClient
      ensures PlansIssued(podClient.reliable, old(podClient.objects), old(podClient.history), podClient.objects,
                          podClient.history,
                          rsList, podList, draws)
    {
      draws := [];
      IssuedNothing(podClient.reliable, podClient.objects, podClient.history);
      for i := 0 to |rsList|
        invariant PlansIssued(podClient.reliable, old(podClient.objects), old(podClient.history), podClient.objects,
                              podClient.history,
                              rsList[..i], podList, draws)
      {
        ghost var history, objects := podClient.history, podClient.objects;
        ghost var drawn := ReconcileRS(rsList[i], podList);
        PlansIssuedThen(podClient.reliable, old(podClient.objects), old(podClient.history), objects, history,
                        podClient.objects, podClient.history, rsList, i, podList, draws, drawn);
        draws := draws + [drawn];
      }
      assert rsList[..|rsList|] == rsList;
    }

    /** A whole pass issues the plans of all listed ReplicaSets on one pod list. */
    method Reconcile()
      returns (ok: bool, ghost rss: seq<ReplicaSet>, ghost pods: seq<Pod>, ghost draws: seq<seq<string>>,
                                ghost rsNames: seq<string>, ghost podNames: seq<string>)
      requires forall name :: name in rsClient.objects && rsClient.objects[name].replicas.Some?
                 ==> 0 <= rsClient.objects[name].replicas.value
      requires podClient as object != rsClient as object
      modifies podClient
      ensures podClient.reliable && rsClient.reliable ==> ok
      ensures !ok ==> podClient.history == old(podClient.history) && podClient.objects == old(podClient.objects)
      ensures ok ==> Lists(rsClient.objects, rsNames, rss) && Lists(old(podClient.objects), podNames, pods)
      ensures ok ==> PlansIssued(podClient.reliable, old(podClient.objects), old(podClient.history),
                                 podClient.objects, podClient.history, rss, pods, draws)
    {
      var rsList: seq<ReplicaSet>;
      var podList: seq<Pod>;
      draws, pods, podNames := [], [], [];
      ok, rsList, rsNames := rsClient.List();
      rss := rsList;
      if !ok {
        return;
      }
      ok, podList, podNames := podClient.List();
      pods := podList;
      if !ok {
        return;
      }
      assert forall i :: 0 <= i < |rsList| ==>
        rsNames[i] in rsClient.objects && rsList[i] == rsClient.objects[rsNames[i]];
      draws := ReconcileAll(rsList, podList);
    }
  }
}
