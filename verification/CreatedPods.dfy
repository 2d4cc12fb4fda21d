/** What the pods are that a pass of the ReplicaSet controller creates. */
module CreatedPods {
  import opened Api
  import opened Registry
  import opened ReplicaSetController
  import opened PodSets
  import opened ReplicaSetPasses

  /** A pod that has not run yet, made from the template of a ReplicaSet under its name and five more characters. */
  predicate MadeFrom(rs: ReplicaSet, name: string, pod: Pod) {
    && pod.spec == rs.template.spec
    && pod.meta.labels == rs.template.meta.labels
    && pod.meta.namespace == rs.template.meta.namespace && pod.meta.annotations == rs.template.meta.annotations
    && pod.meta.name == name
    && |name| == |rs.meta.name| + 6 && name[..|rs.meta.name|] == rs.meta.name && name[|rs.meta.name|] == '-'
    && pod.status.phase == "" && pod.status.podIP == ""
  }

  /** A ReplicaSet that is short of pods. */
  predicate Short(rs: ReplicaSet, owned: nat) {
    rs.replicas.Some? && owned < rs.replicas.value
  }

  lemma PlanMakes(rs: ReplicaSet, pods: seq<Pod>, draws: seq<string>, request: Request<Pod>)
    requires rs.replicas.Some? ==> 0 <= rs.replicas.value
    requires Draws(rs, pods, draws) && request in Plan(rs, pods, draws) && request.Create?
    ensures Short(rs, |Owned(rs.selector, pods)|) && MadeFrom(rs, request.name, request.obj)
  {
    var i :| 0 <= i < |Plan(rs, pods, draws)| && Plan(rs, pods, draws)[i] == request;
    assert i < |draws|;
    var stem := rs.meta.name + "-";
    assert request.name == stem + draws[i];
    assert (stem + draws[i])[..|rs.meta.name|] == rs.meta.name && (stem + draws[i])[|rs.meta.name|] == '-';
  }

  lemma {:induction false} PassMakes(rss: seq<ReplicaSet>, pods: seq<Pod>, draws: seq<seq<string>>,
                                     request: Request<Pod>)
    returns (i: nat)
    requires NonNegative(rss) && PassDraws(rss, pods, draws) && request in PassPlan(rss, pods, draws) && request.Create?
    ensures i < |rss| && Short(rss[i], |Owned(rss[i].selector, pods)|) && MadeFrom(rss[i], request.name, request.obj)
  {
    i := |rss| - 1;
    if request in Plan(rss[i], pods, draws[i]) {
      PlanMakes(rss[i], pods, draws[i], request);
    } else {
      assert forall j :: 0 <= j < i ==> rss[..i][j] == rss[j] && draws[..i][j] == draws[j];
      i := PassMakes(rss[..i], pods, draws[..i], request);
    }
  }

  /** Whatever calls are lost, every pod that is there after a pass and was not before is made from the template of a
      ReplicaSet that was short of pods. */
  lemma NewPodsRunTheTemplate(objects: map<string, Pod>, rss: seq<ReplicaSet>, pods: seq<Pod>, draws: seq<seq<string>>,
                              log: seq<Exchange<Pod>>, name: string)
    returns (i: nat)
    requires Pass(objects, rss, pods, draws, log) && name in ServeAll(objects, log) && name !in objects
    ensures i < |rss| && Short(rss[i], |Owned(rss[i].selector, pods)|)
    ensures MadeFrom(rss[i], name, ServeAll(objects, log)[name])
  {
    ServedSets(objects, log);
    var k :| 0 <= k < |log| && log[k].served && log[k].request.Create? && log[k].request.name == name;
    assert Requests(log)[k] == log[k].request;
    i := PassMakes(rss, pods, draws, log[k].request);
  }
}
