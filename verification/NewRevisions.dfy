/** What the ReplicaSets are that a Deployment's syncs create, and what their pods run. */
module NewRevisions {
  import opened Api
  import opened Registry
  import opened DeploymentController
  import opened Rollout
  import Rollback
  import RolloutPods
  import R = ReplicaSetController
  import P = ReplicaSetPasses
  import CreatedPods
  import PodSets

  /** The Deployment's own template and selector under the template's labels, marked with the digest. */
  predicate IsRevision(d: Deployment, digest: string, name: string, rs: ReplicaSet)
    requires 10 <= |digest|
  {
    && rs.template == d.template && rs.selector == d.selector
    && rs.meta.labels == d.template.meta.labels && rs.meta.namespace == d.meta.namespace
    && name == rs.meta.name == d.meta.name + "-" + digest[..10]
    && rs.meta.annotations == map["deployment.kubernetes.io/revision" := digest]
  }

  /** At the count it is created with, or at the count wanted: without one in the Deployment these are 0 and 1. */
  predicate CountOf(d: Deployment, rs: ReplicaSet) {
    rs.replicas == d.replicas || (d.replicas.None? && (rs.replicas == Some(0) || rs.replicas == Some(1)))
  }

  ghost predicate NewOnes(d: Deployment, digest: string, before: Sets, after: Sets)
    requires 10 <= |digest|
  {
    forall name :: name in after && name !in before ==>
      IsRevision(d, digest, name, after[name]) && CountOf(d, after[name])
  }

  /** A request that can only leave such ReplicaSets under new names. */
  predicate Makes(d: Deployment, digest: string, before: Sets, request: Request<ReplicaSet>)
    requires 10 <= |digest|
  {
    request.Delete? || request.name in before || (IsRevision(d, digest, request.name, request.obj)
                                                   && CountOf(d, request.obj))
  }

  lemma SyncMakes(d: Deployment, digest: Digest, before: Sets, rss: seq<ReplicaSet>, names: seq<string>,
                  request: Request<ReplicaSet>)
    requires Keyed(before) && Lists(before, names, rss)
    requires request in Creation(d, rss, digest) + Scaling(d, rss, digest)
    ensures Makes(d, digest, before, request)
  {
    var current := Current(d, rss, digest);
    var olds := OldSets(OwnedSets(d.selector, rss), current.meta.name);
    ListedAreStored(before, names, rss);
    OwnedStored(before, rss, d.selector);
    if request in ScaleDowns(olds) {
      ScaleDownOf(olds, request);
      OldsOf(before, rss, d.selector, current.meta.name);
    } else if !IsNew(d, rss, digest) {
      assert current in rss;
    } else {
      assert request in Creation(d, rss, digest) || request in ScaleTo(current, Desired(d));
    }
  }

  lemma {:induction false} ServedMakes(d: Deployment, digest: Digest, before: Sets, log: seq<Exchange<ReplicaSet>>)
    requires forall i :: 0 <= i < |log| ==> Makes(d, digest, before, log[i].request)
    ensures NewOnes(d, digest, before, ServeAll(before, log))
  {
    if log == [] {
    } else {
      ServedMakes(d, digest, before, log[..|log| - 1]);
      assert Makes(d, digest, before, log[|log| - 1].request);
    }
  }

  /** Whatever is lost of a sync, every ReplicaSet that is there at any of its calls and was not before holds the
      Deployment's template and selector. */
  lemma NewRevisionsHoldTheTemplate(d: Deployment, digest: Digest, before: Sets, rss: seq<ReplicaSet>,
                                    names: seq<string>,
                                    log: seq<Exchange<ReplicaSet>>, calls: nat)
    requires Keyed(before) && Lists(before, names, rss) && calls <= |log|
    requires Requests(log) == Creation(d, rss, digest) + Scaling(d, rss, digest)
    ensures NewOnes(d, digest, before, ServeAll(before, log[..calls]))
  {
    forall i | 0 <= i < calls ensures Makes(d, digest, before, log[..calls][i].request) {
      assert Requests(log)[i] == log[i].request;
      SyncMakes(d, digest, before, rss, names, log[i].request);
    }
    ServedMakes(d, digest, before, log[..calls]);
  }

  /** The creation comes first, and makes it at the Deployment's count, or at zero if none is given. */
  lemma CreatedCount(d: Deployment, digest: Digest, before: Sets, rss: seq<ReplicaSet>, log: seq<Exchange<ReplicaSet>>,
                     name: string)
    requires log != [] && Requests(log) == Creation(d, rss, digest) + Scaling(d, rss, digest)
    requires name in ServeAll(before, log[..1]) && name !in before
    ensures ServeAll(before, log[..1])[name].replicas == (if d.replicas.Some? then d.replicas else Some(0))
  {
    assert log[..1][..0] == [];
    assert ServeAll(before, log[..1]) == if log[0].served then Serve(before, log[0].request) else before;
    assert Requests(log)[0] == log[0].request;
    if !IsNew(d, rss, digest) {
      var current := Current(d, rss, digest);
      var olds := OldSets(OwnedSets(d.selector, rss), current.meta.name);
      if log[0].request in ScaleDowns(olds) {
        ScaleDownOf(olds, log[0].request);
      }
    }
  }

  /** A fault-free sync leaves the one it creates at the count wanted, one if none is given. */
  lemma SyncedRevision(hash: TemplateHash, d: Deployment, before: Sets, after: Sets, rss: seq<ReplicaSet>,
                       names: seq<string>,
                       name: string)
    requires Keyed(before) && Synced(hash, d, before, after, rss, names)
    requires name in after && name !in before
    ensures IsRevision(d, hash(d.template), name, after[name])
    ensures after[name].replicas == (if d.replicas.Some? then d.replicas else Some(1))
  {
    assert after != before;
    assert IsNew(d, rss, hash(d.template)) ==> SetName(d, hash(d.template)) !in before;
    SyncRollsOut(hash, d, before, after, rss, names);
    ListedAreStored(before, names, rss);
    OwnedStored(before, rss, d.selector);
    assert !IsNew(d, rss, hash(d.template)) ==> Current(d, rss, hash(d.template)) in rss;
  }

  /** After any history, the ReplicaSet of every edit holds the template and the selector of that edit; the current one
      is at the count wanted, one if none is given, and all others are at zero. */
  lemma HistoryHoldsTheTemplates(hash: TemplateHash, ds: seq<Deployment>, states: seq<Sets>, n: nat, i: nat)
    requires Rollback.Edits(hash, ds) && SyncRun(hash, ds, states) && Rollback.CleanStart(hash, ds, states[0])
    requires i < n <= |ds|
    ensures var name := ds[i].meta.name + "-" + hash(ds[i].template)[..10]; var last := ds[n - 1];
            && name in states[n] && IsRevision(ds[i], hash(ds[i].template), name, states[n][name])
            && states[n][name].replicas == if ds[i].template != last.template then Some(0)
                                           else if last.replicas.Some? then last.replicas else Some(1)
  {
    Rollback.OneSetPerTemplate(hash, ds, states, n);
    assert Rollback.NameOf(hash, ds[i]) in states[n];
  }

  /** And the pods follow: after any history every pod that a pass of the ReplicaSet controller adds for the
      Deployment's selector runs what its latest template says, whatever calls are lost. */
  lemma NewPodsRunTheLatest(hash: TemplateHash, ds: seq<Deployment>, states: seq<Sets>, n: nat, objects: map<string,
                            Pod>,
                            rss: seq<ReplicaSet>, names: seq<string>, pods: seq<Pod>, draws: seq<seq<string>>,
                            log: seq<Exchange<Pod>>, name: string)
    requires RolloutPods.History(hash, ds, states, n) && Lists(states[n], names, rss)
    requires RolloutPods.SelectorKept(ds, states[0], n, pods) && P.Pass(objects, rss, pods, draws, log)
    requires name in ServeAll(objects, log) && name !in objects
    requires R.Selects(ds[0].selector, ServeAll(objects, log)[name].meta.labels)
    ensures ServeAll(objects, log)[name].spec == ds[n - 1].template.spec
    ensures ServeAll(objects, log)[name].meta.labels == ds[n - 1].template.meta.labels
  {
    var k := CreatedPods.NewPodsRunTheTemplate(objects, rss, pods, draws, log, name);
    RolloutPods.EditsIsolated(hash, ds, states, n, rss, names, pods);
    assert P.IsolatedFrom(ds[0].selector, rss[k], pods);
    var i := RolloutPods.ListedRevision(hash, ds, states, n, rss, names, k);
    HistoryHoldsTheTemplates(hash, ds, states, n, i);
    assert rss[k] == states[n][names[k]];
  }
}
