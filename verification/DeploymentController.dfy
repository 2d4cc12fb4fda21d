/** The Deployment controller (internal/controller/deployment/controller.go): it keeps one ReplicaSet
    per template revision, the current one at the desired count and the others at zero. */
module DeploymentController {
  import opened Api
  import opened Registry

  const REVISION := "deployment.kubernetes.io/revision"

  /** SHA-256 in hexadecimal. */
  type Digest = s: string | |s| == 64 witness seq(64, i => '0')

  type TemplateHash = PodTemplate -> Digest

  /** The lenient selector test: a missing label reads as empty, an empty selector matches everything. */
  predicate Matches(selector: Labels, labels: Labels) {
    forall k :: k in selector ==> Lookup(labels, k) == selector[k]
  }

  /** The ReplicaSets of a list that a Deployment owns, in list order. */
  function OwnedSets(selector: Labels, rss: seq<ReplicaSet>): seq<ReplicaSet> {
    if rss == [] then []
    else
      var rest, last := OwnedSets(selector, rss[..|rss| - 1]), rss[|rss| - 1];
      if Matches(selector, last.meta.labels) then rest + [last] else rest
  }

  predicate OfRevision(rs: ReplicaSet, hash: string) {
    Lookup(rs.meta.annotations, REVISION) == hash
  }

  /** The first ReplicaSet of a list with this revision. */
  function FindRevision(rss: seq<ReplicaSet>, hash: string): (found: Option<ReplicaSet>)
    ensures found.Some? ==> found.value in rss && OfRevision(found.value, hash)
    ensures found.None? ==> forall i :: 0 <= i < |rss| ==> !OfRevision(rss[i], hash)
  {
    if rss == [] then None
    else if OfRevision(rss[0], hash) then Some(rss[0])
    else FindRevision(rss[1..], hash)
  }

  function SetName(d: Deployment, hash: Digest): string {
    d.meta.name + "-" + hash[..10]
  }

  /** The ReplicaSet made for a revision: at the Deployment's count, or at zero if it has none. */
  function NewSet(d: Deployment, hash: Digest): ReplicaSet {
    ReplicaSet(ObjectMeta(SetName(d, hash), d.meta.namespace, d.template.meta.labels, map[REVISION := hash]),
               Some(if d.replicas.Some? then d.replicas.value else 0), d.selector, d.template)
  }

  function Desired(d: Deployment): int {
    if d.replicas.Some? then d.replicas.value else 1
  }

  /** The owned ReplicaSets of other names, in list order. */
  function OldSets(owned: seq<ReplicaSet>, name: string): seq<ReplicaSet> {
    if owned == [] then []
    else
      var rest, last := OldSets(owned[..|owned| - 1], name), owned[|owned| - 1];
      if last.meta.name != name then rest + [last] else rest
  }

  function ScaleTo(rs: ReplicaSet, replicas: int): seq<Request<ReplicaSet>> {
    if rs.replicas == Some(replicas) then [] else [Update(rs.meta.name, rs.(replicas := Some(replicas)))]
  }

  predicate Runs(rs: ReplicaSet) {
    rs.replicas.Some? && 0 < rs.replicas.value
  }

  function ScaleDowns(olds: seq<ReplicaSet>): seq<Request<ReplicaSet>> {
    if olds == [] then []
    else
      var rest, last := ScaleDowns(olds[..|olds| - 1]), olds[|olds| - 1];
      if Runs(last) then rest + [Update(last.meta.name, last.(replicas := Some(0)))] else rest
  }

  /** The ReplicaSet of the current revision: the one found, or a new one. */
  function Current(d: Deployment, rss: seq<ReplicaSet>, hash: Digest): ReplicaSet {
    var found := FindRevision(OwnedSets(d.selector, rss), hash);
    if found.Some? then found.value else NewSet(d, hash)
  }

  predicate IsNew(d: Deployment, rss: seq<ReplicaSet>, hash: Digest) {
    FindRevision(OwnedSets(d.selector, rss), hash).None?
  }

  function Creation(d: Deployment, rss: seq<ReplicaSet>, hash: Digest): seq<Request<ReplicaSet>> {
    if IsNew(d, rss, hash) then [Create(SetName(d, hash), NewSet(d, hash))] else []
  }

  function Scaling(d: Deployment, rss: seq<ReplicaSet>, hash: Digest): seq<Request<ReplicaSet>> {
    var current := Current(d, rss, hash);
    ScaleTo(current, Desired(d)) + ScaleDowns(OldSets(OwnedSets(d.selector, rss), current.meta.name))
  }

  method LabelsMatch(selector: Labels, labels: Labels) returns (matches: bool)
    ensures matches == Matches(selector, labels)
    ensures matches <==> forall item :: item in selector.Items ==>
                           item in labels.Items || (item.1 == "" && item.0 !in labels)
  {
    var rest := selector.Keys;
    while rest != {}
      invariant rest <= selector.Keys
      invariant forall k :: k in selector && k !in rest ==> Lookup(labels, k) == selector[k]
    {
      var k :| k in rest;
      if (if k in labels then labels[k] else "") != selector[k] {
        assert (k, selector[k]) in selector.Items;
        return false;
      }
      rest := rest - {k};
    }
    matches := true;
  }

  class Controller {
    const deploymentClient: Client<Deployment>
    const rsClient: Client<ReplicaSet>
    const hash: TemplateHash

    constructor (deploymentClient: Client<Deployment>, rsClient: Client<ReplicaSet>, hash: TemplateHash)
      ensures this.deploymentClient == deploymentClient && this.rsClient == rsClient && this.hash == hash
    {
      this.deploymentClient, this.rsClient, this.hash := deploymentClient, rsClient, hash;
    }

    /** Creates the ReplicaSet of a revision; a name in use is an error. */
    method CreateNewReplicaSet(d: Deployment, podTemplateHash: Digest) returns (ok: bool, rs: ReplicaSet)
      modifies rsClient
      ensures rs == NewSet(d, podTemplateHash)
      ensures Issued(rsClient.reliable, old(rsClient.objects), old(rsClient.history), rsClient.objects,
                     rsClient.history,
                     [Create(SetName(d, podTemplateHash), NewSet(d, podTemplateHash))])
      ensures ok ==> SetName(d, podTemplateHash) !in old(rsClient.objects)
      ensures rsClient.reliable ==> (ok <==> SetName(d, podTemplateHash) !in old(rsClient.objects))
    {
      var replicas := 0;
      if d.replicas.Some? {
        replicas := d.replicas.value;
      }
      var rsName := d.meta.name + "-" + podTemplateHash[..10];
      rs := ReplicaSet(ObjectMeta(rsName, d.meta.namespace, d.template.meta.labels, map[REVISION := podTemplateHash]),
                       Some(replicas), d.selector, d.template);
      ok := rsClient.Send(Create(rsName, rs));
    }

    /** What a sync sends depends on its listing alone, except that it ends with a failed creation. */
    method SyncDeployment(d: Deployment)
      returns (ok: bool, ghost listed: bool, ghost rss: seq<ReplicaSet>, ghost names: seq<string>)
      modifies rsClient
      ensures ok ==> listed
      ensures rsClient.reliable ==> listed
      ensures listed ==> Lists(old(rsClient.objects), names, rss)
      ensures !listed ==> rsClient.history == old(rsClient.history) && rsClient.objects == old(rsClient.objects)
      ensures listed ==>
                Issued(rsClient.reliable, old(rsClient.objects), old(rsClient.history), rsClient.objects,
                       rsClient.history,
                                Creation(d, rss, hash(d.template))
                                + if ok then Scaling(d, rss, hash(d.template)) else [])
      ensures !ok && listed ==> IsNew(d, rss, hash(d.template))
      ensures rsClient.reliable ==>
                (ok <==> !IsNew(d, rss, hash(d.template)) || SetName(d, hash(d.template)) !in old(rsClient.objects))
    {
      var allRS: seq<ReplicaSet>;
      IssuedNothing(rsClient.reliable, rsClient.objects, rsClient.history);
      ok, allRS, names := rsClient.List();
      listed, rss := ok, allRS;
      if !ok {
        return;
      }
      var ownedRS := FilterOwned(d.selector, allRS);
      var podTemplateHash := hash(d.template);
      var newRS := FirstOfRevision(ownedRS, podTemplateHash);
      var current: ReplicaSet;
      if newRS.None? {
        ok, current := CreateNewReplicaSet(d, podTemplateHash);
        if !ok {
          return;
        }
        ownedRS := ownedRS + [current];
        assert ownedRS[..|ownedRS| - 1] == OwnedSets(d.selector, allRS);
      } else {
        current := newRS.value;
      }
      ghost var history, objects := rsClient.history, rsClient.objects;
      Scale(d, current, ownedRS);
      IssuedThen(rsClient.reliable, old(rsClient.objects), old(rsClient.history), objects, history, rsClient.objects,
                 rsClient.history,
                 Creation(d, rss, podTemplateHash), Scaling(d, rss, podTemplateHash));
    }

    method FilterOwned(selector: Labels, allRS: seq<ReplicaSet>) returns (ownedRS: seq<ReplicaSet>)
      ensures ownedRS == OwnedSets(selector, allRS)
    {
      ownedRS := [];
      for i := 0 to |allRS|
        invariant ownedRS == OwnedSets(selector, allRS[..i])
      {
        assert allRS[..i + 1][..i] == allRS[..i];
        var m := LabelsMatch(selector, allRS[i].meta.labels);
        if m {
          ownedRS := ownedRS + [allRS[i]];
        }
      }
      assert allRS[..|allRS|] == allRS;
    }

    method FirstOfRevision(rss: seq<ReplicaSet>, podTemplateHash: string) returns (found: Option<ReplicaSet>)
      ensures found == FindRevision(rss, podTemplateHash)
    {
      for i := 0 to |rss|
        invariant FindRevision(rss, podTemplateHash) == FindRevision(rss[i..], podTemplateHash)
      {
        assert rss[i..][1..] == rss[i + 1..];
        if (if REVISION in rss[i].meta.annotations then rss[i].meta.annotations[REVISION] else "") == podTemplateHash {
          return Some(rss[i]);
        }
      }
      found := None;
    }

    /** The current ReplicaSet to the desired count, then the others to zero; failures are only logged. */
    method Scale(d: Deployment, current: ReplicaSet, ownedRS: seq<ReplicaSet>)
      modifies rsClient
      ensures Issued(rsClient.reliable, old(rsClient.objects), old(rsClient.history), rsClient.objects,
                     rsClient.history,
                     ScaleTo(current, Desired(d)) + ScaleDowns(OldSets(ownedRS, current.meta.name)))
    {
      var desiredReplicas := 1;
      if d.replicas.Some? {
        desiredReplicas := d.replicas.value;
      }
      IssuedNothing(rsClient.reliable, rsClient.objects, rsClient.history);
      var oldRS: seq<ReplicaSet> := [];
      var currentReplicas := 0;
      for i := 0 to |ownedRS|
        invariant unchanged(rsClient)
        invariant oldRS == OldSets(ownedRS[..i], current.meta.name)
      {
        assert ownedRS[..i + 1][..i] == ownedRS[..i];
        if ownedRS[i].meta.name != current.meta.name {
          oldRS := oldRS + [ownedRS[i]];
          if ownedRS[i].replicas.Some? {
            currentReplicas := currentReplicas + ownedRS[i].replicas.value;
          }
        }
      }
      assert ownedRS[..|ownedRS|] == ownedRS;
      if current.replicas.None? || current.replicas.value != desiredReplicas {
        var ok := rsClient.Send(Update(current.meta.name, current.(replicas := Some(desiredReplicas))));
      }
      ghost var history, objects := rsClient.history, rsClient.objects;
      ScaleDownOld(oldRS);
      IssuedThen(rsClient.reliable, old(rsClient.objects), old(rsClient.history), objects, history, rsClient.objects,
                 rsClient.history,
                 ScaleTo(current, Desired(d)), ScaleDowns(oldRS));
    }

    /** Every old ReplicaSet that runs is scaled to zero; failures are only logged. */
    method ScaleDownOld(oldRS: seq<ReplicaSet>)
      modifies rsClient
      ensures Issued(rsClient.reliable, old(rsClient.objects), old(rsClient.history), rsClient.objects,
                     rsClient.history, ScaleDowns(oldRS))
    {
      IssuedNothing(rsClient.reliable, rsClient.objects, rsClient.history);
      for i := 0 to |oldRS|
        invariant Issued(rsClient.reliable, old(rsClient.objects), old(rsClient.history), rsClient.objects,
                         rsClient.history,
                         ScaleDowns(oldRS[..i]))
      {
        assert oldRS[..i + 1][..i] == oldRS[..i];
        if oldRS[i].replicas.Some? && oldRS[i].replicas.value > 0 {
          ghost var history, objects := rsClient.history, rsClient.objects;
          var ok := rsClient.Send(Update(oldRS[i].meta.name, oldRS[i].(replicas := Some(0))));
          IssuedThen(rsClient.reliable, old(rsClient.objects), old(rsClient.history), objects, history,
                     rsClient.objects, rsClient.history,
                     ScaleDowns(oldRS[..i]), [Update(oldRS[i].meta.name, oldRS[i].(replicas := Some(0)))]);
        }
      }
      assert oldRS[..|oldRS|] == oldRS;
    }

    /** A pass syncs every listed Deployment in turn, each on a fresh listing of the ReplicaSets, whether or not the
        former syncs failed. */
    method Reconcile()
      returns (ok: bool, ghost ds: seq<Deployment>, ghost dNames: seq<string>, ghost states: seq<map<string,
               ReplicaSet>>,
                                ghost histories: seq<seq<Exchange<ReplicaSet>>>,
                                ghost requests: seq<seq<Request<ReplicaSet>>>)
      modifies rsClient
      requires deploymentClient as object != rsClient as object
      ensures deploymentClient.reliable ==> ok
      ensures ok ==> Lists(deploymentClient.objects, dNames, ds)
      ensures !ok ==> requests == []
      ensures ok ==> Attempts(rsClient.reliable, hash, ds, states, histories, requests)
      ensures ok ==> states[0] == old(rsClient.objects) && states[|ds|] == rsClient.objects
      ensures Issued(rsClient.reliable, old(rsClient.objects), old(rsClient.history), rsClient.objects,
                     rsClient.history, Flatten(requests))
      ensures ok && rsClient.reliable ==> SyncRun(hash, ds, states)
    {
      var deployments: seq<Deployment>;
      states, histories, requests := [rsClient.objects], [rsClient.history], [];
      IssuedNothing(rsClient.reliable, rsClient.objects, rsClient.history);
      ok, deployments, dNames := deploymentClient.List();
      ds := deployments;
      if !ok {
        return;
      }
      for i := 0 to |deployments|
        invariant Attempts(rsClient.reliable, hash, deployments[..i], states, histories, requests)
        invariant states[0] == old(rsClient.objects) && histories[0] == old(rsClient.history)
        invariant states[i] == rsClient.objects && histories[i] == rsClient.history
        invariant rsClient.reliable ==> SyncRun(hash, deployments[..i], states)
      {
        ghost var sent := SyncNext(deployments[i]);
        AttemptsNext(rsClient.reliable, hash, deployments, i, states, histories, requests, rsClient.objects,
                     rsClient.history, sent);
        if rsClient.reliable {
          SyncRunNext(hash, deployments, i, states, rsClient.objects);
        }
        states, histories, requests := states + [rsClient.objects], histories + [rsClient.history], requests + [sent];
      }
      assert deployments[..|deployments|] == deployments;
      AttemptsIssued(rsClient.reliable, hash, deployments, states, histories, requests);
    }

    /** The body of the loop: an error is only logged. */
    method SyncNext(d: Deployment) returns (ghost sent: seq<Request<ReplicaSet>>)
      modifies rsClient
      ensures Attempt(rsClient.reliable, hash, d, old(rsClient.objects), old(rsClient.history), rsClient.objects,
                      rsClient.history, sent)
      ensures rsClient.reliable ==> SyncStep(hash, d, old(rsClient.objects), rsClient.objects)
    {
      ghost var rss: seq<ReplicaSet>, names: seq<string>;
      var synced: bool;
      ghost var listed: bool;
      IssuedNothing(rsClient.reliable, rsClient.objects, rsClient.history);
      synced, listed, rss, names := SyncDeployment(d);
      sent := [];
      if listed {
        sent := Creation(d, rss, hash(d.template)) + if synced then Scaling(d, rss, hash(d.template)) else [];
      }
      assert listed ==> Sent(hash, d, old(rsClient.objects), sent, rss, names);
      if rsClient.reliable {
        AllServedRequests(old(rsClient.objects), rsClient.history[|old(rsClient.history)|..]);
        if !synced {
          RefusedCreation(old(rsClient.objects), d, rss, hash(d.template));
        }
        assert Synced(hash, d, old(rsClient.objects), rsClient.objects, rss, names);
      }
    }
  }

  /** What a sync sends on a listing: all of it, or a creation alone. */
  ghost predicate Sent(hash: TemplateHash, d: Deployment, before: map<string, ReplicaSet>,
                       sent: seq<Request<ReplicaSet>>,
                       rss: seq<ReplicaSet>, names: seq<string>)
  {
    && Lists(before, names, rss)
    && (|| sent == Creation(d, rss, hash(d.template)) + Scaling(d, rss, hash(d.template))
        || (IsNew(d, rss, hash(d.template)) && sent == Creation(d, rss, hash(d.template))))
  }

  /** A sync between two moments, with any faults: it cannot list and sends nothing, or it sends what its listing calls
      for. */
  ghost predicate Attempt(reliable: bool, hash: TemplateHash, d: Deployment, before: map<string, ReplicaSet>,
                          history: seq<Exchange<ReplicaSet>>,
                          after: map<string, ReplicaSet>, history': seq<Exchange<ReplicaSet>>,
                          sent: seq<Request<ReplicaSet>>)
  {
    && Issued(reliable, before, history, after, history', sent)
    && ((!reliable && sent == []) || exists rss, names :: Sent(hash, d, before, sent, rss, names))
  }

  ghost predicate Attempts(reliable: bool, hash: TemplateHash, ds: seq<Deployment>, states: seq<map<string,
                           ReplicaSet>>,
                           histories: seq<seq<Exchange<ReplicaSet>>>, requests: seq<seq<Request<ReplicaSet>>>)
  {
    && |states| == |ds| + 1 && |histories| == |ds| + 1 && |requests| == |ds|
    && forall i :: 0 <= i < |ds| ==>
         Attempt(reliable, hash, ds[i], states[i], histories[i], states[i + 1], histories[i + 1], requests[i])
  }

  function Flatten(requests: seq<seq<Request<ReplicaSet>>>): seq<Request<ReplicaSet>> {
    if requests == [] then [] else Flatten(requests[..|requests| - 1]) + requests[|requests| - 1]
  }

  lemma AttemptsNext(reliable: bool, hash: TemplateHash, ds: seq<Deployment>, i: nat, states: seq<map<string,
                     ReplicaSet>>,
                     histories: seq<seq<Exchange<ReplicaSet>>>, requests: seq<seq<Request<ReplicaSet>>>,
                     after: map<string, ReplicaSet>, history: seq<Exchange<ReplicaSet>>, sent: seq<Request<ReplicaSet>>)
    requires i < |ds| && Attempts(reliable, hash, ds[..i], states, histories, requests)
    requires Attempt(reliable, hash, ds[i], states[i], histories[i], after, history, sent)
    ensures Attempts(reliable, hash, ds[..i + 1], states + [after], histories + [history], requests + [sent])
  {
    forall k | 0 <= k < i + 1
      ensures Attempt(reliable, hash, ds[..i + 1][k], (states + [after])[k], (histories + [history])[k],
                      (states + [after])[k + 1], (histories + [history])[k + 1], (requests + [sent])[k])
    {
      if k < i {
        assert ds[..i + 1][k] == ds[..i][k];
      }
    }
  }

  lemma StepOf(hash: TemplateHash, ds: seq<Deployment>, states: seq<map<string, ReplicaSet>>, n: nat)
    requires SyncRun(hash, ds, states) && n < |ds|
    ensures SyncStep(hash, ds[n], states[n], states[n + 1])
  {
  }

  lemma SyncRunNext(hash: TemplateHash, ds: seq<Deployment>, i: nat, states: seq<map<string, ReplicaSet>>,
                    after: map<string, ReplicaSet>)
    requires i < |ds| && SyncRun(hash, ds[..i], states) && SyncStep(hash, ds[i], states[i], after)
    ensures SyncRun(hash, ds[..i + 1], states + [after])
  {
    forall k | 0 <= k < i + 1 ensures SyncStep(hash, ds[..i + 1][k], (states + [after])[k], (states + [after])[k + 1]) {
      if k < i {
        assert ds[..i + 1][k] == ds[..i][k];
      }
    }
  }

  /** The requests of a pass are those of its syncs, one after the other. */
  lemma {:induction false} AttemptsIssued(reliable: bool, hash: TemplateHash, ds: seq<Deployment>,
                                          states: seq<map<string, ReplicaSet>>,
                                          histories: seq<seq<Exchange<ReplicaSet>>>,
                                          requests: seq<seq<Request<ReplicaSet>>>)
    requires Attempts(reliable, hash, ds, states, histories, requests)
    ensures Issued(reliable, states[0], histories[0], states[|ds|], histories[|ds|], Flatten(requests))
  {
    if ds == [] {
      IssuedNothing(reliable, states[0], histories[0]);
    } else {
      var k := |ds| - 1;
      AttemptsIssued(reliable, hash, ds[..k], states[..k + 1], histories[..k + 1], requests[..k]);
      assert Attempt(reliable, hash, ds[k], states[k], histories[k], states[k + 1], histories[k + 1], requests[k]);
      IssuedThen(reliable, states[0], histories[0], states[k], histories[k], states[k + 1], histories[k + 1],
                 Flatten(requests[..k]), requests[k]);
    }
  }

  /** A fault-free sync on a listing: a creation refused because the name is in use changes nothing. */
  ghost predicate Synced(hash: TemplateHash, d: Deployment, before: map<string, ReplicaSet>, after: map<string,
                         ReplicaSet>,
                         rss: seq<ReplicaSet>, names: seq<string>)
  {
    && Lists(before, names, rss)
    && after == if IsNew(d, rss, hash(d.template)) && SetName(d, hash(d.template)) in before then before
                else ServeRequests(before, Creation(d, rss, hash(d.template)) + Scaling(d, rss, hash(d.template)))
  }

  ghost predicate SyncStep(hash: TemplateHash, d: Deployment, before: map<string, ReplicaSet>, after: map<string,
                           ReplicaSet>) {
    exists rss, names :: Synced(hash, d, before, after, rss, names)
  }

  /** Fault-free syncs of these Deployments, one after the other. */
  ghost predicate SyncRun(hash: TemplateHash, ds: seq<Deployment>, states: seq<map<string, ReplicaSet>>) {
    |states| == |ds| + 1 && forall i :: 0 <= i < |ds| ==> SyncStep(hash, ds[i], states[i], states[i + 1])
  }

  lemma RefusedCreation(objects: map<string, ReplicaSet>, d: Deployment, rss: seq<ReplicaSet>, hash: Digest)
    requires IsNew(d, rss, hash) && SetName(d, hash) in objects
    ensures ServeRequests(objects, Creation(d, rss, hash) + []) == objects
  {
    assert Creation(d, rss, hash) + [] == [Create(SetName(d, hash), NewSet(d, hash))];
    assert Creation(d, rss, hash)[..0] == [];
  }
}
