/** Deployments, their ReplicaSets and their pods together: one pass of either controller, and rest. */
module Cascade {
  import opened Api
  import opened Registry
  import D = DeploymentController
  import R = ReplicaSetController
  import Rollout
  import PodSets
  import opened ReplicaSetPasses
  import ReplicaSetConvergence

  type Sets = map<string, ReplicaSet>

  function NameOf(hash: D.TemplateHash, d: Deployment): string {
    D.SetName(d, hash(d.template))
  }

  /** Deployments that keep out of each other's way: every template satisfies its own selector, which is
      not empty, and no other's; ReplicaSet names are distinct. */
  ghost predicate Apart(hash: D.TemplateHash, ds: seq<Deployment>) {
    && (forall i :: 0 <= i < |ds| ==> R.Selects(ds[i].selector, ds[i].template.meta.labels) && 0 <= D.Desired(ds[i]))
    && (forall i, j :: 0 <= i < |ds| && 0 <= j < |ds| && i != j ==>
         && !D.Matches(ds[j].selector, ds[i].template.meta.labels)
         && NameOf(hash, ds[i]) != NameOf(hash, ds[j]))
  }

  /** Every stored ReplicaSet is the single revision of one of these Deployments, at any count, or foreign to them all.
      */
  ghost predicate SingleRevisions(hash: D.TemplateHash, ds: seq<Deployment>, sets: Sets) {
    forall name :: name in sets ==> Known(hash, ds, name, sets[name])
  }

  ghost predicate Known(hash: D.TemplateHash, ds: seq<Deployment>, name: string, rs: ReplicaSet) {
    Foreign(hash, ds, name, rs) || exists i :: 0 <= i < |ds| && RevisionOf(hash, ds[i], name, rs)
  }

  /** No Deployment's selector matches it, and its name is none that they use. */
  ghost predicate Foreign(hash: D.TemplateHash, ds: seq<Deployment>, name: string, rs: ReplicaSet) {
    && rs.meta.name == name
    && forall i :: 0 <= i < |ds| ==> name != NameOf(hash, ds[i]) && !D.Matches(ds[i].selector, rs.meta.labels)
  }

  predicate RevisionOf(hash: D.TemplateHash, d: Deployment, name: string, rs: ReplicaSet) {
    name == NameOf(hash, d) && rs == D.NewSet(d, hash(d.template)).(replicas := rs.replicas)
  }

  /** The first n Deployments have their ReplicaSet at the desired count. */
  ghost predicate Settled(hash: D.TemplateHash, ds: seq<Deployment>, n: nat, sets: Sets)
    requires n <= |ds|
  {
    && SingleRevisions(hash, ds, sets)
    && forall i :: 0 <= i < n ==> NameOf(hash, ds[i]) in sets && sets[NameOf(hash, ds[i])] == Target(hash, ds[i])
  }

  function Target(hash: D.TemplateHash, d: Deployment): ReplicaSet {
    D.NewSet(d, hash(d.template)).(replicas := Some(D.Desired(d)))
  }

  lemma RevisionOfName(hash: D.TemplateHash, ds: seq<Deployment>, sets: Sets, i: nat, name: string)
    requires Apart(hash, ds) && SingleRevisions(hash, ds, sets) && i < |ds| && name in sets
    ensures name == NameOf(hash, ds[i]) ==> RevisionOf(hash, ds[i], name, sets[name])
    ensures Rollout.Owns(ds[i], sets[name]) ==> name == NameOf(hash, ds[i])
    ensures sets[name].meta.name == name
  {
    SelectsImpliesMatches(ds[i]);
    if !Foreign(hash, ds, name, sets[name]) {
      assert Known(hash, ds, name, sets[name]);
      var j :| 0 <= j < |ds| && RevisionOf(hash, ds[j], name, sets[name]);
    }
  }

  lemma SelectsImpliesMatches(d: Deployment)
    ensures R.Selects(d.selector, d.template.meta.labels) ==> D.Matches(d.selector, d.template.meta.labels)
  {
  }

  /** One Deployment's sync settles it and leaves the others alone. */
  lemma SyncSettles(hash: D.TemplateHash, ds: seq<Deployment>, n: nat, before: Sets, after: Sets)
    requires Apart(hash, ds) && n < |ds| && Settled(hash, ds, n, before)
    requires D.SyncStep(hash, ds[n], before, after)
    ensures Settled(hash, ds, n + 1, after)
  {
    var rss, names :| D.Synced(hash, ds[n], before, after, rss, names);
    var current := CurrentIs(hash, ds, n, before, rss, names);
    Rollout.SyncRollsOut(hash, ds[n], before, after, rss, names);
    SettledNext(hash, ds, n, before, current, after);
  }

  lemma CurrentIs(hash: D.TemplateHash, ds: seq<Deployment>, n: nat, sets: Sets, rss: seq<ReplicaSet>,
                  names: seq<string>)
    returns (current: ReplicaSet)
    requires Apart(hash, ds) && n < |ds| && SingleRevisions(hash, ds, sets) && Lists(sets, names, rss)
    ensures Rollout.Keyed(sets) && current == D.Current(ds[n], rss, hash(ds[n].template))
    ensures D.IsNew(ds[n], rss, hash(ds[n].template)) ==> NameOf(hash, ds[n]) !in sets
    ensures current.meta.name == NameOf(hash, ds[n])
    ensures current.(replicas := Some(D.Desired(ds[n]))) == Target(hash, ds[n])
  {
    var d, digest := ds[n], hash(ds[n].template);
    current := D.Current(d, rss, digest);
    forall name | name in sets ensures sets[name].meta.name == name {
      RevisionOfName(hash, ds, sets, n, name);
    }
    SelectsImpliesMatches(d);
    Rollout.CurrentIsOwned(sets, d, rss, names, digest);
    if NameOf(hash, d) in sets {
      RevisionOfName(hash, ds, sets, n, NameOf(hash, d));
    }
    if !D.IsNew(d, rss, digest) {
      RevisionOfName(hash, ds, sets, n, current.meta.name);
    }
  }

  /** What a sync leaves of any other ReplicaSet: all of it. */
  lemma OthersStay(hash: D.TemplateHash, ds: seq<Deployment>, n: nat, before: Sets, current: ReplicaSet, after: Sets,
                   name: string)
    requires Apart(hash, ds) && n < |ds| && SingleRevisions(hash, ds, before)
    requires Rollout.RolledOut(before, ds[n], current, after) && current.meta.name == NameOf(hash, ds[n])
    requires name in before && name != current.meta.name
    ensures name in after && after[name] == before[name]
  {
    RevisionOfName(hash, ds, before, n, name);
  }

  lemma StaysKnown(hash: D.TemplateHash, ds: seq<Deployment>, n: nat, before: Sets, current: ReplicaSet, after: Sets,
                   name: string)
    requires Apart(hash, ds) && n < |ds| && SingleRevisions(hash, ds, before)
    requires Rollout.RolledOut(before, ds[n], current, after)
    requires current.meta.name == NameOf(hash, ds[n])
    requires current.(replicas := Some(D.Desired(ds[n]))) == Target(hash, ds[n])
    requires name in after
    ensures Known(hash, ds, name, after[name])
  {
    if name == current.meta.name {
      assert RevisionOf(hash, ds[n], name, after[name]);
    } else {
      OthersStay(hash, ds, n, before, current, after, name);
      assert Known(hash, ds, name, before[name]);
    }
  }

  lemma SettledNext(hash: D.TemplateHash, ds: seq<Deployment>, n: nat, before: Sets, current: ReplicaSet, after: Sets)
    requires Apart(hash, ds) && n < |ds| && Settled(hash, ds, n, before)
    requires Rollout.RolledOut(before, ds[n], current, after)
    requires current.meta.name == NameOf(hash, ds[n])
    requires current.(replicas := Some(D.Desired(ds[n]))) == Target(hash, ds[n])
    ensures Settled(hash, ds, n + 1, after)
  {
    forall name | name in after ensures Known(hash, ds, name, after[name]) {
      StaysKnown(hash, ds, n, before, current, after, name);
    }
    forall i | 0 <= i < n + 1
      ensures NameOf(hash, ds[i]) in after && after[NameOf(hash, ds[i])] == Target(hash, ds[i])
    {
      if i < n {
        OthersStay(hash, ds, n, before, current, after, NameOf(hash, ds[i]));
      }
    }
  }

  /** A fault-free Deployment pass settles every Deployment. */
  lemma {:induction false} DeploymentPassSettles(hash: D.TemplateHash, ds: seq<Deployment>, states: seq<Sets>, n: nat)
    requires Apart(hash, ds) && D.SyncRun(hash, ds, states) && SingleRevisions(hash, ds, states[0]) && n <= |ds|
    ensures Settled(hash, ds, n, states[n])
  {
    if n == 0 {
    } else {
      DeploymentPassSettles(hash, ds, states, n - 1);
      D.StepOf(hash, ds, states, n - 1);
      SyncSettles(hash, ds, n - 1, states[n - 1], states[n]);
    }
  }

  /** The ReplicaSets of a listing that are no Deployment's. */
  ghost predicate IsForeign(hash: D.TemplateHash, ds: seq<Deployment>, rss: seq<ReplicaSet>, names: seq<string>, k: nat)
    requires k < |rss| == |names|
  {
    Foreign(hash, ds, names[k], rss[k])
  }

  /** No listed pod satisfies the selectors of two Deployments, and foreign ReplicaSets keep out of their way. */
  ghost predicate PodsApart(hash: D.TemplateHash, ds: seq<Deployment>, rss: seq<ReplicaSet>, names: seq<string>,
                            pods: seq<Pod>)
    requires |rss| == |names|
  {
    && (forall i, j, k :: 0 <= i < |ds| && 0 <= j < |ds| && i != j && 0 <= k < |pods| ==>
         !(R.Selects(ds[i].selector, pods[k].meta.labels) && R.Selects(ds[j].selector, pods[k].meta.labels)))
    && (forall i, k ::
         (0 <= i < |ds| && 0 <= k < |rss| && IsForeign(hash, ds, rss, names, k) && rss[k].replicas.Some?) ==>
           (rss[k].selector != ds[i].selector && IsolatedFrom(ds[i].selector, rss[k], pods)))
  }

  predicate TargetOf(hash: D.TemplateHash, d: Deployment, name: string, rs: ReplicaSet) {
    name == NameOf(hash, d) && rs == Target(hash, d)
  }

  lemma ListedTarget(hash: D.TemplateHash, ds: seq<Deployment>, sets: Sets, rss: seq<ReplicaSet>, names: seq<string>,
                     k: nat)
    returns (i: nat)
    requires Settled(hash, ds, |ds|, sets) && Lists(sets, names, rss) && k < |rss|
    requires !IsForeign(hash, ds, rss, names, k)
    ensures i < |ds| && TargetOf(hash, ds[i], names[k], rss[k])
  {
    assert names[k] in sets && Known(hash, ds, names[k], sets[names[k]]);
    i :| 0 <= i < |ds| && RevisionOf(hash, ds[i], names[k], sets[names[k]]);
    assert sets[NameOf(hash, ds[i])] == Target(hash, ds[i]);
  }

  lemma TargetListed(hash: D.TemplateHash, ds: seq<Deployment>, sets: Sets, rss: seq<ReplicaSet>, names: seq<string>,
                     i: nat)
    returns (k: nat)
    requires Settled(hash, ds, |ds|, sets) && Lists(sets, names, rss) && i < |ds|
    ensures k < |rss| && names[k] == NameOf(hash, ds[i]) && rss[k] == Target(hash, ds[i])
  {
    assert NameOf(hash, ds[i]) in names;
    k :| 0 <= k < |names| && names[k] == NameOf(hash, ds[i]);
  }

  /** No other ReplicaSet of a listing interferes with that of a settled Deployment. */
  lemma SettledIsIsolated(hash: D.TemplateHash, ds: seq<Deployment>, sets: Sets, rss: seq<ReplicaSet>,
                          names: seq<string>, pods: seq<Pod>,
                          i: nat, k: nat, l: nat)
    requires Apart(hash, ds) && Settled(hash, ds, |ds|, sets) && Lists(sets, names, rss)
    requires PodsApart(hash, ds, rss, names, pods)
    requires i < |ds| && k < |rss| && names[k] == NameOf(hash, ds[i]) && rss[k] == Target(hash, ds[i]) && l < |rss|
    ensures IsolatedFrom(ds[i].selector, rss[l], pods)
    ensures l != k && rss[l].replicas.Some? ==> rss[l].selector != ds[i].selector
  {
    if l != k && !IsForeign(hash, ds, rss, names, l) {
      var j := ListedTarget(hash, ds, sets, rss, names, l);
      assert names[k] != names[l];
      TargetsApart(hash, ds, i, j, pods);
    }
  }

  /** No pod satisfies the selectors of these two Deployments. */
  lemma TargetsApart(hash: D.TemplateHash, ds: seq<Deployment>, i: nat, j: nat, pods: seq<Pod>)
    requires Apart(hash, ds) && i < |ds| && j < |ds| && i != j
    requires forall k :: 0 <= k < |pods| ==>
               !(R.Selects(ds[i].selector, pods[k].meta.labels) && R.Selects(ds[j].selector, pods[k].meta.labels))
    ensures ds[i].selector != ds[j].selector && IsolatedFrom(ds[i].selector, Target(hash, ds[j]), pods)
  {
    SelectsImpliesMatches(ds[i]);
    SelectsImpliesMatches(ds[j]);
    assert !D.Matches(ds[i].selector, ds[j].template.meta.labels);
  }

  /** One fault-free Deployment pass, then one fault-free ReplicaSet pass: every Deployment has exactly
      the pods it wants, whatever other ReplicaSets there are. */
  lemma CascadeConverges(hash: D.TemplateHash, ds: seq<Deployment>, states: seq<Sets>, objects: map<string, Pod>,
                         rss: seq<ReplicaSet>, names: seq<string>, pods: seq<Pod>, draws: seq<seq<string>>,
                         log: seq<Exchange<Pod>>)
    requires Apart(hash, ds) && D.SyncRun(hash, ds, states) && SingleRevisions(hash, ds, states[0])
    requires Lists(states[|ds|], names, rss) && PodsApart(hash, ds, rss, names, pods)
    requires Pass(objects, rss, pods, draws, log) && AllServed(log)
    ensures forall i :: 0 <= i < |ds| ==> |PodSets.Matching(ds[i].selector, ServeAll(objects, log))| == D.Desired(ds[i])
  {
    DeploymentPassSettles(hash, ds, states, |ds|);
    forall i | 0 <= i < |ds| ensures |PodSets.Matching(ds[i].selector, ServeAll(objects, log))| == D.Desired(ds[i]) {
      SettledConverges(hash, ds, states[|ds|], objects, rss, names, pods, draws, log, i);
    }
  }

  lemma SettledConverges(hash: D.TemplateHash, ds: seq<Deployment>, sets: Sets, objects: map<string, Pod>,
                         rss: seq<ReplicaSet>,
                         names: seq<string>, pods: seq<Pod>, draws: seq<seq<string>>, log: seq<Exchange<Pod>>, i: nat)
    requires Apart(hash, ds) && Settled(hash, ds, |ds|, sets) && Lists(sets, names, rss)
    requires PodsApart(hash, ds, rss, names, pods)
    requires Pass(objects, rss, pods, draws, log) && AllServed(log) && i < |ds|
    ensures |PodSets.Matching(ds[i].selector, ServeAll(objects, log))| == D.Desired(ds[i])
  {
    var selector, n := ds[i].selector, |PodSets.Matching(ds[i].selector, objects)|;
    var k := TargetListed(hash, ds, sets, rss, names, i);
    forall l | 0 <= l < |rss|
      ensures IsolatedFrom(selector, rss[l], pods) && (l != k && rss[l].replicas.Some? ==> rss[l].selector != selector)
    {
      SettledIsIsolated(hash, ds, sets, rss, names, pods, i, k, l);
    }
    ReplicaSetConvergence.SumDeficitOf(rss, selector, n, k);
    ReplicaSetConvergence.MaxSurplusOf(rss, selector, n, k);
    ReplicaSetConvergence.ClosedForm(objects, rss, pods, draws, log, selector);
  }

  /** From then on the Deployment controller sends nothing, for any of the Deployments on any listing. */
  lemma SettledSyncIsQuiet(hash: D.TemplateHash, ds: seq<Deployment>, n: nat, sets: Sets, rss: seq<ReplicaSet>,
                           names: seq<string>)
    requires Apart(hash, ds) && n < |ds| && Settled(hash, ds, |ds|, sets) && Lists(sets, names, rss)
    ensures D.Creation(ds[n], rss, hash(ds[n].template)) == [] && D.Scaling(ds[n], rss, hash(ds[n].template)) == []
  {
    var current := CurrentIs(hash, ds, n, sets, rss, names);
    var name := NameOf(hash, ds[n]);
    assert name in sets && sets[name] == Target(hash, ds[n]);
    SelectsImpliesMatches(ds[n]);
    Rollout.CurrentIsOwned(sets, ds[n], rss, names, hash(ds[n].template));
    assert current == Target(hash, ds[n]);
    Rollout.ListedAreStored(sets, names, rss);
    forall k | k in sets && k != name ensures !Rollout.Owns(ds[n], sets[k]) {
      RevisionOfName(hash, ds, sets, n, k);
    }
    Rollout.FirstOld(sets, rss, ds[n].selector, name);
    assert D.OldSets(D.OwnedSets(ds[n].selector, rss), name) == [];
  }

  /** And as long as every Deployment has the pods it wants, no request of the ReplicaSet controller is due to one of
      theirs, on any listings, even if pods satisfy the selectors of several Deployments. */
  lemma SettledPassIsQuiet(hash: D.TemplateHash, ds: seq<Deployment>, sets: Sets, objects: map<string, Pod>,
                           rss: seq<ReplicaSet>, names: seq<string>, pods: seq<Pod>, draws: seq<seq<string>>)
    requires Apart(hash, ds) && Settled(hash, ds, |ds|, sets) && Lists(sets, names, rss) && NonNegative(rss)
    requires PodSets.PodsListed(objects, pods) && PassDraws(rss, pods, draws)
    requires forall i :: 0 <= i < |ds| ==> |PodSets.Matching(ds[i].selector, objects)| == D.Desired(ds[i])
    ensures forall k :: 0 <= k < |rss| && !IsForeign(hash, ds, rss, names, k) ==> R.Plan(rss[k], pods, draws[k]) == []
    ensures R.PassPlan(rss, pods, draws) == [] <==>
              forall k :: 0 <= k < |rss| && IsForeign(hash, ds, rss, names, k) ==> R.Plan(rss[k], pods, draws[k]) == []
  {
    forall k | 0 <= k < |rss| && !IsForeign(hash, ds, rss, names, k) ensures R.Plan(rss[k], pods, draws[k]) == [] {
      var i := ListedTarget(hash, ds, sets, rss, names, k);
      PodSets.OwnedAreMatching(objects, pods, rss[k].selector);
      assert R.Draws(rss[k], pods, draws[k]);
    }
    QuietIffAllQuiet(rss, pods, draws);
  }

  lemma {:induction false} QuietIffAllQuiet(rss: seq<ReplicaSet>, pods: seq<Pod>, draws: seq<seq<string>>)
    requires NonNegative(rss) && |draws| == |rss|
    ensures R.PassPlan(rss, pods, draws) == [] <==> forall k :: 0 <= k < |rss| ==> R.Plan(rss[k], pods, draws[k]) == []
  {
    if rss == [] {
    } else {
      var m := |rss| - 1;
      QuietIffAllQuiet(rss[..m], pods, draws[..m]);
      assert forall k :: 0 <= k < m ==> R.Plan(rss[..m][k], pods, draws[..m][k]) == R.Plan(rss[k], pods, draws[k]);
    }
  }

  /** Rest: after one fault-free pass of either controller, no request of either is due to these Deployments any more,
      on any listings of what the two passes have left; without foreign ReplicaSets there is none at all. */
  lemma CascadeRests(hash: D.TemplateHash, ds: seq<Deployment>, states: seq<Sets>, objects: map<string, Pod>,
                     rss: seq<ReplicaSet>, names: seq<string>, pods: seq<Pod>, draws: seq<seq<string>>,
                     log: seq<Exchange<Pod>>,
                     rss': seq<ReplicaSet>, names': seq<string>, pods': seq<Pod>, keys': seq<string>,
                     draws': seq<seq<string>>)
    requires Apart(hash, ds) && D.SyncRun(hash, ds, states) && SingleRevisions(hash, ds, states[0])
    requires Lists(states[|ds|], names, rss) && PodsApart(hash, ds, rss, names, pods)
    requires Pass(objects, rss, pods, draws, log) && AllServed(log) && NonNegative(rss')
    requires Lists(states[|ds|], names', rss') && Lists(ServeAll(objects, log), keys', pods')
    requires PassDraws(rss', pods', draws')
    ensures forall k :: 0 <= k < |rss'| && !IsForeign(hash, ds, rss', names', k) ==>
              R.Plan(rss'[k], pods', draws'[k]) == []
    ensures (forall k :: 0 <= k < |rss'| ==> !IsForeign(hash, ds, rss', names', k)) ==>
              R.PassPlan(rss', pods', draws') == []
    ensures forall i :: 0 <= i < |ds| ==>
              D.Creation(ds[i], rss', hash(ds[i].template)) == [] && D.Scaling(ds[i], rss', hash(ds[i].template)) == []
  {
    CascadeConverges(hash, ds, states, objects, rss, names, pods, draws, log);
    DeploymentPassSettles(hash, ds, states, |ds|);
    ReplicaSetConvergence.PassKeepsKeyed(objects, rss, pods, draws, log);
    PodSets.ListedByName(ServeAll(objects, log), keys', pods');
    SettledPassIsQuiet(hash, ds, states[|ds|], ServeAll(objects, log), rss', names', pods', draws');
    forall i | 0 <= i < |ds|
      ensures D.Creation(ds[i], rss', hash(ds[i].template)) == [] && D.Scaling(ds[i], rss', hash(ds[i].template)) == []
    {
      SettledSyncIsQuiet(hash, ds, i, states[|ds|], rss', names');
    }
  }
}
