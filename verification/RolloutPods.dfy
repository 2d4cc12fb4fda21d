/** What the histories of a Deployment mean for its pods: the revisions they leave behind share one selector, and the
    passes of the ReplicaSet controller that follow. */
module RolloutPods {
  import opened Api
  import opened Registry
  import D = DeploymentController
  import R = ReplicaSetController
  import opened Rollback
  import PodSets
  import opened ReplicaSetPasses
  import C = ReplicaSetConvergence

  type Sets = map<string, ReplicaSet>

  /** After n edits some revision is a former one. */
  predicate HasFormer(ds: seq<Deployment>, n: nat)
    requires 0 < n <= |ds|
  {
    exists i :: 0 <= i < n && ds[i].template != ds[n - 1].template
  }

  /** A history of edits and syncs from a clean start, in which no foreign ReplicaSet has the Deployment's selector. */
  ghost predicate History(hash: D.TemplateHash, ds: seq<Deployment>, states: seq<Sets>, n: nat) {
    && 0 < n <= |ds| && Edits(hash, ds) && D.SyncRun(hash, ds, states) && CleanStart(hash, ds, states[0])
    && forall name :: name in states[0] ==> states[0][name].selector != ds[0].selector
  }

  /** The entry of edit i in a listing. */
  lemma RevisionListed(hash: D.TemplateHash, ds: seq<Deployment>, states: seq<Sets>, n: nat, rss: seq<ReplicaSet>,
                       names: seq<string>, i: nat)
    returns (k: nat)
    requires History(hash, ds, states, n) && Lists(states[n], names, rss) && i < n
    ensures k < |rss| && names[k] == NameOf(hash, ds[i]) && rss[k] == Revision(hash, ds, n, i)
    ensures rss[k].selector == ds[0].selector
  {
    OneSetPerTemplate(hash, ds, states, n);
    assert NameOf(hash, ds[i]) in names;
    k :| 0 <= k < |names| && names[k] == NameOf(hash, ds[i]);
  }

  /** And the edit of a listed entry with the selector. */
  lemma ListedRevision(hash: D.TemplateHash, ds: seq<Deployment>, states: seq<Sets>, n: nat, rss: seq<ReplicaSet>,
                       names: seq<string>, k: nat)
    returns (i: nat)
    requires History(hash, ds, states, n) && Lists(states[n], names, rss) && k < |rss|
    requires rss[k].selector == ds[0].selector
    ensures i < n && names[k] == NameOf(hash, ds[i]) && rss[k] == Revision(hash, ds, n, i)
  {
    OneSetPerTemplate(hash, ds, states, n);
    assert names[k] in states[n] && names[k] !in states[0];
    assert UsedName(hash, ds, n, names[k]);
    i :| 0 <= i < n && NameOf(hash, ds[i]) == names[k];
  }

  lemma OthersAreZero(hash: D.TemplateHash, ds: seq<Deployment>, states: seq<Sets>, n: nat, rss: seq<ReplicaSet>,
                      names: seq<string>,
                      current: nat, k: nat)
    requires History(hash, ds, states, n) && Lists(states[n], names, rss)
    requires current < |rss| && names[current] == NameOf(hash, ds[n - 1])
    requires k < |rss| && k != current && rss[k].selector == ds[0].selector
    ensures rss[k].replicas == Some(0) && HasFormer(ds, n)
  {
    var i := ListedRevision(hash, ds, states, n, rss, names, k);
    assert names[k] != names[current];
    SameNameSameTemplate(hash, ds, i, n - 1);
    assert ds[i].template != ds[n - 1].template;
  }

  /** Every listing after such a history holds the current revision at the desired count and all others at zero; there
      is a former one behind the same selector if and only if two different templates were used. */
  lemma EditsLeaveRollout(hash: D.TemplateHash, ds: seq<Deployment>, states: seq<Sets>, n: nat, rss: seq<ReplicaSet>,
                          names: seq<string>)
    requires History(hash, ds, states, n) && Lists(states[n], names, rss)
    ensures C.LeftByRollout(rss, ds[0].selector, D.Desired(ds[n - 1])) <==> HasFormer(ds, n)
  {
    var current := RevisionListed(hash, ds, states, n, rss, names, n - 1);
    forall k | 0 <= k < |rss| && k != current && rss[k].selector == ds[0].selector
      ensures rss[k].replicas == Some(0) && HasFormer(ds, n)
    {
      OthersAreZero(hash, ds, states, n, rss, names, current, k);
    }
    if HasFormer(ds, n) {
      var i :| 0 <= i < n && ds[i].template != ds[n - 1].template;
      var former := RevisionListed(hash, ds, states, n, rss, names, i);
      SameNameSameTemplate(hash, ds, i, n - 1);
      assert C.LeftByRolloutAt(rss, ds[0].selector, D.Desired(ds[n - 1]), current, former);
    }
    if C.LeftByRollout(rss, ds[0].selector, D.Desired(ds[n - 1])) {
      var a: nat, b: nat :| C.LeftByRolloutAt(rss, ds[0].selector, D.Desired(ds[n - 1]), a, b);
      assert a != current || b != current;
    }
  }

  /** Every template makes pods for the selector, and foreign ReplicaSets keep out of its way. */
  ghost predicate SelectorKept(ds: seq<Deployment>, start: Sets, n: nat, pods: seq<Pod>)
    requires 0 < n <= |ds|
  {
    && (forall i :: 0 <= i < n ==> R.Selects(ds[0].selector, ds[i].template.meta.labels))
    && (forall name :: name in start ==> IsolatedFrom(ds[0].selector, start[name], pods))
  }

  lemma EditsIsolated(hash: D.TemplateHash, ds: seq<Deployment>, states: seq<Sets>, n: nat, rss: seq<ReplicaSet>,
                      names: seq<string>, pods: seq<Pod>)
    requires History(hash, ds, states, n) && Lists(states[n], names, rss) && SelectorKept(ds, states[0], n, pods)
    ensures Isolated(ds[0].selector, rss, pods)
  {
    OneSetPerTemplate(hash, ds, states, n);
    forall k | 0 <= k < |rss| ensures IsolatedFrom(ds[0].selector, rss[k], pods) {
      assert names[k] in states[n];
      if names[k] in states[0] {
        assert rss[k] == states[0][names[k]];
      } else {
        assert UsedName(hash, ds, n, names[k]);
        var i :| 0 <= i < n && NameOf(hash, ds[i]) == names[k];
        assert rss[k] == Revision(hash, ds, n, i);
      }
    }
  }

  lemma OneRevisionCounts(hash: D.TemplateHash, ds: seq<Deployment>, states: seq<Sets>, n: nat, rss: seq<ReplicaSet>,
                          names: seq<string>, m: nat)
    requires History(hash, ds, states, n) && Lists(states[n], names, rss) && NonNegative(rss) && !HasFormer(ds, n)
    ensures var desired := D.Desired(ds[n - 1]);
            SumDeficit(rss, ds[0].selector, m) == Max(0, desired - m)
              && MaxSurplus(rss, ds[0].selector, m) == Max(0, m - desired)
  {
    var current := RevisionListed(hash, ds, states, n, rss, names, n - 1);
    forall k | 0 <= k < |rss| && k != current ensures rss[k].selector != ds[0].selector {
      if rss[k].selector == ds[0].selector {
        OthersAreZero(hash, ds, states, n, rss, names, current, k);
        assert false;
      }
    }
    C.SumDeficitOf(rss, ds[0].selector, m, current);
    C.MaxSurplusOf(rss, ds[0].selector, m, current);
  }

  /** What a fault-free ReplicaSet pass makes of m pods after any such history: the desired number if all edits used one
      template, and max(0, desired - m) otherwise, so that all pods of a Deployment at its desired count are deleted. */
  lemma PodsAfterEdits(hash: D.TemplateHash, ds: seq<Deployment>, states: seq<Sets>, n: nat, objects: map<string, Pod>,
                       rss: seq<ReplicaSet>,
                       names: seq<string>, pods: seq<Pod>, draws: seq<seq<string>>, log: seq<Exchange<Pod>>)
    requires History(hash, ds, states, n) && Lists(states[n], names, rss) && SelectorKept(ds, states[0], n, pods)
    requires Pass(objects, rss, pods, draws, log) && AllServed(log)
    ensures var m, desired := |PodSets.Matching(ds[0].selector, objects)|, D.Desired(ds[n - 1]);
            |PodSets.Matching(ds[0].selector, ServeAll(objects, log))|
            == if HasFormer(ds, n) then Max(0, desired - m) else desired
  {
    var selector, m := ds[0].selector, |PodSets.Matching(ds[0].selector, objects)|;
    EditsIsolated(hash, ds, states, n, rss, names, pods);
    EditsLeaveRollout(hash, ds, states, n, rss, names);
    C.ClosedForm(objects, rss, pods, draws, log, selector);
    if HasFormer(ds, n) {
      C.LeftByRolloutCounts(rss, selector, D.Desired(ds[n - 1]), m);
    } else {
      OneRevisionCounts(hash, ds, states, n, rss, names, m);
    }
  }

  /** A fault-free ReplicaSet pass on any listing of what a history has left. */
  ghost predicate PassAfterEdits(ds: seq<Deployment>, states: seq<Sets>, n: nat, before: map<string, Pod>,
                                 after: map<string, Pod>)
    requires 0 < n <= |ds| && n < |states|
  {
    exists rss: seq<ReplicaSet>, names: seq<string>, pods: seq<Pod>, draws: seq<seq<string>>, log: seq<Exchange<Pod>> ::
      && Lists(states[n], names, rss) && SelectorKept(ds, states[0], n, pods)
      && Pass(before, rss, pods, draws, log) && AllServed(log) && after == ServeAll(before, log)
  }

  lemma PassAfterEditsIsRolloutPass(hash: D.TemplateHash, ds: seq<Deployment>, states: seq<Sets>, n: nat,
                                    before: map<string, Pod>, after: map<string, Pod>)
    requires History(hash, ds, states, n) && HasFormer(ds, n) && PassAfterEdits(ds, states, n, before, after)
    ensures C.RolloutPass(ds[0].selector, D.Desired(ds[n - 1]), before, after)
  {
    var rss: seq<ReplicaSet>, names: seq<string>, pods: seq<Pod>, draws: seq<seq<string>>, log: seq<Exchange<Pod>> :|
      && Lists(states[n], names, rss) && SelectorKept(ds, states[0], n, pods)
      && Pass(before, rss, pods, draws, log) && AllServed(log) && after == ServeAll(before, log);
    EditsIsolated(hash, ds, states, n, rss, names, pods);
    EditsLeaveRollout(hash, ds, states, n, rss, names);
  }

  /** After any history with two templates, over any number of passes the pod count swings between two values: it is at
      rest exactly at half the desired count, and from the desired count it drops to zero. */
  lemma PodsNeverSettle(hash: D.TemplateHash, ds: seq<Deployment>, states: seq<Sets>, n: nat, runs: seq<map<string,
                        Pod>>)
    requires History(hash, ds, states, n) && HasFormer(ds, n)
    requires forall i :: 0 <= i < |runs| - 1 ==> PassAfterEdits(ds, states, n, runs[i], runs[i + 1])
    ensures forall i :: 0 <= i < |runs| - 1 ==>
              (PodCount(ds, runs[i + 1]) == PodCount(ds, runs[i]) <==>
                2 * PodCount(ds, runs[i]) == D.Desired(ds[n - 1]))
    ensures forall i :: 1 <= i < |runs| - 2 ==> PodCount(ds, runs[i + 2]) == PodCount(ds, runs[i])
    ensures forall i :: 0 <= i < |runs| - 1 && PodCount(ds, runs[i]) == D.Desired(ds[n - 1]) ==>
              PodCount(ds, runs[i + 1]) == 0
  {
    forall i | 0 <= i < |runs| - 1 ensures C.RolloutPass(ds[0].selector, D.Desired(ds[n - 1]), runs[i], runs[i + 1]) {
      PassAfterEditsIsRolloutPass(hash, ds, states, n, runs[i], runs[i + 1]);
    }
    C.RolloutNeverSettles(ds[0].selector, D.Desired(ds[n - 1]), runs);
  }

  function PodCount(ds: seq<Deployment>, pods: map<string, Pod>): nat
    requires ds != []
  {
    |PodSets.Matching(ds[0].selector, pods)|
  }
}
