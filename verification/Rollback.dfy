/** A Deployment's history of template edits, each followed by a fault-free sync. */
module Rollback {
  import opened Api
  import opened Registry
  import opened DeploymentController
  import opened Rollout

  function NameOf(hash: TemplateHash, d: Deployment): string {
    SetName(d, hash(d.template))
  }

  /** Edits change the template and the count of one Deployment, nothing else; its selector matches
      every template, and different templates have different digest prefixes. */
  ghost predicate Edits(hash: TemplateHash, ds: seq<Deployment>) {
    && (forall i, j :: 0 <= i < |ds| && 0 <= j < |ds| ==> ds[i].meta == ds[j].meta && ds[i].selector == ds[j].selector)
    && (forall i :: 0 <= i < |ds| ==> Matches(ds[i].selector, ds[i].template.meta.labels) && 0 <= Desired(ds[i]))
    && (forall i, j :: 0 <= i < |ds| && 0 <= j < |ds| && hash(ds[i].template)[..10] == hash(ds[j].template)[..10]
                       ==> ds[i].template == ds[j].template)
  }

  /** At the start the Deployment owns nothing and the names it will use are free. */
  ghost predicate CleanStart(hash: TemplateHash, ds: seq<Deployment>, objects: Sets) {
    && Keyed(objects)
    && (forall i, name :: 0 <= i < |ds| && name in objects ==> !Owns(ds[i], objects[name]))
    && (forall i :: 0 <= i < |ds| ==> NameOf(hash, ds[i]) !in objects)
  }

  /** The ReplicaSet of edit i after n edits: at the desired count if its template is the current one,
      at zero otherwise. */
  ghost function Revision(hash: TemplateHash, ds: seq<Deployment>, n: nat, i: nat): ReplicaSet
    requires i < n <= |ds|
  {
    var count := if ds[i].template == ds[n - 1].template then Desired(ds[n - 1]) else 0;
    NewSet(ds[i], hash(ds[i].template)).(replicas := Some(count))
  }

  /** After n edits: one ReplicaSet per template used so far, and what was there before. */
  ghost predicate Holds(hash: TemplateHash, ds: seq<Deployment>, start: Sets, n: nat, objects: Sets)
    requires n <= |ds|
  {
    && Keyed(objects)
    && (forall name :: name in start ==> name in objects && objects[name] == start[name])
    && (forall i :: 0 <= i < n ==>
         NameOf(hash, ds[i]) in objects && objects[NameOf(hash, ds[i])] == Revision(hash, ds, n, i))
    && (forall name :: name in objects ==> name in start || UsedName(hash, ds, n, name))
  }

  ghost predicate UsedName(hash: TemplateHash, ds: seq<Deployment>, n: nat, name: string)
    requires n <= |ds|
  {
    exists i :: 0 <= i < n && NameOf(hash, ds[i]) == name
  }

  predicate Used(ds: seq<Deployment>, n: nat, template: PodTemplate)
    requires n <= |ds|
  {
    exists i :: 0 <= i < n && ds[i].template == template
  }

  lemma SameNameSameTemplate(hash: TemplateHash, ds: seq<Deployment>, i: nat, j: nat)
    requires Edits(hash, ds) && i < |ds| && j < |ds|
    ensures NameOf(hash, ds[i]) == NameOf(hash, ds[j]) <==> ds[i].template == ds[j].template
  {
    var stem := ds[i].meta.name + "-";
    var a, b := hash(ds[i].template)[..10], hash(ds[j].template)[..10];
    assert NameOf(hash, ds[i]) == stem + a && NameOf(hash, ds[j]) == stem + b;
    assert (stem + a)[|stem|..] == a && (stem + b)[|stem|..] == b;
  }

  /** A stored ReplicaSet the Deployment owns with the revision of edit n is the one of that template. */
  lemma RevisionOf(hash: TemplateHash, ds: seq<Deployment>, start: Sets, n: nat, objects: Sets, name: string)
    requires Edits(hash, ds) && CleanStart(hash, ds, start) && n < |ds| && Holds(hash, ds, start, n, objects)
    requires name in objects && Owns(ds[n], objects[name]) && OfRevision(objects[name], hash(ds[n].template))
    ensures name == NameOf(hash, ds[n]) && Used(ds, n, ds[n].template)
  {
    assert name !in start;
    assert UsedName(hash, ds, n, name);
    var i :| 0 <= i < n && NameOf(hash, ds[i]) == name;
    assert objects[name] == Revision(hash, ds, n, i);
    assert hash(ds[i].template) == hash(ds[n].template);
    SameNameSameTemplate(hash, ds, i, n);
  }

  /** The next edit finds the ReplicaSet of its template exactly if the template was used before. */
  lemma NextCurrent(hash: TemplateHash, ds: seq<Deployment>, start: Sets, n: nat, objects: Sets, rss: seq<ReplicaSet>,
                    names: seq<string>)
    requires Edits(hash, ds) && CleanStart(hash, ds, start) && n < |ds| && Holds(hash, ds, start, n, objects)
    requires Lists(objects, names, rss)
    ensures var digest := hash(ds[n].template); var current := Current(ds[n], rss, digest);
            && (IsNew(ds[n], rss, digest) <==> !Used(ds, n, ds[n].template))
            && (NameOf(hash, ds[n]) in objects <==> Used(ds, n, ds[n].template))
            && current.(replicas := Some(Desired(ds[n]))) == NewSet(ds[n], digest).(replicas := Some(Desired(ds[n])))
            && current.meta.name == NameOf(hash, ds[n])
  {
    var d, digest := ds[n], hash(ds[n].template);
    CurrentIsOwned(objects, d, rss, names, digest);
    if Used(ds, n, d.template) {
      var i :| 0 <= i < n && ds[i].template == d.template;
      SameNameSameTemplate(hash, ds, i, n);
      var name := NameOf(hash, d);
      assert objects[name] == Revision(hash, ds, n, i);
      assert Owns(d, objects[name]) && OfRevision(objects[name], digest);
    }
    if !IsNew(d, rss, digest) {
      RevisionOf(hash, ds, start, n, objects, Current(d, rss, digest).meta.name);
    }
    if NameOf(hash, d) in objects {
      assert UsedName(hash, ds, n, NameOf(hash, d));
      var i :| 0 <= i < n && NameOf(hash, ds[i]) == NameOf(hash, d);
      SameNameSameTemplate(hash, ds, i, n);
    }
  }

  /** The effect of sync n, in the history's terms. */
  ghost predicate Advanced(hash: TemplateHash, ds: seq<Deployment>, n: nat, before: Sets, current: ReplicaSet,
                           after: Sets)
    requires n < |ds|
  {
    && RolledOut(before, ds[n], current, after)
    && current.meta.name == NameOf(hash, ds[n])
    && current.(replicas := Some(Desired(ds[n])))
      == NewSet(ds[n], hash(ds[n].template)).(replicas := Some(Desired(ds[n])))
  }

  lemma RevisionAdvances(hash: TemplateHash, ds: seq<Deployment>, start: Sets, n: nat, before: Sets,
                         current: ReplicaSet, after: Sets, i: nat)
    requires Edits(hash, ds) && n < |ds| && Holds(hash, ds, start, n, before)
    requires Advanced(hash, ds, n, before, current, after)
    requires i <= n
    ensures NameOf(hash, ds[i]) in after && after[NameOf(hash, ds[i])] == Revision(hash, ds, n + 1, i)
  {
    SameNameSameTemplate(hash, ds, i, n);
    if ds[i].template != ds[n].template {
      var name := NameOf(hash, ds[i]);
      assert name in before && before[name] == Revision(hash, ds, n, i);
      assert Owns(ds[n], before[name]);
    }
  }

  lemma NamesAdvance(hash: TemplateHash, ds: seq<Deployment>, start: Sets, n: nat, before: Sets, current: ReplicaSet,
                     after: Sets, name: string)
    requires n < |ds| && Holds(hash, ds, start, n, before) && Advanced(hash, ds, n, before, current, after)
    requires name in after
    ensures name in start || UsedName(hash, ds, n + 1, name)
  {
    if name !in before {
      assert NameOf(hash, ds[n]) == name;
    } else if name !in start {
      var i :| 0 <= i < n && NameOf(hash, ds[i]) == name;
    }
  }

  lemma StartUntouched(hash: TemplateHash, ds: seq<Deployment>, start: Sets, n: nat, before: Sets, current: ReplicaSet,
                       after: Sets, name: string)
    requires CleanStart(hash, ds, start) && n < |ds|
    requires Holds(hash, ds, start, n, before) && Advanced(hash, ds, n, before, current, after)
    requires name in start
    ensures name in after && after[name] == start[name]
  {
    assert NameOf(hash, ds[n]) !in start;
    assert name in before && before[name] == start[name];
    assert !Owns(ds[n], start[name]);
  }

  lemma StaysKeyed(before: Sets, d: Deployment, current: ReplicaSet, after: Sets)
    requires Keyed(before) && RolledOut(before, d, current, after)
    ensures Keyed(after)
  {
    forall name | name in after ensures after[name].meta.name == name {
      if name != current.meta.name {
        assert name in before;
      }
    }
  }

  lemma RestAdvances(hash: TemplateHash, ds: seq<Deployment>, start: Sets, n: nat, before: Sets, current: ReplicaSet,
                     after: Sets)
    requires CleanStart(hash, ds, start) && n < |ds|
    requires Holds(hash, ds, start, n, before) && Advanced(hash, ds, n, before, current, after)
    ensures Keyed(after) && forall name :: name in start ==> name in after && after[name] == start[name]
  {
    StaysKeyed(before, ds[n], current, after);
    forall name | name in start ensures name in after && after[name] == start[name] {
      StartUntouched(hash, ds, start, n, before, current, after, name);
    }
  }

  lemma HoldsAdvances(hash: TemplateHash, ds: seq<Deployment>, start: Sets, n: nat, before: Sets, current: ReplicaSet,
                      after: Sets)
    requires Edits(hash, ds) && CleanStart(hash, ds, start) && n < |ds|
    requires Holds(hash, ds, start, n, before) && Advanced(hash, ds, n, before, current, after)
    ensures Holds(hash, ds, start, n + 1, after)
  {
    RestAdvances(hash, ds, start, n, before, current, after);
    forall i | 0 <= i < n + 1
      ensures NameOf(hash, ds[i]) in after && after[NameOf(hash, ds[i])] == Revision(hash, ds, n + 1, i)
    {
      RevisionAdvances(hash, ds, start, n, before, current, after, i);
    }
    forall name | name in after ensures name in start || UsedName(hash, ds, n + 1, name) {
      NamesAdvance(hash, ds, start, n, before, current, after, name);
    }
  }

  lemma SyncAdvances(hash: TemplateHash, ds: seq<Deployment>, start: Sets, n: nat, before: Sets, after: Sets,
                     rss: seq<ReplicaSet>, names: seq<string>) returns (current: ReplicaSet)
    requires Edits(hash, ds) && CleanStart(hash, ds, start) && n < |ds| && Holds(hash, ds, start, n, before)
    requires Synced(hash, ds[n], before, after, rss, names)
    ensures Advanced(hash, ds, n, before, current, after)
    ensures Used(ds, n, ds[n].template) ==> current.meta.name in before
  {
    current := Current(ds[n], rss, hash(ds[n].template));
    NextCurrent(hash, ds, start, n, before, rss, names);
    assert RolledOut(before, ds[n], current, after) by {
      SyncRollsOut(hash, ds[n], before, after, rss, names);
    }
  }

  lemma StepAdvances(hash: TemplateHash, ds: seq<Deployment>, start: Sets, n: nat, before: Sets, after: Sets)
    returns (current: ReplicaSet)
    requires Edits(hash, ds) && CleanStart(hash, ds, start) && n < |ds| && Holds(hash, ds, start, n, before)
    requires SyncStep(hash, ds[n], before, after)
    ensures Advanced(hash, ds, n, before, current, after)
    ensures Used(ds, n, ds[n].template) ==> current.meta.name in before
  {
    var rss, names :| Synced(hash, ds[n], before, after, rss, names);
    current := SyncAdvances(hash, ds, start, n, before, after, rss, names);
  }

  lemma NextHolds(hash: TemplateHash, ds: seq<Deployment>, start: Sets, n: nat, before: Sets, after: Sets)
    requires Edits(hash, ds) && CleanStart(hash, ds, start) && n < |ds| && Holds(hash, ds, start, n, before)
    requires SyncStep(hash, ds[n], before, after)
    ensures Holds(hash, ds, start, n + 1, after)
  {
    var current := StepAdvances(hash, ds, start, n, before, after);
    HoldsAdvances(hash, ds, start, n, before, current, after);
  }

  lemma ReturnAddsNoName(hash: TemplateHash, ds: seq<Deployment>, start: Sets, n: nat, before: Sets, after: Sets)
    requires Edits(hash, ds) && CleanStart(hash, ds, start) && n < |ds| && Holds(hash, ds, start, n, before)
    requires SyncStep(hash, ds[n], before, after) && Used(ds, n, ds[n].template)
    ensures after.Keys == before.Keys
  {
    var current := StepAdvances(hash, ds, start, n, before, after);
  }

  lemma HoldsAtStart(hash: TemplateHash, ds: seq<Deployment>, start: Sets)
    requires CleanStart(hash, ds, start)
    ensures Holds(hash, ds, start, 0, start)
  {
  }

  lemma HoldsNext(hash: TemplateHash, ds: seq<Deployment>, states: seq<Sets>, n: nat)
    requires Edits(hash, ds) && SyncRun(hash, ds, states) && CleanStart(hash, ds, states[0]) && n < |ds|
    requires Holds(hash, ds, states[0], n, states[n])
    ensures Holds(hash, ds, states[0], n + 1, states[n + 1])
  {
    StepOf(hash, ds, states, n);
    NextHolds(hash, ds, states[0], n, states[n], states[n + 1]);
  }

  lemma {:induction false} HoldsAfter(hash: TemplateHash, ds: seq<Deployment>, states: seq<Sets>, n: nat)
    requires Edits(hash, ds) && SyncRun(hash, ds, states) && CleanStart(hash, ds, states[0]) && n <= |ds|
    ensures Holds(hash, ds, states[0], n, states[n])
  {
    if n == 0 {
      HoldsAtStart(hash, ds, states[0]);
    } else {
      HoldsAfter(hash, ds, states, n - 1);
      HoldsNext(hash, ds, states, n - 1);
    }
  }

  /** After any history of edits the Deployment owns exactly one ReplicaSet per template it ever had, the
      current one at the desired count and all others at zero; other ReplicaSets are as at the start. */
  lemma OneSetPerTemplate(hash: TemplateHash, ds: seq<Deployment>, states: seq<Sets>, n: nat)
    requires Edits(hash, ds) && SyncRun(hash, ds, states) && CleanStart(hash, ds, states[0]) && n <= |ds|
    ensures Holds(hash, ds, states[0], n, states[n])
    ensures forall name, i :: 0 <= i < n && name in states[n] && Owns(ds[i], states[n][name]) ==>
              UsedName(hash, ds, n, name)
    ensures forall i, j :: 0 <= i < n && 0 <= j < n ==>
              (NameOf(hash, ds[i]) == NameOf(hash, ds[j]) <==> ds[i].template == ds[j].template)
  {
    HoldsAfter(hash, ds, states, n);
    forall i, j | 0 <= i < n && 0 <= j < n
      ensures NameOf(hash, ds[i]) == NameOf(hash, ds[j]) <==> ds[i].template == ds[j].template
    {
      SameNameSameTemplate(hash, ds, i, j);
    }
  }

  /** Returning to a template used before creates no ReplicaSet: the old one is scaled up again. */
  lemma RollbackReuses(hash: TemplateHash, ds: seq<Deployment>, states: seq<Sets>, n: nat)
    requires Edits(hash, ds) && SyncRun(hash, ds, states) && CleanStart(hash, ds, states[0]) && n < |ds|
    ensures states[n + 1].Keys == states[n].Keys <==> Used(ds, n, ds[n].template)
    ensures NameOf(hash, ds[n]) in states[n + 1] && states[n + 1][NameOf(hash, ds[n])].replicas == Some(Desired(ds[n]))
  {
    HoldsAfter(hash, ds, states, n);
    StepOf(hash, ds, states, n);
    HoldsNext(hash, ds, states, n);
    if Used(ds, n, ds[n].template) {
      ReturnAddsNoName(hash, ds, states[0], n, states[n], states[n + 1]);
    }
    if NameOf(hash, ds[n]) in states[n] {
      assert UsedName(hash, ds, n, NameOf(hash, ds[n]));
      var i :| 0 <= i < n && NameOf(hash, ds[i]) == NameOf(hash, ds[n]);
      SameNameSameTemplate(hash, ds, i, n);
    }
    assert states[n + 1][NameOf(hash, ds[n])] == Revision(hash, ds, n + 1, n);
  }
}
