/** What a sync of a Deployment achieves: its exact effect, how far replicas surge on the way, and that
    a second sync has nothing to do. */
module Rollout {
  import opened Api
  import opened Registry
  import opened DeploymentController

  type Sets = map<string, ReplicaSet>

  predicate Keyed(objects: Sets) {
    forall name :: name in objects ==> objects[name].meta.name == name
  }

  predicate Owns(d: Deployment, rs: ReplicaSet) {
    Matches(d.selector, rs.meta.labels)
  }

  function Down(rs: ReplicaSet): ReplicaSet {
    if Runs(rs) then rs.(replicas := Some(0)) else rs
  }

  /** A list of ReplicaSets of distinct names, each as stored. */
  predicate Stored(objects: Sets, rss: seq<ReplicaSet>) {
    && (forall i :: 0 <= i < |rss| ==> rss[i].meta.name in objects && objects[rss[i].meta.name] == rss[i])
    && (forall i, j :: 0 <= i < j < |rss| ==> rss[i].meta.name != rss[j].meta.name)
  }

  lemma ListedAreStored(objects: Sets, names: seq<string>, rss: seq<ReplicaSet>)
    requires Keyed(objects) && Lists(objects, names, rss)
    ensures Stored(objects, rss) && forall name :: name in objects ==> objects[name] in rss
  {
    assert forall i :: 0 <= i < |rss| ==> names[i] == rss[i].meta.name;
    forall name | name in objects ensures objects[name] in rss {
      var i :| 0 <= i < |names| && names[i] == name;
    }
  }

  lemma {:induction false} OwnedStored(objects: Sets, rss: seq<ReplicaSet>, selector: Labels)
    requires Stored(objects, rss)
    ensures Stored(objects, OwnedSets(selector, rss))
    ensures forall rs :: rs in OwnedSets(selector, rss) <==> rs in rss && Matches(selector, rs.meta.labels)
  {
    if rss == [] {
    } else {
      var k := |rss| - 1;
      OwnedStored(objects, rss[..k], selector);
      assert rss == rss[..k] + [rss[k]];
      forall i | 0 <= i < |OwnedSets(selector, rss[..k])| ensures OwnedSets(selector, rss[..k])[i] in rss[..k] {
      }
    }
  }

  lemma {:induction false} OldStored(objects: Sets, owned: seq<ReplicaSet>, name: string)
    requires Stored(objects, owned)
    ensures Stored(objects, OldSets(owned, name))
    ensures forall rs :: rs in OldSets(owned, name) <==> rs in owned && rs.meta.name != name
  {
    if owned == [] {
    } else {
      var k := |owned| - 1;
      OldStored(objects, owned[..k], name);
      assert owned == owned[..k] + [owned[k]];
      forall i | 0 <= i < |OldSets(owned[..k], name)| ensures OldSets(owned[..k], name)[i] in owned[..k] {
      }
    }
  }

  lemma ScaleDownsNext(objects: Sets, olds: seq<ReplicaSet>)
    requires olds != []
    ensures var k := |olds| - 1; var before := ServeRequests(objects, ScaleDowns(olds[..k]));
            ServeRequests(objects, ScaleDowns(olds))
            == if Runs(olds[k]) then Serve(before, Update(olds[k].meta.name, olds[k].(replicas := Some(0)))) else before
  {
    var k, requests := |olds| - 1, ScaleDowns(olds);
    if Runs(olds[k]) {
      assert requests[..|requests| - 1] == ScaleDowns(olds[..k]);
    }
  }

  /** A stored ReplicaSet is among the old ones if it is the last of them or among the others. */
  lemma LastOld(objects: Sets, olds: seq<ReplicaSet>, name: string)
    requires Keyed(objects) && Stored(objects, olds) && olds != [] && name in objects
    ensures var k := |olds| - 1;
            && (objects[name] in olds <==> objects[name] in olds[..k] || name == olds[k].meta.name)
            && (name == olds[k].meta.name ==> objects[name] == olds[k] && objects[name] !in olds[..k])
  {
    var k := |olds| - 1;
    assert olds == olds[..k] + [olds[k]];
  }

  lemma StoredFront(objects: Sets, olds: seq<ReplicaSet>)
    requires Stored(objects, olds) && olds != []
    ensures Stored(objects, olds[..|olds| - 1])
    ensures olds[|olds| - 1].meta.name in objects
  {
  }

  /** Scaling the old ReplicaSets down changes exactly those that run. */
  lemma {:induction false} ScaledDown(objects: Sets, olds: seq<ReplicaSet>)
    requires Keyed(objects) && Stored(objects, olds)
    ensures var after := ServeRequests(objects, ScaleDowns(olds));
            && after.Keys == objects.Keys
            && forall name :: name in objects ==>
                 after[name] == if objects[name] in olds then Down(objects[name]) else objects[name]
  {
    if olds == [] {
    } else {
      var k := |olds| - 1;
      StoredFront(objects, olds);
      ScaledDown(objects, olds[..k]);
      ScaleDownsNext(objects, olds);
      var after := ServeRequests(objects, ScaleDowns(olds));
      forall name | name in objects
        ensures after[name] == if objects[name] in olds then Down(objects[name]) else objects[name]
      {
        LastOld(objects, olds, name);
      }
    }
  }

  /** The state a fault-free sync leaves: the current revision at the desired count, every other owned
      ReplicaSet that ran at zero, all others as they were. */
  ghost predicate RolledOut(objects: Sets, d: Deployment, current: ReplicaSet, after: Sets) {
    && after.Keys == objects.Keys + {current.meta.name}
    && after[current.meta.name] == current.(replicas := Some(Desired(d)))
    && (forall name :: name in objects && name != current.meta.name ==>
         after[name] == if Owns(d, objects[name]) then Down(objects[name]) else objects[name])
  }

  lemma CurrentScaled(d: Deployment, before: Sets, rss: seq<ReplicaSet>, digest: Digest)
    requires Stored(before, rss) && (IsNew(d, rss, digest) ==> SetName(d, digest) !in before)
    ensures var current := Current(d, rss, digest);
            ServeRequests(before, Creation(d, rss, digest) + ScaleTo(current, Desired(d)))
            == before[current.meta.name := current.(replicas := Some(Desired(d)))]
  {
    var current := Current(d, rss, digest);
    var created := ServeRequests(before, Creation(d, rss, digest));
    ServeRequestsConcat(before, Creation(d, rss, digest), ScaleTo(current, Desired(d)));
    assert created == before[current.meta.name := current] by {
      if IsNew(d, rss, digest) {
        assert Creation(d, rss, digest)[..0] == [];
      } else {
        OwnedStored(before, rss, d.selector);
        assert current in rss;
      }
    }
    if current.replicas != Some(Desired(d)) {
      assert ScaleTo(current, Desired(d))[..0] == [];
    } else {
      assert current.(replicas := Some(Desired(d))) == current;
    }
  }

  lemma OldIff(objects: Sets, rss: seq<ReplicaSet>, d: Deployment, current: string, name: string)
    requires Stored(objects, rss) && Keyed(objects) && (forall k :: k in objects ==> objects[k] in rss)
    requires name in objects && name != current
    ensures objects[name] in OldSets(OwnedSets(d.selector, rss), current) <==> Owns(d, objects[name])
  {
    OwnedStored(objects, rss, d.selector);
    OldStored(objects, OwnedSets(d.selector, rss), current);
  }

  lemma OldsOf(objects: Sets, rss: seq<ReplicaSet>, selector: Labels, current: string)
    requires Stored(objects, rss)
    ensures Stored(objects, OldSets(OwnedSets(selector, rss), current))
    ensures forall rs :: rs in OldSets(OwnedSets(selector, rss), current) ==>
              rs.meta.name != current && Matches(selector, rs.meta.labels)
  {
    OwnedStored(objects, rss, selector);
    OldStored(objects, OwnedSets(selector, rss), current);
  }

  lemma FirstOld(objects: Sets, rss: seq<ReplicaSet>, selector: Labels, current: string)
    requires Stored(objects, rss)
    ensures var olds := OldSets(OwnedSets(selector, rss), current);
            olds != [] ==>
              && olds[0].meta.name in objects && objects[olds[0].meta.name] == olds[0]
              && olds[0].meta.name != current && Matches(selector, olds[0].meta.labels)
  {
    OldsOf(objects, rss, selector, current);
    var olds := OldSets(OwnedSets(selector, rss), current);
    if olds != [] {
      assert olds[0] in olds;
    }
  }

  function Scaled(before: Sets, current: ReplicaSet, replicas: int): Sets {
    before[current.meta.name := current.(replicas := Some(replicas))]
  }

  lemma DownsRollOut(before: Sets, d: Deployment, current: ReplicaSet, rss: seq<ReplicaSet>)
    requires Keyed(before) && Stored(before, rss) && (forall k :: k in before ==> before[k] in rss)
    ensures var olds := OldSets(OwnedSets(d.selector, rss), current.meta.name);
            RolledOut(before, d, current, ServeRequests(Scaled(before, current, Desired(d)), ScaleDowns(olds)))
  {
    var name := current.meta.name;
    var olds := OldSets(OwnedSets(d.selector, rss), name);
    DownsEach(before, d, current, rss);
    forall k | k in before && k != name
      ensures before[k] in olds <==> Owns(d, before[k])
    {
      OldIff(before, rss, d, name, k);
    }
  }

  /** The scale-downs after the current ReplicaSet has been scaled, name by name. */
  lemma DownsEach(before: Sets, d: Deployment, current: ReplicaSet, rss: seq<ReplicaSet>)
    requires Keyed(before) && Stored(before, rss)
    ensures var olds := OldSets(OwnedSets(d.selector, rss), current.meta.name);
            var scaled := Scaled(before, current, Desired(d));
            var after := ServeRequests(scaled, ScaleDowns(olds));
            && after.Keys == before.Keys + {current.meta.name} && after[current.meta.name] == scaled[current.meta.name]
            && forall k :: k in before && k != current.meta.name ==>
                 after[k] == if before[k] in olds then Down(before[k]) else before[k]
  {
    var name := current.meta.name;
    var olds := OldSets(OwnedSets(d.selector, rss), name);
    var scaled := Scaled(before, current, Desired(d));
    OldsOf(before, rss, d.selector, name);
    OldsUntouched(before, scaled, olds, name);
    ScaledDown(scaled, olds);
    assert scaled[name] !in olds;
  }

  lemma SyncRollsOut(hash: TemplateHash, d: Deployment, before: Sets, after: Sets, rss: seq<ReplicaSet>,
                     names: seq<string>)
    requires Keyed(before) && Synced(hash, d, before, after, rss, names)
    requires IsNew(d, rss, hash(d.template)) ==> SetName(d, hash(d.template)) !in before
    ensures RolledOut(before, d, Current(d, rss, hash(d.template)), after)
  {
    var digest := hash(d.template);
    var current := Current(d, rss, digest);
    var downs := ScaleDowns(OldSets(OwnedSets(d.selector, rss), current.meta.name));
    ListedAreStored(before, names, rss);
    CurrentScaled(d, before, rss, digest);
    var first := Creation(d, rss, digest) + ScaleTo(current, Desired(d));
    assert Creation(d, rss, digest) + Scaling(d, rss, digest) == first + downs;
    ServeRequestsConcat(before, first, downs);
    DownsRollOut(before, d, current, rss);
  }

  lemma OldsUntouched(before: Sets, scaled: Sets, olds: seq<ReplicaSet>, current: string)
    requires Stored(before, olds) && Keyed(before) && (forall rs :: rs in olds ==> rs.meta.name != current)
    requires forall name :: name in before && name != current ==> name in scaled && scaled[name] == before[name]
    ensures Stored(scaled, olds)
  {
    forall i | 0 <= i < |olds| ensures olds[i].meta.name in scaled && scaled[olds[i].meta.name] == olds[i] {
      assert olds[i] in olds;
    }
  }

  /** At most one owned ReplicaSet carries the revision. */
  predicate UniqueRevision(objects: Sets, d: Deployment, hash: string) {
    forall a, b :: a in objects && b in objects && Owns(d, objects[a]) && Owns(d, objects[b])
                   && OfRevision(objects[a], hash) && OfRevision(objects[b], hash)
                   ==> a == b
  }

  /** A second sync, on any listing of what the first one left, sends nothing. */
  lemma SecondSyncIsQuiet(hash: TemplateHash, d: Deployment, before: Sets, after: Sets, rss: seq<ReplicaSet>,
                          names: seq<string>,
                          rss': seq<ReplicaSet>, names': seq<string>)
    requires Keyed(before) && Synced(hash, d, before, after, rss, names)
    requires IsNew(d, rss, hash(d.template)) ==> SetName(d, hash(d.template)) !in before
    requires Matches(d.selector, d.template.meta.labels) && UniqueRevision(before, d, hash(d.template))
    requires Lists(after, names', rss')
    ensures Creation(d, rss', hash(d.template)) == [] && Scaling(d, rss', hash(d.template)) == []
  {
    var digest := hash(d.template);
    var current := Current(d, rss, digest);
    SyncRollsOut(hash, d, before, after, rss, names);
    CurrentIsOwned(before, d, rss, names, digest);
    QuietOnceRolledOut(before, d, current, after, digest, rss', names');
  }

  lemma QuietOnceRolledOut(before: Sets, d: Deployment, current: ReplicaSet, after: Sets, hash: Digest,
                           rss: seq<ReplicaSet>, names: seq<string>)
    requires Keyed(before) && RolledOut(before, d, current, after) && UniqueRevision(before, d, hash)
    requires OfRevision(current, hash) && Owns(d, current)
    requires current.meta.name in before ==> before[current.meta.name] == current
    requires current.meta.name !in before ==> forall k :: k in before && Owns(d, before[k]) ==>
               !OfRevision(before[k], hash)
    requires Lists(after, names, rss)
    ensures Creation(d, rss, hash) == [] && Scaling(d, rss, hash) == []
  {
    var done := after[current.meta.name];
    assert Keyed(after);
    LookupSucceeds(after, d, rss, names, hash, done.meta.name);
    var found := FindRevision(OwnedSets(d.selector, rss), hash).value;
    SameRevision(before, d, current, after, hash, found.meta.name);
    OnlyCurrentRuns(before, d, current, after, rss, names);
  }

  /** A stored, owned ReplicaSet of the revision makes the lookup succeed, with such a one. */
  lemma LookupSucceeds(objects: Sets, d: Deployment, rss: seq<ReplicaSet>, names: seq<string>, hash: Digest,
                       name: string)
    requires Keyed(objects) && Lists(objects, names, rss)
    requires name in objects && Owns(d, objects[name]) && OfRevision(objects[name], hash)
    ensures !IsNew(d, rss, hash)
    ensures var found := FindRevision(OwnedSets(d.selector, rss), hash).value;
            found.meta.name in objects && objects[found.meta.name] == found && Owns(d, found)
  {
    ListedAreStored(objects, names, rss);
    OwnedStored(objects, rss, d.selector);
    assert objects[name] in OwnedSets(d.selector, rss);
    var found := FindRevision(OwnedSets(d.selector, rss), hash);
    assert found.Some? && found.value in rss;
  }

  lemma OnlyCurrentRuns(before: Sets, d: Deployment, current: ReplicaSet, after: Sets, rss: seq<ReplicaSet>,
                        names: seq<string>)
    requires Keyed(before) && RolledOut(before, d, current, after) && Lists(after, names, rss)
    ensures ScaleDowns(OldSets(OwnedSets(d.selector, rss), current.meta.name)) == []
  {
    ListedAreStored(after, names, rss);
    OldsOf(after, rss, d.selector, current.meta.name);
    var olds := OldSets(OwnedSets(d.selector, rss), current.meta.name);
    forall i | 0 <= i < |olds| ensures !Runs(olds[i]) {
      assert olds[i] in olds;
      OthersAreDown(before, d, current, after, olds[i].meta.name);
    }
    NothingRuns(olds);
  }

  lemma OthersAreDown(before: Sets, d: Deployment, current: ReplicaSet, after: Sets, name: string)
    requires RolledOut(before, d, current, after)
    requires name in after && name != current.meta.name && Owns(d, after[name])
    ensures name in before && !Runs(after[name])
  {
  }

  lemma CurrentIsOwned(objects: Sets, d: Deployment, rss: seq<ReplicaSet>, names: seq<string>, hash: Digest)
    requires Keyed(objects) && Lists(objects, names, rss) && Matches(d.selector, d.template.meta.labels)
    ensures Owns(d, Current(d, rss, hash)) && OfRevision(Current(d, rss, hash), hash)
    ensures IsNew(d, rss, hash) <==>
              forall name :: name in objects && Owns(d, objects[name]) ==> !OfRevision(objects[name], hash)
    ensures !IsNew(d, rss, hash) ==>
              Current(d, rss, hash).meta.name in objects
                && objects[Current(d, rss, hash).meta.name] == Current(d, rss, hash)
  {
    ListedAreStored(objects, names, rss);
    OwnedStored(objects, rss, d.selector);
    var owned := OwnedSets(d.selector, rss);
    if IsNew(d, rss, hash) {
      forall name | name in objects && Owns(d, objects[name]) ensures !OfRevision(objects[name], hash) {
        assert objects[name] in owned;
      }
    } else {
      assert Current(d, rss, hash) in rss;
    }
  }

  lemma SameRevision(before: Sets, d: Deployment, current: ReplicaSet, after: Sets, hash: string, name: string)
    requires Keyed(before) && RolledOut(before, d, current, after) && UniqueRevision(before, d, hash)
    requires OfRevision(current, hash) && Owns(d, current)
    requires current.meta.name in before ==> before[current.meta.name] == current
    requires current.meta.name !in before ==> forall k :: k in before && Owns(d, before[k]) ==>
               !OfRevision(before[k], hash)
    requires name in after && Owns(d, after[name]) && OfRevision(after[name], hash)
    ensures name == current.meta.name
  {
  }

  lemma {:induction false} NothingRuns(olds: seq<ReplicaSet>)
    requires forall i :: 0 <= i < |olds| ==> !Runs(olds[i])
    ensures ScaleDowns(olds) == []
  {
    if olds == [] {
    } else {
      NothingRuns(olds[..|olds| - 1]);
    }
  }

  // ----- The surge, under arbitrary faults

  function Replicas(rs: ReplicaSet): int {
    if rs.replicas.Some? then rs.replicas.value else 0
  }

  /** The sum of the replica counts stored under some names. */
  function Total(objects: Sets, rss: seq<ReplicaSet>): int
    requires forall i :: 0 <= i < |rss| ==> rss[i].meta.name in objects
  {
    if rss == [] then 0
    else Total(objects, rss[..|rss| - 1]) + Replicas(objects[rss[|rss| - 1].meta.name])
  }

  /** The sum the code keeps in currentReplicas. */
  function CurrentReplicas(olds: seq<ReplicaSet>): int {
    if olds == [] then 0 else CurrentReplicas(olds[..|olds| - 1]) + Replicas(olds[|olds| - 1])
  }

  /** Whatever has been lost so far, every old ReplicaSet is either as listed or scaled to zero. */
  lemma {:induction false} OldsUnderFaults(objects: Sets, current: string, olds: seq<ReplicaSet>,
                                           log: seq<Exchange<ReplicaSet>>)
    requires Stored(objects, olds) && forall i :: 0 <= i < |olds| ==> olds[i].meta.name != current
    requires forall i :: 0 <= i < |log| ==>
               !log[i].request.Delete? && (log[i].request.name == current || log[i].request in ScaleDowns(olds))
    ensures var t := ServeAll(objects, log);
            && objects.Keys <= t.Keys <= objects.Keys + {current}
            && forall i :: 0 <= i < |olds| ==> t[olds[i].meta.name] == olds[i] || t[olds[i].meta.name] == Down(olds[i])
  {
    if log == [] {
    } else {
      var last := log[|log| - 1];
      OldsUnderFaults(objects, current, olds, log[..|log| - 1]);
      if last.served && last.request.name != current {
        ScaleDownOf(olds, last.request);
      }
    }
  }

  lemma {:induction false} ScaleDownOf(olds: seq<ReplicaSet>, request: Request<ReplicaSet>)
    requires request in ScaleDowns(olds)
    ensures request.Update?
    ensures exists i :: 0 <= i < |olds| && request.name == olds[i].meta.name && request.obj == Down(olds[i])
  {
    if olds == [] {
    } else {
      var k := |olds| - 1;
      if request in ScaleDowns(olds[..k]) {
        ScaleDownOf(olds[..k], request);
        var i :| 0 <= i < k && request.name == olds[..k][i].meta.name && request.obj == Down(olds[..k][i]);
        assert olds[i] == olds[..k][i];
      } else {
        assert request.name == olds[k].meta.name;
      }
    }
  }

  lemma {:induction false} TotalBounded(t: Sets, olds: seq<ReplicaSet>)
    requires forall i :: 0 <= i < |olds| ==> olds[i].meta.name in t && 0 <= Replicas(olds[i])
    requires forall i :: 0 <= i < |olds| ==> t[olds[i].meta.name] == olds[i] || t[olds[i].meta.name] == Down(olds[i])
    ensures 0 <= Total(t, olds) <= CurrentReplicas(olds)
  {
    if olds == [] {
    } else {
      TotalBounded(t, olds[..|olds| - 1]);
    }
  }

  /** What a sync may send: to the current ReplicaSet a creation or the desired count, to an old one its scale-down. */
  ghost predicate Touches(d: Deployment, current: string, olds: seq<ReplicaSet>, request: Request<ReplicaSet>) {
    && !request.Delete?
    && if request.name == current then request.Update? ==> request.obj.replicas == Some(Desired(d))
       else request in ScaleDowns(olds)
  }

  lemma PlanTouches(objects: Sets, d: Deployment, rss: seq<ReplicaSet>, hash: Digest, request: Request<ReplicaSet>)
    requires Stored(objects, rss) && request in Creation(d, rss, hash) + Scaling(d, rss, hash)
    ensures var current := Current(d, rss, hash);
            Touches(d, current.meta.name, OldSets(OwnedSets(d.selector, rss), current.meta.name), request)
  {
    var current := Current(d, rss, hash);
    var olds := OldSets(OwnedSets(d.selector, rss), current.meta.name);
    if request in ScaleDowns(olds) {
      ScaleDownOf(olds, request);
      OldsOf(objects, rss, d.selector, current.meta.name);
      var i :| 0 <= i < |olds| && request.name == olds[i].meta.name;
      assert olds[i] in olds;
    } else {
      assert request in Creation(d, rss, hash) || request in ScaleTo(current, Desired(d));
    }
  }

  predicate AtDesired(d: Deployment, current: string, t: Sets) {
    current in t && t[current].replicas == Some(Desired(d))
  }

  /** Once at the desired count the current ReplicaSet stays there, whatever of the sync arrives. */
  lemma {:induction false} StaysAtDesired(d: Deployment, current: string, olds: seq<ReplicaSet>, t: Sets,
                                          log: seq<Exchange<ReplicaSet>>)
    requires AtDesired(d, current, t)
    requires forall i :: 0 <= i < |log| ==> Touches(d, current, olds, log[i].request)
    ensures AtDesired(d, current, ServeAll(t, log))
  {
    if log == [] {
    } else {
      StaysAtDesired(d, current, olds, t, log[..|log| - 1]);
      assert Touches(d, current, olds, log[|log| - 1].request);
    }
  }

  /** From the moment the current ReplicaSet is at the desired count it stays there, and at every later call of the
      sync, whichever calls were lost, the replicas wanted by all owned ReplicaSets together are at least the desired
      count and at most that plus what the old ones wanted at the start. */
  lemma SurgeBounded(hash: Digest, d: Deployment, objects: Sets, rss: seq<ReplicaSet>, names: seq<string>,
                     log: seq<Exchange<ReplicaSet>>, from: nat, calls: nat)
    requires Keyed(objects) && Lists(objects, names, rss) && from <= calls <= |log|
    requires Requests(log) == Creation(d, rss, hash) + Scaling(d, rss, hash)
    requires forall name :: name in objects && Owns(d, objects[name]) ==> 0 <= Replicas(objects[name])
    requires AtDesired(d, Current(d, rss, hash).meta.name, ServeAll(objects, log[..from]))
    ensures var t := ServeAll(objects, log[..calls]);
            var current := Current(d, rss, hash).meta.name;
            var olds := OldSets(OwnedSets(d.selector, rss), current);
            && AtDesired(d, current, t)
            && (forall i :: 0 <= i < |olds| ==> olds[i].meta.name in t)
            && Desired(d) <= Replicas(t[current]) + Total(t, olds) <= Desired(d) + CurrentReplicas(olds)
  {
    var current := Current(d, rss, hash).meta.name;
    var olds := OldSets(OwnedSets(d.selector, rss), current);
    ListedAreStored(objects, names, rss);
    OldsWanted(d, objects, rss, current);
    LogTouches(objects, d, rss, hash, log);
    DesiredFromThere(d, current, olds, objects, log, from, calls);
    OldTotal(d, current, olds, objects, log[..calls]);
  }

  lemma LogTouches(objects: Sets, d: Deployment, rss: seq<ReplicaSet>, hash: Digest, log: seq<Exchange<ReplicaSet>>)
    requires Stored(objects, rss) && Requests(log) == Creation(d, rss, hash) + Scaling(d, rss, hash)
    ensures var current := Current(d, rss, hash).meta.name;
            forall i :: 0 <= i < |log| ==>
              Touches(d, current, OldSets(OwnedSets(d.selector, rss), current), log[i].request)
  {
    forall i | 0 <= i < |log|
      ensures Touches(d, Current(d, rss, hash).meta.name,
                      OldSets(OwnedSets(d.selector, rss), Current(d, rss, hash).meta.name), log[i].request)
    {
      assert log[i].request == Requests(log)[i];
      PlanTouches(objects, d, rss, hash, log[i].request);
    }
  }

  lemma DesiredFromThere(d: Deployment, current: string, olds: seq<ReplicaSet>, objects: Sets,
                         log: seq<Exchange<ReplicaSet>>,
                         from: nat, calls: nat)
    requires from <= calls <= |log| && forall i :: 0 <= i < |log| ==> Touches(d, current, olds, log[i].request)
    requires AtDesired(d, current, ServeAll(objects, log[..from]))
    ensures AtDesired(d, current, ServeAll(objects, log[..calls]))
  {
    assert log[..calls] == log[..from] + log[from..calls];
    ServeAllConcat(objects, log[..from], log[from..calls]);
    StaysAtDesired(d, current, olds, ServeAll(objects, log[..from]), log[from..calls]);
  }

  lemma OldTotal(d: Deployment, current: string, olds: seq<ReplicaSet>, objects: Sets, log: seq<Exchange<ReplicaSet>>)
    requires Stored(objects, olds)
    requires forall i :: 0 <= i < |olds| ==> olds[i].meta.name != current && 0 <= Replicas(olds[i])
    requires forall i :: 0 <= i < |log| ==> Touches(d, current, olds, log[i].request)
    ensures var t := ServeAll(objects, log);
            (forall i :: 0 <= i < |olds| ==> olds[i].meta.name in t) && 0 <= Total(t, olds) <= CurrentReplicas(olds)
  {
    OldsUnderFaults(objects, current, olds, log);
    TotalBounded(ServeAll(objects, log), olds);
  }

  lemma OldsWanted(d: Deployment, objects: Sets, rss: seq<ReplicaSet>, current: string)
    requires Stored(objects, rss)
    requires forall name :: name in objects && Owns(d, objects[name]) ==> 0 <= Replicas(objects[name])
    ensures var olds := OldSets(OwnedSets(d.selector, rss), current);
            && Stored(objects, olds)
            && forall i :: 0 <= i < |olds| ==> olds[i].meta.name != current && 0 <= Replicas(olds[i])
  {
    OldsOf(objects, rss, d.selector, current);
    var olds := OldSets(OwnedSets(d.selector, rss), current);
    forall i | 0 <= i < |olds| ensures olds[i].meta.name != current && 0 <= Replicas(olds[i]) {
      assert olds[i] in olds;
    }
  }
}
