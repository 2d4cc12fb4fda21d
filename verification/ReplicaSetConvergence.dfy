/** The main results about passes of the ReplicaSet controller. */
module ReplicaSetConvergence {
  import opened Api
  import opened Registry
  import opened ReplicaSetController
  import opened PodSets
  import opened ReplicaSetPasses

  /** The closed form of a fault-free pass: n pods become n + sum of deficits - greatest surplus. */
  lemma ClosedForm(objects: map<string, Pod>, rss: seq<ReplicaSet>, pods: seq<Pod>, draws: seq<seq<string>>,
                   log: seq<Exchange<Pod>>, selector: Labels)
    requires Pass(objects, rss, pods, draws, log) && Isolated(selector, rss, pods) && AllServed(log)
    ensures var n := |Matching(selector, objects)|; var after := ServeAll(objects, log);
            |Matching(selector, after)| == n + SumDeficit(rss, selector, n) - MaxSurplus(rss, selector, n)
  {
    var removed, added := AfterPass(objects, rss, pods, draws, log, selector);
  }

  /** The pods that go in such a pass are exactly the first ones listed, and no surviving pod is changed. */
  lemma FirstListedGo(objects: map<string, Pod>, rss: seq<ReplicaSet>, pods: seq<Pod>, draws: seq<seq<string>>,
                      log: seq<Exchange<Pod>>, selector: Labels)
    requires Pass(objects, rss, pods, draws, log) && Isolated(selector, rss, pods) && AllServed(log)
    ensures var n := |Matching(selector, objects)|; var after := ServeAll(objects, log);
            && Matching(selector, after) * objects.Keys
               == Matching(selector, objects) - Front(Owned(selector, pods), MaxSurplus(rss, selector, n))
            && (forall name :: name in objects && name in after ==> after[name] == objects[name])
  {
    var removed, added := AfterPass(objects, rss, pods, draws, log, selector);
    ServedSets(objects, log);
  }

  /** Pods that no ReplicaSet with a replica count owns survive any pass unchanged, faults or not. */
  lemma {:induction false} UnownedUntouched(objects: map<string, Pod>, rss: seq<ReplicaSet>, pods: seq<Pod>,
                                            draws: seq<seq<string>>, log: seq<Exchange<Pod>>, name: string)
    requires Pass(objects, rss, pods, draws, log)
    requires name in objects
    requires forall i :: 0 <= i < |rss| && rss[i].replicas.Some? ==>
               !Selects(rss[i].selector, objects[name].meta.labels)
    ensures name in ServeAll(objects, log) && ServeAll(objects, log)[name] == objects[name]
  {
    ServedSets(objects, log);
    ServedNames(log, map[]);
    NotDeleted(objects, rss, pods, draws, name);
  }

  lemma {:induction false} NotDeleted(objects: map<string, Pod>, rss: seq<ReplicaSet>, pods: seq<Pod>,
                                      draws: seq<seq<string>>, name: string)
    requires NonNegative(rss) && PodsListed(objects, pods) && PassDraws(rss, pods, draws)
    requires Fresh(objects, PassPlan(rss, pods, draws)) && name in objects
    requires forall i :: 0 <= i < |rss| && rss[i].replicas.Some? ==>
               !Selects(rss[i].selector, objects[name].meta.labels)
    ensures name !in DeleteNames(PassPlan(rss, pods, draws))
  {
    if rss == [] {
    } else {
      var k := |rss| - 1;
      var rs := rss[k];
      var front, last := PassPlan(rss[..k], pods, draws[..k]), Plan(rs, pods, draws[k]);
      FreshPart(objects, front, last, map[]);
      NamesOfConcat(front, last, map[]);
      NotDeleted(objects, rss[..k], pods, draws[..k], name);
      PlanCreates(objects, rs, pods, draws[k], map[]);
      OwnedAreMatching(objects, pods, rs.selector);
      var owned := Owned(rs.selector, pods);
      assert Front(owned, Surplus(rs, |owned|)) <= NameSet(owned);
    }
  }

  // ----- Several revisions behind one selector

  lemma {:induction false} SumDeficitOf(rss: seq<ReplicaSet>, selector: Labels, n: nat, k: nat)
    requires k < |rss| && rss[k].selector == selector
    requires forall i :: 0 <= i < |rss| && i != k && rss[i].selector == selector ==> Deficit(rss[i], n) == 0
    ensures SumDeficit(rss, selector, n) == Deficit(rss[k], n)
  {
    var m := |rss| - 1;
    if k == m {
      NoDeficit(rss[..m], selector, n);
    } else {
      SumDeficitOf(rss[..m], selector, n, k);
    }
  }

  lemma {:induction false} NoDeficit(rss: seq<ReplicaSet>, selector: Labels, n: nat)
    requires forall i :: 0 <= i < |rss| && rss[i].selector == selector ==> Deficit(rss[i], n) == 0
    ensures SumDeficit(rss, selector, n) == 0
  {
    if rss == [] {
    } else {
      NoDeficit(rss[..|rss| - 1], selector, n);
    }
  }

  lemma {:induction false} MaxSurplusOf(rss: seq<ReplicaSet>, selector: Labels, n: nat, k: nat)
    requires NonNegative(rss)
    requires k < |rss| && rss[k].selector == selector
    requires forall i :: 0 <= i < |rss| && rss[i].selector == selector ==> Surplus(rss[i], n) <= Surplus(rss[k], n)
    ensures MaxSurplus(rss, selector, n) == Surplus(rss[k], n)
  {
    var m := |rss| - 1;
    SurplusBound(rss[..m], selector, n, Surplus(rss[k], n));
    if k != m {
      MaxSurplusOf(rss[..m], selector, n, k);
    }
  }

  lemma {:induction false} SurplusBound(rss: seq<ReplicaSet>, selector: Labels, n: nat, bound: nat)
    requires NonNegative(rss)
    requires forall i :: 0 <= i < |rss| && rss[i].selector == selector ==> Surplus(rss[i], n) <= bound
    ensures MaxSurplus(rss, selector, n) <= bound
  {
    if rss == [] {
    } else {
      SurplusBound(rss[..|rss| - 1], selector, n, bound);
    }
  }

  /** What a Deployment leaves behind after a rollout: the current revision wants `desired`, one or
      more former revisions want nothing, and all have the Deployment's selector. */
  ghost predicate LeftByRollout(rss: seq<ReplicaSet>, selector: Labels, desired: nat) {
    exists current: nat, former: nat :: LeftByRolloutAt(rss, selector, desired, current, former)
  }

  predicate LeftByRolloutAt(rss: seq<ReplicaSet>, selector: Labels, desired: nat, current: nat, former: nat) {
    && current < |rss| && former < |rss| && current != former
    && rss[current].selector == selector && rss[former].selector == selector
    && rss[current].replicas == Some(desired)
    && forall i :: 0 <= i < |rss| && i != current && rss[i].selector == selector ==> rss[i].replicas == Some(0)
  }

  lemma LeftByRolloutCounts(rss: seq<ReplicaSet>, selector: Labels, desired: nat, n: nat)
    requires NonNegative(rss) && LeftByRollout(rss, selector, desired)
    ensures SumDeficit(rss, selector, n) == Max(0, desired - n) && MaxSurplus(rss, selector, n) == n
  {
    var current: nat, former: nat :| LeftByRolloutAt(rss, selector, desired, current, former);
    SumDeficitOf(rss, selector, n, current);
    MaxSurplusOf(rss, selector, n, former);
  }

  /** One fault-free pass over a rolled-out Deployment. */
  ghost predicate RolloutPass(selector: Labels, desired: nat, before: map<string, Pod>, after: map<string, Pod>) {
    exists rss: seq<ReplicaSet>, pods: seq<Pod>, draws: seq<seq<string>>, log: seq<Exchange<Pod>> ::
      && Pass(before, rss, pods, draws, log) && Isolated(selector, rss, pods) && AllServed(log)
      && LeftByRollout(rss, selector, desired) && after == ServeAll(before, log)
  }

  /** With a former revision present, a pass turns n pods into max(0, desired - n). */
  lemma RolloutPassCount(selector: Labels, desired: nat, before: map<string, Pod>, after: map<string, Pod>)
    requires RolloutPass(selector, desired, before, after)
    ensures |Matching(selector, after)| == Max(0, desired - |Matching(selector, before)|)
  {
    var rss: seq<ReplicaSet>, pods: seq<Pod>, draws: seq<seq<string>>, log: seq<Exchange<Pod>> :|
      && Pass(before, rss, pods, draws, log) && Isolated(selector, rss, pods) && AllServed(log)
      && LeftByRollout(rss, selector, desired) && after == ServeAll(before, log);
    LeftByRolloutCounts(rss, selector, desired, |Matching(selector, before)|);
    ClosedForm(before, rss, pods, draws, log, selector);
  }

  /** Over any run of fault-free passes after a rollout the pod count swings between two values: it
      is at rest exactly at half the desired count, and from the desired count it drops to zero. */
  lemma RolloutNeverSettles(selector: Labels, desired: nat, states: seq<map<string, Pod>>)
    requires forall i :: 0 <= i < |states| - 1 ==> RolloutPass(selector, desired, states[i], states[i + 1])
    ensures forall i :: 0 <= i < |states| - 1 ==>
              (|Matching(selector, states[i + 1])| == |Matching(selector, states[i])| <==>
                2 * |Matching(selector, states[i])| == desired)
    ensures forall i :: 1 <= i < |states| - 2 ==>
              |Matching(selector, states[i + 2])| == |Matching(selector, states[i])|
    ensures forall i :: 0 <= i < |states| - 1 && |Matching(selector, states[i])| == desired ==>
              |Matching(selector, states[i + 1])| == 0
  {
    forall i | 0 <= i < |states| - 1
      ensures |Matching(selector, states[i + 1])| == Max(0, desired - |Matching(selector, states[i])|)
    {
      RolloutPassCount(selector, desired, states[i], states[i + 1]);
    }
    forall i | 1 <= i < |states| - 2
      ensures |Matching(selector, states[i + 2])| == |Matching(selector, states[i])|
    {
      var j := i - 1;
      assert |Matching(selector, states[j + 1])| == Max(0, desired - |Matching(selector, states[j])|);
      assert |Matching(selector, states[i + 1 + 1])| == Max(0, desired - |Matching(selector, states[i + 1])|);
    }
  }

  // ----- One ReplicaSet per selector

  /** Every ReplicaSet with a replica count has its own selector, and no listed pod or template
      satisfies two of them. */
  predicate Disjoint(rss: seq<ReplicaSet>, pods: seq<Pod>) {
    && (forall i, j :: 0 <= i < j < |rss| && rss[i].replicas.Some? && rss[j].replicas.Some?
                       ==> rss[i].selector != rss[j].selector)
    && (forall i :: 0 <= i < |rss| && rss[i].replicas.Some? ==> Isolated(rss[i].selector, rss, pods))
  }

  lemma SoleOwner(rss: seq<ReplicaSet>, pods: seq<Pod>, n: nat, j: nat)
    requires NonNegative(rss) && Disjoint(rss, pods) && j < |rss| && rss[j].replicas.Some?
    ensures SumDeficit(rss, rss[j].selector, n) == Deficit(rss[j], n)
    ensures MaxSurplus(rss, rss[j].selector, n) == Surplus(rss[j], n)
  {
    SumDeficitOf(rss, rss[j].selector, n, j);
    MaxSurplusOf(rss, rss[j].selector, n, j);
  }

  /** One fault-free pass leaves every ReplicaSet with exactly the pods it wants. */
  lemma PassConverges(objects: map<string, Pod>, rss: seq<ReplicaSet>, pods: seq<Pod>, draws: seq<seq<string>>,
                      log: seq<Exchange<Pod>>)
    requires Pass(objects, rss, pods, draws, log) && Disjoint(rss, pods) && AllServed(log)
    ensures forall j :: 0 <= j < |rss| && rss[j].replicas.Some?
              ==> |Matching(rss[j].selector, ServeAll(objects, log))| == rss[j].replicas.value
  {
    forall j | 0 <= j < |rss| && rss[j].replicas.Some?
      ensures |Matching(rss[j].selector, ServeAll(objects, log))| == rss[j].replicas.value
    {
      SoleOwner(rss, pods, |Matching(rss[j].selector, objects)|, j);
      ClosedForm(objects, rss, pods, draws, log, rss[j].selector);
    }
  }

  /** And once every ReplicaSet has what it wants, a pass over any listing sends nothing. */
  lemma {:induction false} ConvergedPassIsQuiet(objects: map<string, Pod>, rss: seq<ReplicaSet>, pods: seq<Pod>,
                                                draws: seq<seq<string>>)
    requires NonNegative(rss) && PodsListed(objects, pods) && PassDraws(rss, pods, draws)
    requires forall j :: 0 <= j < |rss| && rss[j].replicas.Some? ==>
               |Matching(rss[j].selector, objects)| == rss[j].replicas.value
    ensures PassPlan(rss, pods, draws) == []
  {
    if rss == [] {
    } else {
      var k := |rss| - 1;
      ConvergedPassIsQuiet(objects, rss[..k], pods, draws[..k]);
      OwnedAreMatching(objects, pods, rss[k].selector);
      assert Draws(rss[k], pods, draws[k]);
    }
  }

  predicate NamedAsSent(requests: seq<Request<Pod>>) {
    forall i :: 0 <= i < |requests| && requests[i].Create? ==> requests[i].obj.meta.name == requests[i].name
  }

  lemma {:induction false} PlansAreNamed(rss: seq<ReplicaSet>, pods: seq<Pod>, draws: seq<seq<string>>)
    requires NonNegative(rss) && |draws| == |rss|
    ensures NamedAsSent(PassPlan(rss, pods, draws))
  {
    if rss == [] {
    } else {
      var k := |rss| - 1;
      PlansAreNamed(rss[..k], pods, draws[..k]);
      assert NamedAsSent(Plan(rss[k], pods, draws[k]));
    }
  }

  /** A pass leaves every pod under its own name, whatever calls fail. */
  lemma PassKeepsKeyed(objects: map<string, Pod>, rss: seq<ReplicaSet>, pods: seq<Pod>, draws: seq<seq<string>>,
                       log: seq<Exchange<Pod>>)
    requires Pass(objects, rss, pods, draws, log)
    ensures Keyed(ServeAll(objects, log))
  {
    var after := ServeAll(objects, log);
    ServedSets(objects, log);
    PlansAreNamed(rss, pods, draws);
    forall name | name in after ensures after[name].meta.name == name {
      if name !in objects {
        var i :| 0 <= i < |log| && log[i].served && log[i].request.Create? && log[i].request.name == name;
        assert log[i].request == Requests(log)[i] && after[name] == log[i].request.obj;
      }
    }
  }

  /** The pass after a fault-free one sends nothing, on whatever listings of the same ReplicaSets and of the pods
      the first one has left. */
  lemma SecondPassIsQuiet(objects: map<string, Pod>, rss: seq<ReplicaSet>, pods: seq<Pod>, draws: seq<seq<string>>,
                          log: seq<Exchange<Pod>>,
                          rss': seq<ReplicaSet>, pods': seq<Pod>, keys': seq<string>, draws': seq<seq<string>>)
    requires Pass(objects, rss, pods, draws, log) && Disjoint(rss, pods) && AllServed(log)
    requires forall j :: 0 <= j < |rss'| ==> rss'[j] in rss
    requires Lists(ServeAll(objects, log), keys', pods') && PassDraws(rss', pods', draws')
    ensures NonNegative(rss') && PassPlan(rss', pods', draws') == []
  {
    PassConverges(objects, rss, pods, draws, log);
    PassKeepsKeyed(objects, rss, pods, draws, log);
    ListedByName(ServeAll(objects, log), keys', pods');
    assert NonNegative(rss') by {
      forall j | 0 <= j < |rss'| && rss'[j].replicas.Some? ensures 0 <= rss'[j].replicas.value {
        assert rss'[j] in rss;
      }
    }
    ConvergedPassIsQuiet(ServeAll(objects, log), rss', pods', draws');
  }

  /** At every call of a pass the count is between the first one and the target. */
  lemma PassStaysBetween(objects: map<string, Pod>, rss: seq<ReplicaSet>, pods: seq<Pod>, draws: seq<seq<string>>,
                         log: seq<Exchange<Pod>>, calls: nat, j: nat)
    requires Pass(objects, rss, pods, draws, log) && Disjoint(rss, pods)
    requires calls <= |log| && j < |rss| && rss[j].replicas.Some?
    ensures var n := |Matching(rss[j].selector, objects)|;
            var m := |Matching(rss[j].selector, ServeAll(objects, log[..calls]))|;
            n <= m <= rss[j].replicas.value || rss[j].replicas.value <= m <= n
  {
    var lost := seq(|log| - calls, i requires 0 <= i < |log| - calls => Exchange(log[calls + i].request, false));
    var cut := log[..calls] + lost;
    assert Requests(cut) == Requests(log);
    ServeAllConcat(objects, log[..calls], lost);
    LostChangesNothing(ServeAll(objects, log[..calls]), lost);
    SoleOwner(rss, pods, |Matching(rss[j].selector, objects)|, j);
    var removed, added := AfterPass(objects, rss, pods, draws, cut, rss[j].selector);
  }

  /** What is served of a log only grows. */
  lemma ServedGrows(log: seq<Exchange<Pod>>, a: nat, b: nat, selector: Labels)
    requires a <= b <= |log|
    ensures Deleted(log[..a]) <= Deleted(log[..b]) && CreatedFor(log[..a], selector) <= CreatedFor(log[..b], selector)
  {
    assert forall i :: 0 <= i < a ==> log[..a][i] == log[..b][i];
    forall name | name in CreatedFor(log[..a], selector) ensures name in CreatedFor(log[..b], selector) {
      var i :| 0 <= i < a && log[..a][i].served && log[..a][i].request.Create?
               && Selects(selector, log[..a][i].request.obj.meta.labels) && log[..a][i].request.name == name;
      assert log[..b][i].request.name == name;
    }
    forall name | name in Deleted(log[..a]) ensures name in Deleted(log[..b]) {
      var i :| 0 <= i < a && log[..a][i].served && log[..a][i].request.Delete? && log[..a][i].request.name == name;
      assert log[..b][i].request.name == name;
    }
  }

  /** The pods of a selector after some calls of a pass: those there were, less those deleted, and those created. */
  lemma MatchingAt(objects: map<string, Pod>, log: seq<Exchange<Pod>>, calls: nat, selector: Labels)
    requires Fresh(objects, Requests(log)) && calls <= |log|
    ensures Matching(selector, ServeAll(objects, log[..calls]))
         == Matching(selector, objects) - Deleted(log[..calls]) * Matching(selector, objects)
            + CreatedFor(log[..calls], selector)
  {
    assert Requests(log[..calls]) == Requests(log)[..calls];
    MatchingAfter(objects, log[..calls], selector);
  }

  /** A pass that starts at or below the target deletes none of the pods, one that starts at or above it creates none.
      */
  lemma OneWay(objects: map<string, Pod>, rss: seq<ReplicaSet>, pods: seq<Pod>, draws: seq<seq<string>>,
               log: seq<Exchange<Pod>>, calls: nat, j: nat)
    requires Pass(objects, rss, pods, draws, log) && Disjoint(rss, pods)
    requires calls <= |log| && j < |rss| && rss[j].replicas.Some?
    ensures var n := |Matching(rss[j].selector, objects)|;
            && (n <= rss[j].replicas.value ==> Deleted(log[..calls]) * Matching(rss[j].selector, objects) == {})
            && (rss[j].replicas.value <= n ==> CreatedFor(log[..calls], rss[j].selector) == {})
  {
    var selector, n := rss[j].selector, |Matching(rss[j].selector, objects)|;
    OwnedAreMatching(objects, pods, selector);
    PassNames(objects, rss, pods, draws, selector);
    SoleOwner(rss, pods, n, j);
    ServedNames(log, selector);
    ServedGrows(log, calls, |log|, selector);
    assert log[..|log|] == log;
    assert Front(Owned(selector, pods), 0) == {};
    assert Deleted(log[..calls]) <= DeleteNames(Requests(log));
    if rss[j].replicas.value <= n {
      assert |CreateNames(Requests(log), selector)| == 0;
      assert CreatedFor(log[..calls], selector) <= {};
    }
    if n <= rss[j].replicas.value {
      assert DeleteNames(Requests(log)) * Matching(selector, objects) == {};
    }
  }

  /** The distance of a ReplicaSet's pod count from its target never grows from one call to a later one, and the target
      is never crossed, whichever calls fail. */
  lemma FaultyPassApproaches(objects: map<string, Pod>, rss: seq<ReplicaSet>, pods: seq<Pod>, draws: seq<seq<string>>,
                             log: seq<Exchange<Pod>>, a: nat, b: nat, j: nat)
    requires Pass(objects, rss, pods, draws, log) && Disjoint(rss, pods)
    requires a <= b <= |log| && j < |rss| && rss[j].replicas.Some?
    ensures var desired, n := rss[j].replicas.value, |Matching(rss[j].selector, objects)|;
            var earlier := |Matching(rss[j].selector, ServeAll(objects, log[..a]))|;
            var later := |Matching(rss[j].selector, ServeAll(objects, log[..b]))|;
            n <= earlier <= later <= desired || desired <= later <= earlier <= n
  {
    var selector := rss[j].selector;
    var before := Matching(selector, ServeAll(objects, log[..a]));
    var after := Matching(selector, ServeAll(objects, log[..b]));
    PassStaysBetween(objects, rss, pods, draws, log, a, j);
    PassStaysBetween(objects, rss, pods, draws, log, b, j);
    MatchingAt(objects, log, a, selector);
    MatchingAt(objects, log, b, selector);
    OneWay(objects, rss, pods, draws, log, a, j);
    OneWay(objects, rss, pods, draws, log, b, j);
    ServedGrows(log, a, b, selector);
    if |Matching(selector, objects)| <= rss[j].replicas.value {
      SubsetSize(before, after);
    } else {
      SubsetSize(after, before);
    }
  }

  lemma {:induction false} LostChangesNothing(objects: map<string, Pod>, log: seq<Exchange<Pod>>)
    requires forall i :: 0 <= i < |log| ==> !log[i].served
    ensures ServeAll(objects, log) == objects
  {
    if log == [] {
    } else {
      LostChangesNothing(objects, log[..|log| - 1]);
    }
  }
}
