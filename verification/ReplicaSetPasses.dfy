/** What a pass of the ReplicaSet controller does to the number of pods: its closed form when
    ReplicaSets share a selector, and convergence when they do not. */
module ReplicaSetPasses {
  import opened Api
  import opened Registry
  import opened ReplicaSetController
  import opened PodSets

  predicate NonNegative(rss: seq<ReplicaSet>) {
    forall i :: 0 <= i < |rss| && rss[i].replicas.Some? ==> 0 <= rss[i].replicas.value
  }

  /** The ReplicaSets with this selector all make pods for it; the others neither make pods for
      it nor own any listed pod that it owns. */
  predicate Isolated(selector: Labels, rss: seq<ReplicaSet>, pods: seq<Pod>) {
    forall i :: 0 <= i < |rss| ==> IsolatedFrom(selector, rss[i], pods)
  }

  predicate IsolatedFrom(selector: Labels, rs: ReplicaSet, pods: seq<Pod>) {
    rs.replicas.Some? ==>
      if rs.selector == selector then Selects(selector, rs.template.meta.labels)
      else
        && !Selects(selector, rs.template.meta.labels)
        && forall i :: 0 <= i < |pods| ==>
          !(Selects(selector, pods[i].meta.labels) && Selects(rs.selector, pods[i].meta.labels))
  }

  /** The names of the first `count` pods of a list. */
  function Front(pods: seq<Pod>, count: nat): set<string> {
    set i | 0 <= i < count && i < |pods| :: pods[i].meta.name
  }

  /** The sum of max(0, desired - n) over the ReplicaSets with this selector. */
  function SumDeficit(rss: seq<ReplicaSet>, selector: Labels, n: nat): nat {
    if rss == [] then 0
    else
      var last := rss[|rss| - 1];
      SumDeficit(rss[..|rss| - 1], selector, n) + if last.selector == selector then Deficit(last, n) else 0
  }

  /** The maximum of max(0, n - desired) over the ReplicaSets with this selector. */
  function MaxSurplus(rss: seq<ReplicaSet>, selector: Labels, n: nat): (surplus: nat)
    requires NonNegative(rss)
    ensures surplus <= n
  {
    if rss == [] then 0
    else
      var last := rss[|rss| - 1];
      Max(MaxSurplus(rss[..|rss| - 1], selector, n), if last.selector == selector then Surplus(last, n) else 0)
  }

  function CreateNames(requests: seq<Request<Pod>>, selector: Labels): set<string> {
    set i | 0 <= i < |requests| && requests[i].Create? && Selects(selector, requests[i].obj.meta.labels) ::
      requests[i].name
  }

  function DeleteNames(requests: seq<Request<Pod>>): set<string> {
    set i | 0 <= i < |requests| && requests[i].Delete? :: requests[i].name
  }

  ghost predicate PassDraws(rss: seq<ReplicaSet>, pods: seq<Pod>, draws: seq<seq<string>>) {
    |draws| == |rss| && forall i :: 0 <= i < |rss| ==> Draws(rss[i], pods, draws[i])
  }

  /** A pass on listing `pods` of `objects`, in which the requests of `log` were sent. */
  ghost predicate Pass(objects: map<string, Pod>, rss: seq<ReplicaSet>, pods: seq<Pod>,
                       draws: seq<seq<string>>, log: seq<Exchange<Pod>>)
  {
    && NonNegative(rss)
    && PodsListed(objects, pods)
    && PassDraws(rss, pods, draws)
    && Requests(log) == PassPlan(rss, pods, draws)
    && Fresh(objects, Requests(log))
  }

  /** What the controller's method promises is such a pass, once the names it draws are new: what it leaves
      is what the server made of the pass, all of it if no call fails. */
  lemma IssuedIsPass(reliable: bool, before: map<string, Pod>, history: seq<Exchange<Pod>>, after: map<string, Pod>,
                     history': seq<Exchange<Pod>>, rss: seq<ReplicaSet>, pods: seq<Pod>, names: seq<string>,
                     draws: seq<seq<string>>)
    requires PlansIssued(reliable, before, history, after, history', rss, pods, draws)
    requires Keyed(before) && Lists(before, names, pods) && Fresh(before, PassPlan(rss, pods, draws))
    ensures var log := history'[|history|..];
            Pass(before, rss, pods, draws, log) && after == ServeAll(before, log) && (reliable ==> AllServed(log))
  {
    ListedByName(before, names, pods);
  }

  lemma NamesOfConcat(a: seq<Request<Pod>>, b: seq<Request<Pod>>, selector: Labels)
    ensures CreateNames(a + b, selector) == CreateNames(a, selector) + CreateNames(b, selector)
    ensures DeleteNames(a + b) == DeleteNames(a) + DeleteNames(b)
  {
    var c := a + b;
    assert forall i :: 0 <= i < |a| ==> c[i] == a[i];
    assert forall i :: 0 <= i < |b| ==> c[|a| + i] == b[i];
    forall name | name in CreateNames(b, selector) ensures name in CreateNames(c, selector) {
      var i :| 0 <= i < |b| && b[i].Create? && Selects(selector, b[i].obj.meta.labels) && b[i].name == name;
      assert c[|a| + i].name == name;
    }
    forall name | name in DeleteNames(b) ensures name in DeleteNames(c) {
      var i :| 0 <= i < |b| && b[i].Delete? && b[i].name == name;
      assert c[|a| + i].name == name;
    }
    forall name | name in CreateNames(a, selector) ensures name in CreateNames(c, selector) {
      var i :| 0 <= i < |a| && a[i].Create? && Selects(selector, a[i].obj.meta.labels) && a[i].name == name;
      assert c[i].name == name;
    }
    forall name | name in DeleteNames(a) ensures name in DeleteNames(c) {
      var i :| 0 <= i < |a| && a[i].Delete? && a[i].name == name;
      assert c[i].name == name;
    }
  }

  lemma {:induction false} CreatesCount(rs: ReplicaSet, draws: seq<string>, selector: Labels)
    requires forall i, j :: 0 <= i < j < |draws| ==> Creates(rs, draws)[i].name != Creates(rs, draws)[j].name
    ensures |CreateNames(Creates(rs, draws), selector)|
         == if Selects(selector, rs.template.meta.labels) then |draws| else 0
  {
    if draws == [] {
    } else {
      var k := |draws| - 1;
      assert Creates(rs, draws) == Creates(rs, draws[..k]) + Creates(rs, [draws[k]]);
      var front, last := Creates(rs, draws[..k]), Creates(rs, [draws[k]]);
      assert forall i :: 0 <= i < k ==> front[i] == Creates(rs, draws)[i];
      CreatesCount(rs, draws[..k], selector);
      NamesOfConcat(front, last, selector);
      var name := Creates(rs, draws)[k].name;
      assert last[0].name == name;
      assert CreateNames(last, selector) == if Selects(selector, rs.template.meta.labels) then {name} else {};
    }
  }

  lemma DeletesFront(owned: seq<Pod>, count: nat)
    requires count <= |owned|
    ensures DeleteNames(Deletes(owned, count)) == Front(owned, count)
  {
    var deletes := Deletes(owned, count);
    assert forall i :: 0 <= i < count ==> deletes[i] == Delete(owned[i].meta.name);
    forall name | name in Front(owned, count) ensures name in DeleteNames(deletes) {
      var i :| 0 <= i < count && i < |owned| && owned[i].meta.name == name;
      assert deletes[i].name == name;
    }
  }

  /** What another ReplicaSet owns, this selector does not. */
  lemma ForeignFront(objects: map<string, Pod>, rs: ReplicaSet, pods: seq<Pod>, count: nat, selector: Labels)
    requires PodsListed(objects, pods) && rs.replicas.Some?
    requires IsolatedFrom(selector, rs, pods) && rs.selector != selector
    ensures Front(Owned(rs.selector, pods), count) !! Matching(selector, objects)
  {
    var owned := Owned(rs.selector, pods);
    OwnedOfPrefix(pods, rs.selector);
    forall name | name in Front(owned, count) ensures name !in Matching(selector, objects) {
      var i :| 0 <= i < |owned| && owned[i].meta.name == name;
      assert owned[i] in pods;
      var j :| 0 <= j < |pods| && pods[j] == owned[i];
      assert Names(pods)[j] == name && objects[name] == pods[j];
    }
  }

  lemma PlanCreates(objects: map<string, Pod>, rs: ReplicaSet, pods: seq<Pod>, draws: seq<string>, selector: Labels)
    requires rs.replicas.Some? ==> 0 <= rs.replicas.value
    requires Fresh(objects, Plan(rs, pods, draws))
    ensures |CreateNames(Plan(rs, pods, draws), selector)|
         == if Selects(selector, rs.template.meta.labels) then |draws| else 0
    ensures DeleteNames(Plan(rs, pods, draws))
         == Front(Owned(rs.selector, pods), Surplus(rs, |Owned(rs.selector, pods)|))
  {
    var owned := Owned(rs.selector, pods);
    var creates, deletes := Creates(rs, draws), Deletes(owned, Surplus(rs, |owned|));
    NamesOfConcat(creates, deletes, selector);
    FreshPart(objects, creates, deletes, selector);
    assert CreateNames(deletes, selector) == {} && DeleteNames(creates) == {};
    CreatesCount(rs, draws, selector);
    DeletesFront(owned, Surplus(rs, |owned|));
  }

  /** The requests make `created` pods for the selector, and of its pods delete the first `deleted` listed. */
  ghost predicate Effect(objects: map<string, Pod>, pods: seq<Pod>, requests: seq<Request<Pod>>, selector: Labels,
                         created: nat, deleted: nat)
  {
    && |CreateNames(requests, selector)| == created
    && DeleteNames(requests) * Matching(selector, objects) == Front(Owned(selector, pods), deleted)
  }

  /** One ReplicaSet: how many pods it makes for the selector, and which it deletes. */
  lemma PlanNames(objects: map<string, Pod>, rs: ReplicaSet, pods: seq<Pod>, draws: seq<string>, selector: Labels)
    requires rs.replicas.Some? ==> 0 <= rs.replicas.value
    requires PodsListed(objects, pods) && Draws(rs, pods, draws)
    requires IsolatedFrom(selector, rs, pods) && Fresh(objects, Plan(rs, pods, draws))
    ensures var n := |Owned(selector, pods)|;
            Effect(objects, pods, Plan(rs, pods, draws), selector,
                   if rs.selector == selector then Deficit(rs, n) else 0,
                   if rs.selector == selector then Surplus(rs, n) else 0)
  {
    PlanCreates(objects, rs, pods, draws, selector);
    var owned := Owned(rs.selector, pods);
    var front := Front(owned, Surplus(rs, |owned|));
    if rs.selector == selector {
      OwnedAreMatching(objects, pods, selector);
      assert front <= NameSet(owned);
      assert front * Matching(selector, objects) == front;
    } else {
      if rs.replicas.Some? {
        ForeignFront(objects, rs, pods, Surplus(rs, |owned|), selector);
      }
      assert Front(Owned(selector, pods), 0) == {};
    }
  }

  lemma FreshPart(objects: map<string, Pod>, a: seq<Request<Pod>>, b: seq<Request<Pod>>, selector: Labels)
    requires Fresh(objects, a + b)
    ensures Fresh(objects, a) && Fresh(objects, b)
    ensures CreateNames(a, selector) !! CreateNames(b, selector)
  {
    var c := a + b;
    assert forall i :: 0 <= i < |a| ==> c[i] == a[i];
    assert forall i :: 0 <= i < |b| ==> c[|a| + i] == b[i];
  }

  lemma EffectThen(objects: map<string, Pod>, pods: seq<Pod>, a: seq<Request<Pod>>, b: seq<Request<Pod>>,
                   selector: Labels,
                   c: nat, d: nat, c': nat, d': nat)
    requires Effect(objects, pods, a, selector, c, d) && Effect(objects, pods, b, selector, c', d')
    requires CreateNames(a, selector) !! CreateNames(b, selector)
    ensures Effect(objects, pods, a + b, selector, c + c', Max(d, d'))
  {
    NamesOfConcat(a, b, selector);
    FrontUnion(DeleteNames(a), DeleteNames(b), Matching(selector, objects), Owned(selector, pods), d, d');
  }

  lemma PassParts(objects: map<string, Pod>, rss: seq<ReplicaSet>, pods: seq<Pod>, draws: seq<seq<string>>,
                  selector: Labels)
    requires rss != [] && NonNegative(rss) && |draws| == |rss| && Fresh(objects, PassPlan(rss, pods, draws))
    ensures var k := |rss| - 1; var front, last := PassPlan(rss[..k], pods, draws[..k]), Plan(rss[k], pods, draws[k]);
            && PassPlan(rss, pods, draws) == front + last && Fresh(objects, front) && Fresh(objects, last)
            && CreateNames(front, selector) !! CreateNames(last, selector)
  {
    var k := |rss| - 1;
    FreshPart(objects, PassPlan(rss[..k], pods, draws[..k]), Plan(rss[k], pods, draws[k]), selector);
  }

  lemma IsolatedParts(rss: seq<ReplicaSet>, pods: seq<Pod>, draws: seq<seq<string>>, selector: Labels)
    requires rss != [] && NonNegative(rss) && PassDraws(rss, pods, draws) && Isolated(selector, rss, pods)
    ensures var k := |rss| - 1;
            && NonNegative(rss[..k]) && PassDraws(rss[..k], pods, draws[..k]) && Isolated(selector, rss[..k], pods)
            && Draws(rss[k], pods, draws[k]) && IsolatedFrom(selector, rss[k], pods)
  {
  }

  lemma PassStep(objects: map<string, Pod>, rss: seq<ReplicaSet>, pods: seq<Pod>, draws: seq<seq<string>>,
                 selector: Labels, n: nat)
    requires rss != [] && |draws| == |rss| && NonNegative(rss)
    requires var k := |rss| - 1; var front, last := PassPlan(rss[..k], pods, draws[..k]), Plan(rss[k], pods, draws[k]);
             && CreateNames(front, selector) !! CreateNames(last, selector)
             && Effect(objects, pods, front, selector, SumDeficit(rss[..k], selector, n),
                       MaxSurplus(rss[..k], selector, n))
             && Effect(objects, pods, last, selector, if rss[k].selector == selector then Deficit(rss[k], n) else 0,
                       if rss[k].selector == selector then Surplus(rss[k], n) else 0)
    ensures Effect(objects, pods, PassPlan(rss, pods, draws), selector, SumDeficit(rss, selector, n),
                   MaxSurplus(rss, selector, n))
  {
    var k := |rss| - 1;
    EffectThen(objects, pods, PassPlan(rss[..k], pods, draws[..k]), Plan(rss[k], pods, draws[k]), selector,
               SumDeficit(rss[..k], selector, n), MaxSurplus(rss[..k], selector, n),
               if rss[k].selector == selector then Deficit(rss[k], n) else 0,
               if rss[k].selector == selector then Surplus(rss[k], n) else 0);
  }

  /** The whole pass: deficits add up because every ReplicaSet draws new names; surpluses do not,
      because all of them delete from the front of the same list. */
  lemma {:induction false} PassNames(objects: map<string, Pod>, rss: seq<ReplicaSet>, pods: seq<Pod>,
                                     draws: seq<seq<string>>, selector: Labels)
    requires NonNegative(rss) && PodsListed(objects, pods) && PassDraws(rss, pods, draws)
    requires Isolated(selector, rss, pods) && Fresh(objects, PassPlan(rss, pods, draws))
    ensures var n := |Owned(selector, pods)|;
            Effect(objects, pods, PassPlan(rss, pods, draws), selector, SumDeficit(rss, selector, n),
                   MaxSurplus(rss, selector, n))
  {
    if rss == [] {
      assert Front(Owned(selector, pods), 0) == {};
    } else {
      var k, n := |rss| - 1, |Owned(selector, pods)|;
      IsolatedParts(rss, pods, draws, selector);
      PassParts(objects, rss, pods, draws, selector);
      PassNames(objects, rss[..k], pods, draws[..k], selector);
      PlanNames(objects, rss[k], pods, draws[k], selector);
      PassStep(objects, rss, pods, draws, selector, n);
    }
  }

  lemma FrontUnion(x: set<string>, y: set<string>, all: set<string>, pods: seq<Pod>, a: nat, b: nat)
    requires x * all == Front(pods, a) && y * all == Front(pods, b)
    ensures (x + y) * all == Front(pods, Max(a, b))
  {
    assert (x + y) * all == x * all + y * all;
    assert Front(pods, a) + Front(pods, b) == Front(pods, Max(a, b));
  }

  lemma {:induction false} FrontSize(pods: seq<Pod>, count: nat)
    requires count <= |pods|
    requires forall i, j :: 0 <= i < j < |pods| ==> pods[i].meta.name != pods[j].meta.name
    ensures |Front(pods, count)| == count
  {
    if count == 0 {
      assert Front(pods, 0) == {};
    } else {
      FrontSize(pods, count - 1);
      assert Front(pods, count) == Front(pods, count - 1) + {pods[count - 1].meta.name};
    }
  }

  /** The pods of a selector after a pass: `removed` are gone, `added` are new. Lost calls only make
      both smaller. */
  ghost predicate Moved(objects: map<string, Pod>, rss: seq<ReplicaSet>, pods: seq<Pod>, after: map<string, Pod>,
                        selector: Labels, removed: set<string>, added: set<string>, faultFree: bool)
    requires NonNegative(rss)
  {
    var n := |Matching(selector, objects)|;
    && |Owned(selector, pods)| == n
    && Matching(selector, after) == Matching(selector, objects) - removed + added
    && |Matching(selector, after)| == n - |removed| + |added|
    && added !! objects.Keys
    && removed <= Front(Owned(selector, pods), MaxSurplus(rss, selector, n))
    && |removed| <= MaxSurplus(rss, selector, n) && |added| <= SumDeficit(rss, selector, n)
    && (faultFree ==>
         && removed == Front(Owned(selector, pods), MaxSurplus(rss, selector, n))
         && |removed| == MaxSurplus(rss, selector, n) && |added| == SumDeficit(rss, selector, n))
  }

  lemma AfterPass(objects: map<string, Pod>, rss: seq<ReplicaSet>, pods: seq<Pod>, draws: seq<seq<string>>,
                  log: seq<Exchange<Pod>>, selector: Labels)
    returns (removed: set<string>, added: set<string>)
    requires Pass(objects, rss, pods, draws, log) && Isolated(selector, rss, pods)
    ensures Moved(objects, rss, pods, ServeAll(objects, log), selector, removed, added, AllServed(log))
  {
    var requests, n := Requests(log), |Matching(selector, objects)|;
    OwnedAreMatching(objects, pods, selector);
    PassNames(objects, rss, pods, draws, selector);
    var front := Front(Owned(selector, pods), MaxSurplus(rss, selector, n));
    FrontSize(Owned(selector, pods), MaxSurplus(rss, selector, n));
    removed := Deleted(log) * Matching(selector, objects);
    added := CreatedFor(log, selector);
    ServedNames(log, selector);
    SubsetSize(removed, front);
    SubsetSize(added, CreateNames(requests, selector));
    MatchingAfter(objects, log, selector);
    assert removed <= Matching(selector, objects);
    assert |Matching(selector, objects) - removed| == n - |removed|;
  }

  function CreatedFor(log: seq<Exchange<Pod>>, selector: Labels): set<string> {
    set i | 0 <= i < |log| && log[i].served && log[i].request.Create?
            && Selects(selector, log[i].request.obj.meta.labels) :: log[i].request.name
  }

  lemma ServedNames(log: seq<Exchange<Pod>>, selector: Labels)
    ensures Deleted(log) <= DeleteNames(Requests(log))
    ensures CreatedFor(log, selector) <= CreateNames(Requests(log), selector)
    ensures AllServed(log) ==>
      Deleted(log) == DeleteNames(Requests(log)) && CreatedFor(log, selector) == CreateNames(Requests(log), selector)
  {
    var requests := Requests(log);
    assert forall i :: 0 <= i < |log| ==> requests[i] == log[i].request;
    forall name | name in Deleted(log) ensures name in DeleteNames(requests) {
      var i :| 0 <= i < |log| && log[i].served && log[i].request.Delete? && log[i].request.name == name;
      assert requests[i].name == name;
    }
    forall name | name in CreatedFor(log, selector) ensures name in CreateNames(requests, selector) {
      var i :| 0 <= i < |log| && log[i].served && log[i].request.Create?
               && Selects(selector, log[i].request.obj.meta.labels) && log[i].request.name == name;
      assert requests[i].name == name;
    }
  }

  lemma MatchingAfter(objects: map<string, Pod>, log: seq<Exchange<Pod>>, selector: Labels)
    requires Fresh(objects, Requests(log))
    ensures Matching(selector, ServeAll(objects, log))
         == Matching(selector, objects) - Deleted(log) * Matching(selector, objects) + CreatedFor(log, selector)
    ensures CreatedFor(log, selector) !! objects.Keys
  {
    var after := ServeAll(objects, log);
    ServedSets(objects, log);
    assert forall i :: 0 <= i < |log| ==> Requests(log)[i] == log[i].request;
    forall name | name in Matching(selector, after)
      ensures name in Matching(selector, objects) - Deleted(log) || name in CreatedFor(log, selector)
    {
      if name !in objects {
        var i :| 0 <= i < |log| && log[i].served && log[i].request.Create? && log[i].request.name == name;
        assert after[name] == log[i].request.obj;
      } else {
        assert name !in Created(log);
      }
    }
  }
}
