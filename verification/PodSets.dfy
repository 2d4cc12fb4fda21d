/** What sequences of pod requests do to the set of pods a selector owns. */
module PodSets {
  import opened Api
  import opened Registry
  import opened ReplicaSetController

  predicate Keyed(objects: map<string, Pod>) {
    forall name :: name in objects ==> objects[name].meta.name == name
  }

  function Names(pods: seq<Pod>): (names: seq<string>)
    ensures |names| == |pods|
  {
    seq(|pods|, i requires 0 <= i < |pods| => pods[i].meta.name)
  }

  ghost predicate PodsListed(objects: map<string, Pod>, pods: seq<Pod>) {
    Keyed(objects) && Lists(objects, Names(pods), pods)
  }

  lemma ListedByName(objects: map<string, Pod>, keys: seq<string>, pods: seq<Pod>)
    requires Keyed(objects) && Lists(objects, keys, pods)
    ensures PodsListed(objects, pods)
  {
    assert forall i :: 0 <= i < |pods| ==> keys[i] == pods[i].meta.name;
    assert keys == Names(pods);
  }

  /** The names a selector owns among the stored pods. */
  function Matching(selector: Labels, objects: map<string, Pod>): set<string> {
    set name | name in objects && Selects(selector, objects[name].meta.labels)
  }

  function NameSet(pods: seq<Pod>): set<string> {
    set i | 0 <= i < |pods| :: pods[i].meta.name
  }

  function Created(log: seq<Exchange<Pod>>): set<string> {
    set i | 0 <= i < |log| && log[i].served && log[i].request.Create? :: log[i].request.name
  }

  function Deleted(log: seq<Exchange<Pod>>): set<string> {
    set i | 0 <= i < |log| && log[i].served && log[i].request.Delete? :: log[i].request.name
  }

  /** The names drawn for new pods are new and distinct, and only listed pods are deleted. */
  predicate Fresh(objects: map<string, Pod>, requests: seq<Request<Pod>>) {
    && (forall i :: 0 <= i < |requests| ==> !requests[i].Update?)
    && (forall i :: 0 <= i < |requests| && requests[i].Create? ==> requests[i].name !in objects)
    && (forall i :: 0 <= i < |requests| && requests[i].Delete? ==> requests[i].name in objects)
    && (forall i, j :: 0 <= i < j < |requests| && requests[i].Create? && requests[j].Create?
                       ==> requests[i].name != requests[j].name)
  }

  lemma CreatedDeletedLast(front: seq<Exchange<Pod>>, last: Exchange<Pod>)
    ensures Created(front + [last])
              == Created(front) + (if last.served && last.request.Create? then {last.request.name} else {})
    ensures Deleted(front + [last])
              == Deleted(front) + (if last.served && last.request.Delete? then {last.request.name} else {})
  {
    var log := front + [last];
    assert forall i :: 0 <= i < |front| ==> log[i] == front[i];
    assert log[|front|] == last;
    forall name | name in Created(front) ensures name in Created(log) {
      var i :| 0 <= i < |front| && front[i].served && front[i].request.Create? && front[i].request.name == name;
      assert log[i].request.name == name;
    }
    forall name | name in Deleted(front) ensures name in Deleted(log) {
      var i :| 0 <= i < |front| && front[i].served && front[i].request.Delete? && front[i].request.name == name;
      assert log[i].request.name == name;
    }
  }

  lemma FreshFront(objects: map<string, Pod>, front: seq<Exchange<Pod>>, last: Exchange<Pod>)
    requires Fresh(objects, Requests(front + [last]))
    ensures Fresh(objects, Requests(front))
    ensures last.request.Create? ==> last.request.name !in objects && last.request.name !in Created(front)
    ensures last.request.Delete? ==> last.request.name in objects && last.request.name !in Created(front)
    ensures !last.request.Update?
  {
    var requests := Requests(front + [last]);
    assert Requests(front) == requests[..|front|];
    assert requests[|front|] == last.request;
    assert forall i :: 0 <= i < |front| ==> requests[i] == front[i].request;
  }

  /** Every created pod is there, every deleted one is gone, the others are untouched. */
  lemma {:induction false} ServedKeys(objects: map<string, Pod>, log: seq<Exchange<Pod>>)
    requires Fresh(objects, Requests(log))
    ensures ServeAll(objects, log).Keys == objects.Keys - Deleted(log) + Created(log)
    ensures forall name :: name in ServeAll(objects, log) && name in objects ==>
              ServeAll(objects, log)[name] == objects[name]
  {
    if log == [] {
    } else {
      var front, last := log[..|log| - 1], log[|log| - 1];
      assert log == front + [last];
      FreshFront(objects, front, last);
      ServedKeys(objects, front);
      CreatedDeletedLast(front, last);
      var before, name := ServeAll(objects, front), last.request.name;
      if last.served {
        assert last.request.Create? ==> Serve(before, last.request).Keys == before.Keys + {name};
        assert last.request.Delete? ==> Serve(before, last.request).Keys == before.Keys - {name};
      }
    }
  }

  /** And it is stored as it was sent. */
  lemma {:induction false} CreatedStored(objects: map<string, Pod>, log: seq<Exchange<Pod>>, i: nat)
    requires Fresh(objects, Requests(log)) && i < |log| && log[i].served && log[i].request.Create?
    ensures var after := ServeAll(objects, log);
            log[i].request.name in after && after[log[i].request.name] == log[i].request.obj
  {
    var k := |log| - 1;
    var front, last := log[..k], log[k];
    assert log == front + [last];
    FreshFront(objects, front, last);
    if i < k {
      CreatedStored(objects, front, i);
      assert front[i].request.name in Created(front);
    } else {
      ServedKeys(objects, front);
    }
  }

  /** What requests with fresh names make of the stored pods: exactly this. */
  lemma ServedSets(objects: map<string, Pod>, log: seq<Exchange<Pod>>)
    requires Fresh(objects, Requests(log))
    ensures ServeAll(objects, log).Keys == objects.Keys - Deleted(log) + Created(log)
    ensures forall name :: name in ServeAll(objects, log) && name in objects ==>
              ServeAll(objects, log)[name] == objects[name]
    ensures forall i :: 0 <= i < |log| && log[i].served && log[i].request.Create?
              ==> (log[i].request.name in ServeAll(objects, log)
                   && ServeAll(objects, log)[log[i].request.name] == log[i].request.obj)
  {
    ServedKeys(objects, log);
    forall i | 0 <= i < |log| && log[i].served && log[i].request.Create?
      ensures log[i].request.name in ServeAll(objects, log)
      ensures ServeAll(objects, log)[log[i].request.name] == log[i].request.obj
    {
      CreatedStored(objects, log, i);
    }
  }

  /** The owned pods of a listing are the matching names of the store, each once. */
  lemma {:induction false} OwnedAreMatching(objects: map<string, Pod>, pods: seq<Pod>, selector: Labels)
    requires PodsListed(objects, pods)
    ensures var owned := Owned(selector, pods);
            && NameSet(owned) == Matching(selector, objects)
            && |owned| == |Matching(selector, objects)|
            && (forall i, j :: 0 <= i < j < |owned| ==> owned[i].meta.name != owned[j].meta.name)
  {
    OwnedOfPrefix(pods, selector);
    var owned := Owned(selector, pods);
    forall name | name in Matching(selector, objects) ensures name in NameSet(owned) {
      assert name in Names(pods);
      var i :| 0 <= i < |pods| && Names(pods)[i] == name;
      assert objects[name] == pods[i];
      assert pods[i] in owned;
    }
    forall name | name in NameSet(owned) ensures name in Matching(selector, objects) {
      var i :| 0 <= i < |owned| && owned[i].meta.name == name;
      var j :| 0 <= j < |pods| && pods[j] == owned[i];
      assert Names(pods)[j] == name;
    }
    assert forall i :: 0 <= i < |pods| ==> Names(pods)[i] == pods[i].meta.name;
    DistinctNames(owned);
  }

  lemma {:induction false} OwnedOfPrefix(pods: seq<Pod>, selector: Labels)
    ensures var owned := Owned(selector, pods);
            && (forall pod :: pod in owned <==> pod in pods && Selects(selector, pod.meta.labels))
    ensures (forall i, j :: 0 <= i < j < |pods| ==> pods[i].meta.name != pods[j].meta.name) ==>
              var owned := Owned(selector, pods);
              forall i, j :: 0 <= i < j < |owned| ==> owned[i].meta.name != owned[j].meta.name
  {
    if pods == [] {
    } else {
      var k := |pods| - 1;
      OwnedOfPrefix(pods[..k], selector);
      assert pods == pods[..k] + [pods[k]];
      forall i | 0 <= i < |Owned(selector, pods[..k])| ensures Owned(selector, pods[..k])[i] in pods[..k] {
      }
    }
  }

  lemma {:induction false} DistinctNames(pods: seq<Pod>)
    requires forall i, j :: 0 <= i < j < |pods| ==> pods[i].meta.name != pods[j].meta.name
    ensures |NameSet(pods)| == |pods|
  {
    if pods == [] {
    } else {
      var k := |pods| - 1;
      DistinctNames(pods[..k]);
      assert NameSet(pods) == NameSet(pods[..k]) + {pods[k].meta.name};
    }
  }

  lemma SubsetSize<T>(a: set<T>, b: set<T>)
    requires a <= b
    ensures |a| <= |b|
  {
    assert b == a + (b - a);
  }
}
