/** The scheduler (internal/scheduler/scheduler.go): list the pods, pick a node for each one that
    has none, and PUT the whole pod back with the node's name in it. */
module Scheduler {
  import opened Api
  import opened Registry
  import opened PodSets

  datatype Condition = Condition(kind: string, status: string)

  datatype Node = Node(name: string, conditions: seq<Condition>, capacity: Labels)

  ghost predicate Ready(node: Node) {
    exists i :: 0 <= i < |node.conditions| && node.conditions[i] == Condition("Ready", "True")
  }

  /** What bind writes: the listed pod with a node name. */
  function Bound(pod: Pod, node: string): Pod {
    pod.(spec := pod.spec.(nodeName := node))
  }

  /** The pods of a list without a node, in list order. */
  function Unscheduled(pods: seq<Pod>): seq<Pod> {
    if pods == [] then []
    else
      var rest, last := Unscheduled(pods[..|pods| - 1]), pods[|pods| - 1];
      if last.spec.nodeName == "" then rest + [last] else rest
  }

  /** The PUTs of a round, given the node chosen for each unscheduled pod ("" for none). */
  function Bindings(unscheduled: seq<Pod>, choices: seq<string>): seq<Request<Pod>>
    requires |choices| <= |unscheduled|
  {
    if choices == [] then []
    else
      var k := |choices| - 1;
      var rest := Bindings(unscheduled, choices[..k]);
      if choices[k] == "" then rest
      else rest + [Update(unscheduled[k].meta.name, Bound(unscheduled[k], choices[k]))]
  }

  class Scheduler {
    const podClient: Client<Pod>
    const nodeClient: Client<Node>
    const capacityFits: (Pod, Node) -> bool

    constructor (podClient: Client<Pod>, nodeClient: Client<Node>, capacityFits: (Pod, Node) -> bool)
      ensures this.podClient == podClient && this.nodeClient == nodeClient && this.capacityFits == capacityFits
    {
      this.podClient, this.nodeClient, this.capacityFits := podClient, nodeClient, capacityFits;
    }

    ghost predicate Feasible(pod: Pod, node: Node) {
      Ready(node) && capacityFits(pod, node)
    }

    /** A node name that may be chosen for a pod: that of a feasible node, or none if there is none. */
    ghost predicate Eligible(pod: Pod, nodes: seq<Node>, choice: string) {
      if exists i :: 0 <= i < |nodes| && Feasible(pod, nodes[i])
      then exists i :: 0 <= i < |nodes| && Feasible(pod, nodes[i]) && nodes[i].name == choice
      else choice == ""
    }

    method PodFitsResources(pod: Pod, node: Node) returns (fits: bool)
      ensures fits <==> Feasible(pod, node)
    {
      var isReady := false;
      for i := 0 to |node.conditions|
        invariant !isReady && forall j :: 0 <= j < i ==> node.conditions[j] != Condition("Ready", "True")
      {
        if node.conditions[i].kind == "Ready" && node.conditions[i].status == "True" {
          isReady := true;
          break;
        }
      }
      if !isReady {
        return false;
      }
      fits := capacityFits(pod, node);
    }

    method SelectNode(pod: Pod, nodes: seq<Node>) returns (name: string)
      ensures Eligible(pod, nodes, name)
    {
      var feasible: seq<Node> := [];
      for i := 0 to |nodes|
        invariant forall node :: node in feasible ==>
                    exists j :: 0 <= j < i && nodes[j] == node && Feasible(pod, nodes[j])
        invariant forall j :: 0 <= j < i && Feasible(pod, nodes[j]) ==> nodes[j] in feasible
      {
        var fits := PodFitsResources(pod, nodes[i]);
        if fits {
          feasible := feasible + [nodes[i]];
        }
      }
      if |feasible| == 0 {
        return "";
      }
      var drawn :| 0 <= drawn < |feasible|;
      assert feasible[drawn] in feasible;
      name := feasible[drawn].name;
    }

    method Bind(pod: Pod, nodeName: string) returns (ok: bool)
      modifies podClient
      ensures Issued(podClient.reliable, old(podClient.objects), old(podClient.history), podClient.objects,
                     podClient.history,
                     [Update(pod.meta.name, Bound(pod, nodeName))])
    {
      var bound := pod.(spec := pod.spec.(nodeName := nodeName));
      ok := podClient.Send(Update(bound.meta.name, bound));
    }

    /** A round PUTs every listed pod that has no node, bound to an eligible one, and nothing else. */
    method ScheduleOneRound()
      returns (ghost pods: seq<Pod>, ghost names: seq<string>, ghost nodes: seq<Node>, ghost choices: seq<string>)
      requires podClient as object != nodeClient as object
      modifies podClient
      ensures podClient.reliable || choices != [] ==> Lists(old(podClient.objects), names, pods)
      ensures choices != [] ==> exists keys :: Lists(nodeClient.objects, keys, nodes)
      ensures |choices| <= |Unscheduled(pods)|
      ensures forall i :: 0 <= i < |choices| ==> Eligible(Unscheduled(pods)[i], nodes, choices[i])
      ensures podClient.reliable && nodeClient.reliable && nodeClient.objects.Keys != {} ==>
                |choices| == |Unscheduled(pods)|
      ensures Issued(podClient.reliable, old(podClient.objects), old(podClient.history), podClient.objects,
                     podClient.history,
                     Bindings(Unscheduled(pods), choices))
    {
      nodes, choices := [], [];
      IssuedNothing(podClient.reliable, podClient.objects, podClient.history);
      var listed, items, keys := podClient.List();
      names := keys;
      pods := items;
      if !listed {
        return;
      }
      var unscheduled: seq<Pod> := [];
      for i := 0 to |items|
        invariant unscheduled == Unscheduled(items[..i])
      {
        assert items[..i + 1][..i] == items[..i];
        if items[i].spec.nodeName == "" {
          unscheduled := unscheduled + [items[i]];
        }
      }
      assert items[..|items|] == items;
      if |unscheduled| == 0 {
        return;
      }
      var nodesListed, nodeItems, nodeKeys := nodeClient.List();
      nodes := nodeItems;
      if !nodesListed || |nodeItems| == 0 {
        return;
      }
      choices := BindAll(unscheduled, nodeItems);
    }

    /** The loop over the unscheduled pods. */
    method BindAll(unscheduled: seq<Pod>, nodes: seq<Node>) returns (ghost choices: seq<string>)
      modifies podClient
      ensures |choices| == |unscheduled|
      ensures forall i :: 0 <= i < |choices| ==> Eligible(unscheduled[i], nodes, choices[i])
      ensures Issued(podClient.reliable, old(podClient.objects), old(podClient.history), podClient.objects,
                     podClient.history,
                     Bindings(unscheduled, choices))
    {
      choices := [];
      IssuedNothing(podClient.reliable, podClient.objects, podClient.history);
      for i := 0 to |unscheduled|
        invariant |choices| == i && forall j :: 0 <= j < i ==> Eligible(unscheduled[j], nodes, choices[j])
        invariant Issued(podClient.reliable, old(podClient.objects), old(podClient.history),
                         podClient.objects, podClient.history, Bindings(unscheduled, choices))
      {
        ghost var history, objects := podClient.history, podClient.objects;
        var node := SelectNode(unscheduled[i], nodes);
        if node != "" {
          var ok := Bind(unscheduled[i], node);
        }
        BindingIssued(podClient.reliable, old(podClient.objects), old(podClient.history), objects, history,
                      podClient.objects, podClient.history, unscheduled, choices, node);
        choices := choices + [node];
      }
    }
  }

  lemma BindingIssued(reliable: bool, o0: map<string, Pod>, h0: seq<Exchange<Pod>>, o1: map<string, Pod>,
                      h1: seq<Exchange<Pod>>,
                      o2: map<string, Pod>, h2: seq<Exchange<Pod>>, unscheduled: seq<Pod>, choices: seq<string>,
                      node: string)
    requires |choices| < |unscheduled| && Issued(reliable, o0, h0, o1, h1, Bindings(unscheduled, choices))
    requires var pod := unscheduled[|choices|];
             if node == "" then o2 == o1 && h2 == h1
             else Issued(reliable, o1, h1, o2, h2, [Update(pod.meta.name, Bound(pod, node))])
    ensures Issued(reliable, o0, h0, o2, h2, Bindings(unscheduled, choices + [node]))
  {
    var pod := unscheduled[|choices|];
    assert (choices + [node])[..|choices|] == choices;
    if node != "" {
      IssuedThen(reliable, o0, h0, o1, h1, o2, h2, Bindings(unscheduled, choices),
                 [Update(pod.meta.name, Bound(pod, node))]);
    }
  }

  lemma {:induction false} UnscheduledOf(pods: seq<Pod>)
    ensures forall pod :: pod in Unscheduled(pods) <==> pod in pods && pod.spec.nodeName == ""
    ensures (forall i, j :: 0 <= i < j < |pods| ==> pods[i].meta.name != pods[j].meta.name) ==>
              forall i, j :: 0 <= i < j < |Unscheduled(pods)| ==>
                Unscheduled(pods)[i].meta.name != Unscheduled(pods)[j].meta.name
  {
    if pods == [] {
    } else {
      var k := |pods| - 1;
      UnscheduledOf(pods[..k]);
      assert pods == pods[..k] + [pods[k]];
      forall i | 0 <= i < |Unscheduled(pods[..k])| ensures Unscheduled(pods[..k])[i] in pods[..k] {
      }
    }
  }

  /** What some of the PUTs of a round have done so far: exactly the pods they named are bound. */
  lemma {:induction false} BindingsServed(objects: map<string, Pod>, unscheduled: seq<Pod>, choices: seq<string>,
                                          log: seq<Exchange<Pod>>)
    requires |choices| <= |unscheduled|
    requires forall i :: 0 <= i < |unscheduled| ==>
               unscheduled[i].meta.name in objects && objects[unscheduled[i].meta.name] == unscheduled[i]
    requires forall i, j :: 0 <= i < j < |unscheduled| ==> unscheduled[i].meta.name != unscheduled[j].meta.name
    requires Requests(log) == Bindings(unscheduled, choices) && AllServed(log)
    ensures var after := ServeAll(objects, log);
            && after.Keys == objects.Keys
            && (forall i :: 0 <= i < |choices| ==>
                 after[unscheduled[i].meta.name] == if choices[i] == "" then unscheduled[i]
                                                    else Bound(unscheduled[i], choices[i]))
            && (forall name :: name in objects && (forall i :: 0 <= i < |choices| ==> unscheduled[i].meta.name != name)
                               ==> after[name] == objects[name])
  {
    if choices == [] {
      assert log == [];
    } else {
      var k := |choices| - 1;
      if choices[k] == "" {
        BindingsServed(objects, unscheduled, choices[..k], log);
      } else {
        var front := log[..|log| - 1];
        assert Requests(front) == Requests(log)[..|log| - 1] == Bindings(unscheduled, choices[..k]);
        assert log[|log| - 1].request == Requests(log)[|log| - 1];
        BindingsServed(objects, unscheduled, choices[..k], front);
      }
    }
  }

  lemma UnscheduledStored(objects: map<string, Pod>, pods: seq<Pod>)
    requires PodsListed(objects, pods)
    ensures var unscheduled := Unscheduled(pods);
            && (forall i :: 0 <= i < |unscheduled| ==>
                 unscheduled[i].meta.name in objects && objects[unscheduled[i].meta.name] == unscheduled[i]
                 && unscheduled[i].spec.nodeName == "")
            && (forall i, j :: 0 <= i < j < |unscheduled| ==> unscheduled[i].meta.name != unscheduled[j].meta.name)
            && (forall name :: name in objects && objects[name].spec.nodeName == "" ==> objects[name] in unscheduled)
  {
    UnscheduledOf(pods);
    var unscheduled := Unscheduled(pods);
    assert forall i :: 0 <= i < |pods| ==> Names(pods)[i] == pods[i].meta.name;
    forall i | 0 <= i < |unscheduled|
      ensures unscheduled[i].meta.name in objects && objects[unscheduled[i].meta.name] == unscheduled[i]
      ensures unscheduled[i].spec.nodeName == ""
    {
      assert unscheduled[i] in pods;
      var j :| 0 <= j < |pods| && pods[j] == unscheduled[i];
      assert Names(pods)[j] in objects;
    }
    forall name | name in objects ensures objects[name] in pods {
      assert name in Names(pods);
      var j :| 0 <= j < |pods| && Names(pods)[j] == name;
    }
  }

  /** All of the pod but its node is as before. */
  predicate OnlyMoved(before: Pod, after: Pod, node: string) {
    && after.meta == before.meta && after.spec.containers == before.spec.containers && after.status == before.status
    && after.spec.nodeName == node
  }

  /** A fault-free round binds exactly the pods without a node for which one was chosen; it creates
      and removes nothing, and no other field of any pod changes. */
  lemma RoundBinds(objects: map<string, Pod>, pods: seq<Pod>, choices: seq<string>, log: seq<Exchange<Pod>>)
    requires PodsListed(objects, pods) && |choices| == |Unscheduled(pods)|
    requires Requests(log) == Bindings(Unscheduled(pods), choices) && AllServed(log)
    ensures var after := ServeAll(objects, log);
            && after.Keys == objects.Keys
            && (forall name :: name in objects && objects[name].spec.nodeName != "" ==> after[name] == objects[name])
            && (forall name :: name in objects && objects[name].spec.nodeName == "" ==>
                 exists i :: 0 <= i < |choices| && Unscheduled(pods)[i] == objects[name]
                             && OnlyMoved(objects[name], after[name], choices[i]))
  {
    var unscheduled, after := Unscheduled(pods), ServeAll(objects, log);
    UnscheduledStored(objects, pods);
    BindingsServed(objects, unscheduled, choices, log);
    forall name | name in objects && objects[name].spec.nodeName == ""
      ensures exists i :: 0 <= i < |choices| && unscheduled[i] == objects[name]
                          && OnlyMoved(objects[name], after[name], choices[i])
    {
      BoundAmong(unscheduled, choices, objects[name], after);
    }
  }

  lemma BoundAmong(unscheduled: seq<Pod>, choices: seq<string>, pod: Pod, after: map<string, Pod>)
    requires |choices| == |unscheduled| && pod in unscheduled && pod.spec.nodeName == ""
    requires forall i :: 0 <= i < |choices| ==>
               unscheduled[i].meta.name in after
               && after[unscheduled[i].meta.name] == if choices[i] == "" then unscheduled[i]
                                                     else Bound(unscheduled[i], choices[i])
    ensures pod.meta.name in after
    ensures exists i :: 0 <= i < |choices| && unscheduled[i] == pod
                        && OnlyMoved(pod, after[pod.meta.name], choices[i])
  {
    var i :| 0 <= i < |unscheduled| && unscheduled[i] == pod;
    assert Bound(pod, "") == pod;
    assert OnlyMoved(pod, after[pod.meta.name], choices[i]);
  }

  /** A node that may take the pod: one that says it is ready, whatever else it says, and has room. */
  predicate Takes(scheduler: Scheduler, pod: Pod, node: Node) {
    && (exists i :: 0 <= i < |node.conditions| && node.conditions[i].kind == "Ready"
         && node.conditions[i].status == "True")
    && scheduler.capacityFits(pod, node)
  }

  /** After a fault-free round a pod that was waiting is on a node that could take it, if any of those listed could; if
      not, it waits as before. */
  lemma RoundPlaces(scheduler: Scheduler, objects: map<string, Pod>, pods: seq<Pod>, nodes: seq<Node>,
                    choices: seq<string>, log: seq<Exchange<Pod>>, name: string)
    requires PodsListed(objects, pods) && |choices| == |Unscheduled(pods)|
    requires forall i :: 0 <= i < |choices| ==> scheduler.Eligible(Unscheduled(pods)[i], nodes, choices[i])
    requires Requests(log) == Bindings(Unscheduled(pods), choices) && AllServed(log)
    requires name in objects && objects[name].spec.nodeName == ""
    ensures var after := ServeAll(objects, log);
            && name in after
            && if exists i :: 0 <= i < |nodes| && Takes(scheduler, objects[name], nodes[i])
               then exists i :: 0 <= i < |nodes| && Takes(scheduler, objects[name], nodes[i])
                                && after[name].spec.nodeName == nodes[i].name
               else after[name] == objects[name]
  {
    RoundBinds(objects, pods, choices, log);
    var pod, after := objects[name], ServeAll(objects, log);
    var i :| 0 <= i < |choices| && Unscheduled(pods)[i] == pod && OnlyMoved(pod, after[name], choices[i]);
    forall j | 0 <= j < |nodes| ensures Takes(scheduler, pod, nodes[j]) <==> scheduler.Feasible(pod, nodes[j]) {
      ReadyTakes(scheduler, pod, nodes[j]);
    }
  }

  lemma ReadyTakes(scheduler: Scheduler, pod: Pod, node: Node)
    ensures Takes(scheduler, pod, node) <==> scheduler.Feasible(pod, node)
  {
    if Takes(scheduler, pod, node) {
      var i :| 0 <= i < |node.conditions| && node.conditions[i].kind == "Ready" && node.conditions[i].status == "True";
      assert node.conditions[i] == Condition("Ready", "True");
    }
  }
}
