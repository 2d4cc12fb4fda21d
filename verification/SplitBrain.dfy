/** Any number of ReplicaSet controllers acting on the same ReplicaSet at once, each on its own
    ageing pod list, one API call at a time. */
module SplitBrain {
  import opened Api
  import opened Registry
  import opened ReplicaSetController
  import opened PodSets

  /** The pods, and per controller the calls its current pass has still to make. */
  datatype State = State(objects: map<string, Pod>, pending: seq<seq<Request<Pod>>>)

  datatype Action =
    | List(controller: nat, pods: seq<Pod>, draws: seq<string>)
    | Call(controller: nat, served: bool)
    | Others(objects: map<string, Pod>)

  /** A ReplicaSet that wants `replicas` pods and whose template makes pods it owns. */
  predicate Sound(rs: ReplicaSet) {
    rs.replicas.Some? && 0 <= rs.replicas.value && Selects(rs.selector, rs.template.meta.labels)
  }

  /** A controller may start a pass, dropping what is left of a former one, or make its next call,
      which may get lost; the rest of the cluster may do anything but add pods to the ReplicaSet. */
  ghost predicate Enabled(rs: ReplicaSet, s: State, a: Action) {
    match a
    case List(c, pods, draws) => c < |s.pending| && PodsListed(s.objects, pods) && Draws(rs, pods, draws)
    case Call(c, _) => c < |s.pending| && s.pending[c] != []
    case Others(objects) => Keyed(objects) && Matching(rs.selector, objects) <= Matching(rs.selector, s.objects)
  }

  ghost function Apply(rs: ReplicaSet, s: State, a: Action): State
    requires Sound(rs) && Enabled(rs, s, a)
  {
    match a
    case List(c, pods, draws) => s.(pending := s.pending[c := Plan(rs, pods, draws)])
    case Call(c, served) =>
      State(if served then Serve(s.objects, s.pending[c][0]) else s.objects, s.pending[c := s.pending[c][1..]])
    case Others(objects) => s.(objects := objects)
  }

  ghost predicate IsRun(rs: ReplicaSet, states: seq<State>, actions: seq<Action>)
    requires Sound(rs)
  {
    && |states| == |actions| + 1
    && Keyed(states[0].objects) && (forall c :: 0 <= c < |states[0].pending| ==> states[0].pending[c] == [])
    && Steps(rs, states, actions)
  }

  ghost predicate Steps(rs: ReplicaSet, states: seq<State>, actions: seq<Action>)
    requires Sound(rs) && |states| == |actions| + 1
  {
    forall i :: 0 <= i < |actions| ==>
      Enabled(rs, states[i], actions[i]) && states[i + 1] == Apply(rs, states[i], actions[i])
  }

  function CreateCount(requests: seq<Request<Pod>>): nat {
    if requests == [] then 0 else (if requests[0].Create? then 1 else 0) + CreateCount(requests[1..])
  }

  /** The pods still to be created by all controllers together. */
  function PendingCreates(pending: seq<seq<Request<Pod>>>): nat {
    if pending == [] then 0
    else PendingCreates(pending[..|pending| - 1]) + CreateCount(pending[|pending| - 1])
  }

  lemma {:induction false} PlanCreateCount(rs: ReplicaSet, pods: seq<Pod>, draws: seq<string>)
    requires Sound(rs) && Draws(rs, pods, draws)
    ensures CreateCount(Plan(rs, pods, draws)) == Deficit(rs, |Owned(rs.selector, pods)|)
  {
    var owned := Owned(rs.selector, pods);
    var deletes := Deletes(owned, Surplus(rs, |owned|));
    NoCreates(deletes);
    CreatesThen(rs, draws, deletes);
  }

  lemma {:induction false} NoCreates(requests: seq<Request<Pod>>)
    requires forall i :: 0 <= i < |requests| ==> !requests[i].Create?
    ensures CreateCount(requests) == 0
  {
    if requests == [] {
    } else {
      NoCreates(requests[1..]);
    }
  }

  lemma {:induction false} CreatesThen(rs: ReplicaSet, draws: seq<string>, rest: seq<Request<Pod>>)
    ensures CreateCount(Creates(rs, draws) + rest) == |draws| + CreateCount(rest)
  {
    if draws == [] {
      assert Creates(rs, draws) + rest == rest;
    } else {
      CreatesThen(rs, draws[1..], rest);
      assert (Creates(rs, draws) + rest)[1..] == Creates(rs, draws[1..]) + rest;
    }
  }

  lemma {:induction false} PendingUpdate(pending: seq<seq<Request<Pod>>>, c: nat, requests: seq<Request<Pod>>)
    requires c < |pending|
    ensures PendingCreates(pending[c := requests])
              == PendingCreates(pending) - CreateCount(pending[c]) + CreateCount(requests)
  {
    var k := |pending| - 1;
    if c == k {
      assert pending[c := requests][..k] == pending[..k];
    } else {
      assert pending[c := requests][..k] == pending[..k][c := requests];
      PendingUpdate(pending[..k], c, requests);
    }
  }

  lemma {:induction false} PendingBound(pending: seq<seq<Request<Pod>>>, d: nat)
    requires forall c :: 0 <= c < |pending| ==> CreateCount(pending[c]) <= d
    ensures PendingCreates(pending) <= |pending| * d
  {
    if pending == [] {
    } else {
      PendingBound(pending[..|pending| - 1], d);
      assert |pending| * d == (|pending| - 1) * d + d;
    }
  }

  /** Pods there are plus pods about to be created stay within the bound. */
  ghost predicate Inv(rs: ReplicaSet, bound: nat, s: State)
    requires Sound(rs)
  {
    && Keyed(s.objects)
    && (forall c :: 0 <= c < |s.pending| ==> CreateCount(s.pending[c]) <= rs.replicas.value)
    && (forall c :: 0 <= c < |s.pending| ==> WellNamed(s.pending[c]))
    && |Matching(rs.selector, s.objects)| + PendingCreates(s.pending) <= bound
  }

  /** A plan updates nothing, and names what it creates as it sends it. */
  predicate WellNamed(requests: seq<Request<Pod>>) {
    forall i :: 0 <= i < |requests| ==>
      !requests[i].Update? && (requests[i].Create? ==> requests[i].obj.meta.name == requests[i].name)
  }

  lemma PlanWellNamed(rs: ReplicaSet, pods: seq<Pod>, draws: seq<string>)
    requires Sound(rs)
    ensures WellNamed(Plan(rs, pods, draws))
  {
  }

  lemma ListKeepsInv(rs: ReplicaSet, bound: nat, s: State, a: Action)
    requires Sound(rs) && Inv(rs, bound, s) && a.List? && Enabled(rs, s, a)
    requires |s.pending| * rs.replicas.value <= bound
    ensures Inv(rs, bound, Apply(rs, s, a))
  {
    var List(c, pods, draws) := a;
    PlanWellNamed(rs, pods, draws);
    PlanCreateCount(rs, pods, draws);
    ListWithinBound(rs, bound, s, c, pods, draws);
  }

  /** A fresh list brings the total to at most the bound: it counts all pods there are, and no other controller has
      more than the desired number of creations left. */
  lemma ListWithinBound(rs: ReplicaSet, bound: nat, s: State, c: nat, pods: seq<Pod>, draws: seq<string>)
    requires Sound(rs) && c < |s.pending| && PodsListed(s.objects, pods) && Draws(rs, pods, draws)
    requires forall e :: 0 <= e < |s.pending| ==> CreateCount(s.pending[e]) <= rs.replicas.value
    requires |Matching(rs.selector, s.objects)| + PendingCreates(s.pending) <= bound
    requires |s.pending| * rs.replicas.value <= bound
    ensures |Matching(rs.selector, s.objects)| + PendingCreates(s.pending[c := Plan(rs, pods, draws)]) <= bound
  {
    OwnedAreMatching(s.objects, pods, rs.selector);
    PlanCreateCount(rs, pods, draws);
    PendingUpdate(s.pending, c, Plan(rs, pods, draws));
    PendingBoundBut(s.pending, c, rs.replicas.value);
  }

  /** All controllers but one have at most (k - 1) * d creations to make. */
  lemma {:induction false} PendingBoundBut(pending: seq<seq<Request<Pod>>>, c: nat, d: nat)
    requires c < |pending| && forall c :: 0 <= c < |pending| ==> CreateCount(pending[c]) <= d
    ensures PendingCreates(pending) - CreateCount(pending[c]) + d <= |pending| * d
  {
    var k := |pending| - 1;
    assert |pending| * d == k * d + d;
    if c == k {
      PendingBound(pending[..k], d);
    } else {
      PendingBoundBut(pending[..k], c, d);
    }
  }

  lemma CallKeepsInv(rs: ReplicaSet, bound: nat, s: State, a: Action)
    requires Sound(rs) && Inv(rs, bound, s) && a.Call? && Enabled(rs, s, a)
    ensures Inv(rs, bound, Apply(rs, s, a))
  {
    var c := a.controller;
    var request := s.pending[c][0];
    PendingUpdate(s.pending, c, s.pending[c][1..]);
    var t := Apply(rs, s, a);
    assert WellNamed(s.pending[c]) && WellNamed(t.pending[c]);
    if a.served {
      ServeCount(rs.selector, s.objects, request);
    }
  }

  lemma ServeCount(selector: Labels, objects: map<string, Pod>, request: Request<Pod>)
    requires !request.Update?
    ensures |Matching(selector, Serve(objects, request))|
         <= |Matching(selector, objects)| + if request.Create? then 1 else 0
  {
    var before, after := Matching(selector, objects), Matching(selector, Serve(objects, request));
    assert after <= before + {request.name};
    if request.Create? {
      SubsetSize(after, before + {request.name});
    } else {
      assert after <= before;
      SubsetSize(after, before);
    }
  }

  lemma StepKeepsInv(rs: ReplicaSet, bound: nat, s: State, a: Action)
    requires Sound(rs) && Inv(rs, bound, s) && Enabled(rs, s, a) && |s.pending| * rs.replicas.value <= bound
    ensures Inv(rs, bound, Apply(rs, s, a)) && |Apply(rs, s, a).pending| == |s.pending|
  {
    match a {
      case List(_, _, _) => ListKeepsInv(rs, bound, s, a);
      case Call(_, _) => CallKeepsInv(rs, bound, s, a);
      case Others(objects) => SubsetSize(Matching(rs.selector, objects), Matching(rs.selector, s.objects));
    }
  }

  /** k controllers on one ReplicaSet never bring its pods, created or about to be created, above
      max(initial, k * desired): with a single leader, never above max(initial, desired). */
  lemma {:induction false} ReplicaBound(rs: ReplicaSet, states: seq<State>, actions: seq<Action>, n: nat)
    requires Sound(rs) && IsRun(rs, states, actions) && n < |states|
    ensures var bound := Max(|Matching(rs.selector, states[0].objects)|, |states[0].pending| * rs.replicas.value);
            && |states[n].pending| == |states[0].pending|
            && Inv(rs, bound, states[n])
            && |Matching(rs.selector, states[n].objects)| + PendingCreates(states[n].pending) <= bound
  {
    var bound := Max(|Matching(rs.selector, states[0].objects)|, |states[0].pending| * rs.replicas.value);
    if n == 0 {
      PendingBound(states[0].pending, 0);
    } else {
      var s, a := states[n - 1], actions[n - 1];
      ReplicaBound(rs, states, actions, n - 1);
      StepKeepsInv(rs, bound, s, a);
    }
  }

  // ----- The bound is reached

  /** Every call still to be made creates a pod under a name of its own. */
  predicate AllFresh(rs: ReplicaSet, s: State) {
    && (forall c, i :: 0 <= c < |s.pending| && 0 <= i < |s.pending[c]| ==>
         && s.pending[c][i].Create? && s.pending[c][i].name !in s.objects
         && Selects(rs.selector, s.pending[c][i].obj.meta.labels))
    && (forall c, i, e, j ::
         0 <= c < |s.pending| && 0 <= i < |s.pending[c]|
         && 0 <= e < |s.pending| && 0 <= j < |s.pending[e]| && (c != e || i != j)
         ==> s.pending[c][i].name != s.pending[e][j].name)
  }

  lemma FreshRest(rs: ReplicaSet, s: State, c: nat, t: State)
    requires Sound(rs) && AllFresh(rs, s) && c < |s.pending| && s.pending[c] != []
    requires t.pending == s.pending[c := s.pending[c][1..]]
    requires t.objects.Keys == s.objects.Keys + {s.pending[c][0].name}
    ensures AllFresh(rs, t)
  {
    forall e, i | 0 <= e < |t.pending| && 0 <= i < |t.pending[e]|
      ensures t.pending[e][i] == s.pending[e][if e == c then i + 1 else i]
      ensures t.pending[e][i].name != s.pending[c][0].name
    {
    }
    forall e, i, f, j | 0 <= e < |t.pending| && 0 <= i < |t.pending[e]| && 0 <= f < |t.pending|
      && 0 <= j < |t.pending[f]|
                        && (e != f || i != j)
      ensures t.pending[e][i].name != t.pending[f][j].name
    {
      var i', j' := if e == c then i + 1 else i, if f == c then j + 1 else j;
      assert s.pending[e][i'].name != s.pending[f][j'].name;
    }
  }

  lemma FreshCall(rs: ReplicaSet, s: State, c: nat) returns (t: State)
    requires Sound(rs) && AllFresh(rs, s) && c < |s.pending| && s.pending[c] != []
    ensures t == Apply(rs, s, Call(c, true)) && AllFresh(rs, t)
    ensures |Matching(rs.selector, t.objects)| == |Matching(rs.selector, s.objects)| + 1
    ensures PendingCreates(t.pending) == PendingCreates(s.pending) - 1
  {
    var request := s.pending[c][0];
    t := Apply(rs, s, Call(c, true));
    assert t.objects == s.objects[request.name := request.obj];
    FreshRest(rs, s, c, t);
    PendingUpdate(s.pending, c, s.pending[c][1..]);
    assert Matching(rs.selector, t.objects) == Matching(rs.selector, s.objects) + {request.name};
    assert request.name !in Matching(rs.selector, s.objects);
  }

  lemma {:induction false} Drain(rs: ReplicaSet, s: State) returns (states: seq<State>, actions: seq<Action>)
    requires Sound(rs) && AllFresh(rs, s)
    ensures |states| == |actions| + 1 && Steps(rs, states, actions) && states[0] == s
    ensures |Matching(rs.selector, states[|actions|].objects)|
              == |Matching(rs.selector, s.objects)| + PendingCreates(s.pending)
    decreases PendingCreates(s.pending)
  {
    if c: nat :| c < |s.pending| && s.pending[c] != [] {
      var t := FreshCall(rs, s, c);
      var rest, resting := Drain(rs, t);
      states, actions := Prepend(rs, s, Call(c, true), rest, resting);
    } else {
      PendingBound(s.pending, 0);
      states, actions := [s], [];
    }
  }

  lemma Prepend(rs: ReplicaSet, s: State, a: Action, rest: seq<State>, resting: seq<Action>)
    returns (states: seq<State>, actions: seq<Action>)
    requires Sound(rs) && |rest| == |resting| + 1 && Steps(rs, rest, resting)
    requires Enabled(rs, s, a) && Apply(rs, s, a) == rest[0]
    ensures |states| == |actions| + 1 && Steps(rs, states, actions) && states[0] == s
    ensures |actions| == |resting| + 1 && states[|actions|] == rest[|resting|]
  {
    states, actions := [s] + rest, [a] + resting;
    assert forall i :: 0 < i < |states| ==> states[i] == rest[i - 1];
  }

  lemma {:induction false} Join(rs: ReplicaSet, first: seq<State>, acting: seq<Action>, rest: seq<State>,
                                resting: seq<Action>)
    returns (states: seq<State>, actions: seq<Action>)
    requires Sound(rs) && |first| == |acting| + 1 && |rest| == |resting| + 1
    requires Steps(rs, first, acting) && Steps(rs, rest, resting) && first[|acting|] == rest[0]
    ensures |states| == |actions| + 1 && Steps(rs, states, actions)
    ensures states[0] == first[0] && states[|actions|] == rest[|resting|]
    decreases |acting|
  {
    if acting == [] {
      states, actions := rest, resting;
    } else {
      assert forall i :: 0 <= i < |first| - 1 ==> first[1..][i] == first[i + 1];
      var later, laterActions := Join(rs, first[1..], acting[1..], rest, resting);
      states, actions := Prepend(rs, first[0], acting[0], later, laterActions);
    }
  }

  /** All controllers from the first idle one on list the same, empty, set of pods. */
  lemma {:induction false} ListAll(rs: ReplicaSet, s: State, pods: seq<Pod>, draws: seq<seq<string>>, first: nat)
    returns (states: seq<State>, actions: seq<Action>)
    requires Sound(rs) && |s.pending| == |draws| && first <= |draws| && PodsListed(s.objects, pods)
    requires forall c :: 0 <= c < |draws| ==> Draws(rs, pods, draws[c])
    requires forall c :: 0 <= c < first ==> s.pending[c] == Plan(rs, pods, draws[c])
    ensures |states| == |actions| + 1 && Steps(rs, states, actions) && states[0] == s
    ensures states[|actions|].objects == s.objects && |states[|actions|].pending| == |draws|
    ensures forall c :: 0 <= c < |draws| ==> states[|actions|].pending[c] == Plan(rs, pods, draws[c])
    decreases |draws| - first
  {
    if first == |draws| {
      states, actions := [s], [];
    } else {
      var a := List(first, pods, draws[first]);
      var rest, resting := ListAll(rs, Apply(rs, s, a), pods, draws, first + 1);
      states, actions := Prepend(rs, s, a, rest, resting);
    }
  }

  /** The names drawn are unused, and all different. */
  predicate FreshDraws(rs: ReplicaSet, objects: map<string, Pod>, draws: seq<seq<string>>) {
    && (forall c, i :: 0 <= c < |draws| && 0 <= i < |draws[c]| ==> PodFrom(rs, draws[c][i]).meta.name !in objects)
    && (forall c, i, e, j ::
         0 <= c < |draws| && 0 <= i < |draws[c]| && 0 <= e < |draws| && 0 <= j < |draws[e]| && (c != e || i != j)
         ==> PodFrom(rs, draws[c][i]).meta.name != PodFrom(rs, draws[e][j]).meta.name)
  }

  lemma {:induction false} SumOfPlans(pending: seq<seq<Request<Pod>>>, d: nat)
    requires forall c :: 0 <= c < |pending| ==> CreateCount(pending[c]) == d
    ensures PendingCreates(pending) == |pending| * d
  {
    if pending == [] {
    } else {
      SumOfPlans(pending[..|pending| - 1], d);
      assert |pending| * d == (|pending| - 1) * d + d;
    }
  }

  /** The bound is sharp: starting without pods, k controllers can create k * desired of them. */
  lemma ReplicaBoundIsReached(rs: ReplicaSet, objects: map<string, Pod>, pods: seq<Pod>, draws: seq<seq<string>>)
    returns (states: seq<State>, actions: seq<Action>)
    requires Sound(rs) && PodsListed(objects, pods) && Matching(rs.selector, objects) == {}
    requires forall c :: 0 <= c < |draws| ==> Draws(rs, pods, draws[c])
    requires FreshDraws(rs, objects, draws)
    ensures IsRun(rs, states, actions) && states[0].objects == objects && |states[0].pending| == |draws|
    ensures |Matching(rs.selector, states[|actions|].objects)| == |draws| * rs.replicas.value
  {
    var s := State(objects, seq(|draws|, c => []));
    var lists, listing := ListAll(rs, s, pods, draws, 0);
    var t := lists[|listing|];
    AllHaveListed(rs, t, pods, draws);
    var calls, calling := Drain(rs, t);
    states, actions := Join(rs, lists, listing, calls, calling);
  }

  /** When all controllers have listed a store without pods of theirs, each has the desired number of creations to make.
      */
  lemma AllHaveListed(rs: ReplicaSet, t: State, pods: seq<Pod>, draws: seq<seq<string>>)
    requires Sound(rs) && PodsListed(t.objects, pods) && Matching(rs.selector, t.objects) == {}
    requires |t.pending| == |draws|
    requires forall c :: 0 <= c < |draws| ==> Draws(rs, pods, draws[c]) && t.pending[c] == Plan(rs, pods, draws[c])
    requires FreshDraws(rs, t.objects, draws)
    ensures PendingCreates(t.pending) == |draws| * rs.replicas.value && AllFresh(rs, t)
  {
    OwnedAreMatching(t.objects, pods, rs.selector);
    forall c | 0 <= c < |draws|
      ensures t.pending[c] == Creates(rs, draws[c]) && CreateCount(t.pending[c]) == rs.replicas.value
    {
      PlanCreateCount(rs, pods, draws[c]);
      assert Deletes(Owned(rs.selector, pods), 0) == [];
    }
    SumOfPlans(t.pending, rs.replicas.value);
    CreatesAreFresh(rs, t, draws);
  }

  lemma CreatesAreFresh(rs: ReplicaSet, t: State, draws: seq<seq<string>>)
    requires Sound(rs) && |t.pending| == |draws| && FreshDraws(rs, t.objects, draws)
    requires forall c :: 0 <= c < |draws| ==> t.pending[c] == Creates(rs, draws[c])
    ensures AllFresh(rs, t)
  {
    forall c, i | 0 <= c < |t.pending| && 0 <= i < |t.pending[c]|
      ensures t.pending[c][i] == Create(PodFrom(rs, draws[c][i]).meta.name, PodFrom(rs, draws[c][i]))
    {
    }
  }
}
