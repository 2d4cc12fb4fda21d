/** The same electors when the read and the write of an attempt are separate API calls that
    interleave with those of the others. */
module LeaseRaces {
  import opened Api
  import opened LeaderElection
  import LeaseSafety

  type Electors = LeaseSafety.Electors

  /** Where an elector is in its attempt: it has taken the time, or has also read the lease. */
  datatype Phase = Begun(now: int) | Read(now: int, found: Option<Lease>)

  /** `created` counts the successful creations of the lease. */
  datatype State = State(now: int, lease: Option<Lease>, held: map<string, Lease>, attempts: map<string, Phase>,
                         created: nat)

  datatype Fault = NoFault | Lost | ReplyLost

  datatype Action =
    | Begin(elector: string)
    | Get(elector: string, ok: bool)
    | Write(elector: string, fault: Fault)
    | Stop(elector: string)
    | Tick(duration: int)

  ghost predicate Enabled(c: Electors, s: State, a: Action) {
    match a
    case Begin(i) => i in c && i !in s.attempts
    case Get(i, _) => i in c && i in s.attempts && s.attempts[i].Begun?
    case Write(i, _) => i in c && i in s.attempts && s.attempts[i].Read?
    case Stop(_) => true
    case Tick(d) => 0 <= d && forall i :: i in s.held ==> !Expired(s.held[i], s.now + d)
  }

  function Ended(s: State, i: string): State {
    s.(held := LeaseSafety.Without(s.held, i), attempts := map j | j in s.attempts && j != i :: s.attempts[j])
  }

  /** The server creates only an absent lease and updates only a present one, whatever its content. */
  predicate ServerAccepts(s: State, decision: Decision) {
    if decision.Make? then s.lease.None? else decision.Take? && s.lease.Some?
  }

  function DecisionOf(c: Electors, s: State, i: string): Decision
    requires i in c && i in s.attempts && s.attempts[i].Read?
  {
    Decide(s.attempts[i].found, i, c[i], s.attempts[i].now)
  }

  function Apply(c: Electors, s: State, a: Action): State
    requires Enabled(c, s, a)
  {
    match a
    case Begin(i) => s.(attempts := s.attempts[i := Begun(s.now)])
    case Get(i, ok) => if ok then s.(attempts := s.attempts[i := Read(s.attempts[i].now, s.lease)]) else Ended(s, i)
    case Write(i, fault) =>
      var decision := DecisionOf(c, s, i);
      var done := Ended(s, i);
      if fault.Lost? || !ServerAccepts(s, decision) then done
      else
        var stored := done.(lease := Some(decision.lease), created := s.created + if decision.Make? then 1 else 0);
        if fault.ReplyLost? then stored else stored.(held := done.held[i := decision.lease])
    case Stop(i) => Ended(s, i)
    case Tick(d) => s.(now := s.now + d)
  }

  ghost predicate IsRun(c: Electors, states: seq<State>, actions: seq<Action>) {
    && |states| == |actions| + 1
    && forall i :: 0 <= i < |actions| ==>
      Enabled(c, states[i], actions[i]) && states[i + 1] == Apply(c, states[i], actions[i])
  }

  predicate Initial(s: State) {
    && s.held == map[] && s.attempts == map[] && s.created == 0
    && Positive(s.lease)
  }

  predicate AtMostOneLeader(s: State) {
    forall i, j :: i in s.held && j in s.held ==> i == j
  }

  /** In every interleaving the lease is created at most once, and it never disappears. */
  lemma {:induction false} CreatedOnce(c: Electors, states: seq<State>, actions: seq<Action>, n: nat)
    requires IsRun(c, states, actions) && Initial(states[0]) && n < |states|
    ensures states[n].created == if states[0].lease.None? && states[n].lease.Some? then 1 else 0
    ensures states[0].lease.Some? ==> states[n].lease.Some?
  {
    if n == 0 {
    } else {
      CreatedOnce(c, states, actions, n - 1);
      assert Enabled(c, states[n - 1], actions[n - 1]);
    }
  }

  /** The premise the code comments on but does not check: every update the server accepts overwrites the
      lease its attempt has read. */
  predicate NotStale(c: Electors, s: State, a: Action) {
    a.Write? && !a.fault.Lost? && a.elector in c && a.elector in s.attempts && s.attempts[a.elector].Read?
      && ServerAccepts(s, DecisionOf(c, s, a.elector))
    ==> s.attempts[a.elector].found == s.lease
  }

  predicate Positive(lease: Option<Lease>) {
    lease.Some? && lease.value.seconds.Some? ==> 0 < lease.value.seconds.value
  }

  /** A leader is the recorded holder of a good lease, and no attempt began in the future. */
  ghost predicate Inv(s: State) {
    && Positive(s.lease)
    && (forall i :: i in s.attempts ==> s.attempts[i].now <= s.now)
    && (forall i :: i in s.attempts && s.attempts[i].Read? ==> Positive(s.attempts[i].found))
    && (forall i :: i in s.held ==>
         && s.lease == Some(s.held[i]) && s.held[i].holder == Some(i) && s.held[i].renewTime.Some?
           && !Expired(s.held[i], s.now))
  }

  /** A lease the server accepts is still good when it arrives, or its writer leads on nothing. */
  predicate InTime(c: Electors, s: State, a: Action) {
    a.Write? && !a.fault.Lost? && a.elector in c && a.elector in s.attempts && s.attempts[a.elector].Read?
      && ServerAccepts(s, DecisionOf(c, s, a.elector))
    ==> !Expired(DecisionOf(c, s, a.elector).lease, s.now)
  }

  lemma StepKeepsInv(c: Electors, s: State, a: Action)
    requires LeaseSafety.WholeSecondDurations(c) && Inv(s) && Enabled(c, s, a) && NotStale(c, s, a) && InTime(c, s, a)
    ensures Inv(Apply(c, s, a))
  {
    if a.Write? {
      WriteKeepsInv(c, s, a);
    }
  }

  lemma WriteKeepsInv(c: Electors, s: State, a: Action)
    requires a.Write? && LeaseSafety.WholeSecondDurations(c) && Inv(s) && Enabled(c, s, a) && NotStale(c, s, a)
    requires InTime(c, s, a)
    ensures Inv(Apply(c, s, a))
  {
    assert 1 <= WholeSeconds(c[a.elector]);
  }

  lemma {:induction false} InvHolds(c: Electors, states: seq<State>, actions: seq<Action>, n: nat)
    requires LeaseSafety.WholeSecondDurations(c) && IsRun(c, states, actions) && Initial(states[0]) && n < |states|
    requires forall k :: 0 <= k < n ==> NotStale(c, states[k], actions[k]) && InTime(c, states[k], actions[k])
    ensures Inv(states[n])
  {
    if n == 0 {
    } else {
      InvHolds(c, states, actions, n - 1);
      StepKeepsInv(c, states[n - 1], actions[n - 1]);
    }
  }

  /** Whatever the interleaving: two electors lead at once only in a run in which some update overwrote
      a lease other than the one its attempt had read, or arrived after its own lease had run out. */
  lemma ExclusiveUnlessStale(c: Electors, states: seq<State>, actions: seq<Action>, n: nat)
    requires LeaseSafety.WholeSecondDurations(c) && IsRun(c, states, actions) && Initial(states[0]) && n < |states|
    requires forall k :: 0 <= k < n ==> NotStale(c, states[k], actions[k]) && InTime(c, states[k], actions[k])
    ensures AtMostOneLeader(states[n])
    ensures forall i :: i in states[n].held ==>
              states[n].lease.Some? && states[n].lease.value.holder == Some(i)
                && !Expired(states[n].lease.value, states[n].now)
  {
    InvHolds(c, states, actions, n);
    var s := states[n];
    forall i, j | i in s.held && j in s.held ensures i == j {
      assert s.held[i].holder == Some(i) && s.held[j].holder == Some(j);
    }
  }

  // ----- Attempts that do not overlap

  function Observed(s: State): LeaseSafety.State {
    LeaseSafety.State(s.now, s.lease, s.held)
  }

  /** The calls of one whole attempt, with nothing in between. */
  function Calls(a: LeaseSafety.Action): seq<Action> {
    match a
    case Stop(i) => [Stop(i)]
    case Tick(d) => [Tick(d)]
    case Attempt(i, fault) =>
      if fault.GetFails? then [Begin(i), Get(i, false)]
      else [Begin(i), Get(i, true), Write(i, FaultOf(fault))]
  }

  function FaultOf(fault: LeaseSafety.Fault): Fault {
    if fault.WriteLost? then Lost else if fault.ReplyLost? then ReplyLost else NoFault
  }

  /** An attempt whose read and write have nothing in between does exactly what an atomic attempt does, and no
      update in it is stale. */
  lemma SerialIsAtomic(c: Electors, s: State, a: LeaseSafety.Action) returns (states: seq<State>)
    requires LeaseSafety.Enabled(c, Observed(s), a) && (a.Attempt? ==> a.elector !in s.attempts)
    requires (a.Stop? ==> a.elector !in s.attempts)
    ensures IsRun(c, states, Calls(a)) && states[0] == s
    ensures var t := states[|Calls(a)|];
            Observed(t) == LeaseSafety.Apply(c, Observed(s), a) && t.attempts == s.attempts
    ensures forall k :: 0 <= k < |Calls(a)| ==> NotStale(c, states[k], Calls(a)[k])
  {
    match a {
      case Stop(i) => states := [s, Apply(c, s, Stop(i))];
      case Tick(d) => states := [s, Apply(c, s, Tick(d))];
      case Attempt(i, fault) =>
        var s1 := s.(attempts := s.attempts[i := Begun(s.now)]);
        if fault.GetFails? {
          states := [s, s1, Apply(c, s1, Get(i, false))];
          assert states[2].attempts == s.attempts;
        } else {
          var s2 := s.(attempts := s.attempts[i := Read(s.now, s.lease)]);
          states := [s, s1, s2, Apply(c, s2, Write(i, FaultOf(fault)))];
          assert Apply(c, s1, Get(i, true)) == s2;
          WriteAtOnce(c, s, s2, i, fault);
        }
    }
  }

  lemma WriteAtOnce(c: Electors, s: State, read: State, i: string, fault: LeaseSafety.Fault)
    requires i in c && i !in s.attempts && !fault.GetFails?
    requires read == s.(attempts := s.attempts[i := Read(s.now, s.lease)])
    ensures var t := Apply(c, read, Write(i, FaultOf(fault)));
            Observed(t) == LeaseSafety.Apply(c, Observed(s), LeaseSafety.Attempt(i, fault)) && t.attempts == s.attempts
  {
    assert Apply(c, read, Write(i, FaultOf(fault))).attempts == s.attempts;
  }

  lemma Joined(c: Electors, first: seq<State>, acting: seq<Action>, rest: seq<State>, resting: seq<Action>)
    requires IsRun(c, first, acting) && IsRun(c, rest, resting) && first[|acting|] == rest[0]
    ensures IsRun(c, first + rest[1..], acting + resting)
    ensures forall k :: 0 <= k <= |acting| ==> (first + rest[1..])[k] == first[k]
    ensures forall k :: 0 <= k <= |resting| ==> (first + rest[1..])[|acting| + k] == rest[k]
  {
    var states, actions := first + rest[1..], acting + resting;
    forall k | 0 <= k < |actions|
      ensures Enabled(c, states[k], actions[k]) && states[k + 1] == Apply(c, states[k], actions[k])
    {
      if k < |acting| {
        assert states[k] == first[k] && actions[k] == acting[k];
      } else {
        assert actions[k] == resting[k - |acting|];
        assert states[k] == rest[k - |acting|] && states[k + 1] == rest[k - |acting| + 1];
      }
    }
  }

  lemma JoinedNotStale(c: Electors, first: seq<State>, acting: seq<Action>, rest: seq<State>, resting: seq<Action>)
    requires IsRun(c, first, acting) && IsRun(c, rest, resting) && first[|acting|] == rest[0]
    requires forall k :: 0 <= k < |acting| ==> NotStale(c, first[k], acting[k])
    requires forall k :: 0 <= k < |resting| ==> NotStale(c, rest[k], resting[k])
    ensures forall k :: 0 <= k < |acting + resting| ==> NotStale(c, (first + rest[1..])[k], (acting + resting)[k])
  {
    forall k | 0 <= k < |acting + resting| ensures NotStale(c, (first + rest[1..])[k], (acting + resting)[k]) {
      if k >= |acting| {
        assert (first + rest[1..])[k] == rest[k - |acting|] && (acting + resting)[k] == resting[k - |acting|];
      }
    }
  }

  /** Every run of atomic attempts is a run of interleaved ones without a stale update. */
  lemma {:induction false} AtomicRunsAreRuns(c: Electors, atoms: seq<LeaseSafety.State>,
                                             acting: seq<LeaseSafety.Action>, s: State)
    returns (states: seq<State>, actions: seq<Action>)
    requires LeaseSafety.IsRun(c, atoms, acting) && Observed(s) == atoms[0] && s.attempts == map[]
    ensures IsRun(c, states, actions) && states[0] == s
    ensures Observed(states[|actions|]) == atoms[|acting|] && states[|actions|].attempts == map[]
    ensures forall k :: 0 <= k < |actions| ==> NotStale(c, states[k], actions[k])
  {
    if acting == [] {
      states, actions := [s], [];
    } else {
      var k := |acting| - 1;
      var first, firstActions := AtomicRunsAreRuns(c, atoms[..k + 1], acting[..k], s);
      assert LeaseSafety.Enabled(c, atoms[k], acting[k]) && atoms[k + 1] == LeaseSafety.Apply(c, atoms[k], acting[k]);
      var last := SerialIsAtomic(c, first[|firstActions|], acting[k]);
      Joined(c, first, firstActions, last, Calls(acting[k]));
      JoinedNotStale(c, first, firstActions, last, Calls(acting[k]));
      assert (first + last[1..])[|firstActions| + |Calls(acting[k])|] == last[|Calls(acting[k])|];
      states, actions := first + last[1..], firstActions + Calls(acting[k]);
    }
  }

  // ----- The races

  /** The lease an elector writes over one that has run out: its own if it is the recorded holder, a new one otherwise.
      */
  function Claim(c: Electors, found: Lease, i: string, now: int): Lease
    requires i in c
  {
    if found.holder == Some(i) then found.(renewTime := Some(now)) else Fresh(i, c[i], now)
  }

  /** From any state without attempts under way in which the lease has expired, two electors that both
      read it both write it, be one of them the recorded holder or not: mutual exclusion fails. */
  lemma TakeoverRace(c: Electors, s: State, i: string, j: string) returns (states: seq<State>, actions: seq<Action>)
    requires i in c && j in c && i != j && s.attempts == map[]
    requires s.lease.Some? && Expired(s.lease.value, s.now)
    ensures IsRun(c, states, actions) && states[0] == s && |actions| == 6
    ensures i in states[6].held && j in states[6].held
    ensures states[6].lease == Some(Claim(c, s.lease.value, j, s.now))
  {
    var first, acting := BothRead(c, s, i, j);
    var t, u := BothWrite(c, first[4], i, j, s.lease.value);
    var rest, resting := [first[4], t, u], [Write(i, NoFault), Write(j, NoFault)];
    Joined(c, first, acting, rest, resting);
    states, actions := first + rest[1..], acting + resting;
    assert states[4 + 2] == rest[2];
  }

  lemma BothRead(c: Electors, s: State, i: string, j: string) returns (states: seq<State>, actions: seq<Action>)
    requires i in c && j in c && i != j && s.attempts == map[]
    ensures IsRun(c, states, actions) && states[0] == s && |actions| == 4
    ensures states[4] == s.(attempts := map[i := Read(s.now, s.lease), j := Read(s.now, s.lease)])
  {
    var read := Read(s.now, s.lease);
    var s1 := s.(attempts := map[i := Begun(s.now)]);
    var s2 := s.(attempts := map[i := Begun(s.now), j := Begun(s.now)]);
    var s3 := s.(attempts := map[i := read, j := Begun(s.now)]);
    var s4 := s.(attempts := map[i := read, j := read]);
    states, actions := [s, s1, s2, s3, s4], [Begin(i), Begin(j), Get(i, true), Get(j, true)];
    assert Apply(c, s, actions[0]) == s1 && Apply(c, s1, actions[1]) == s2;
    assert Apply(c, s2, actions[2]) == s3 && Apply(c, s3, actions[3]) == s4;
  }

  lemma BothWrite(c: Electors, s: State, i: string, j: string, found: Lease) returns (t: State, u: State)
    requires i in c && j in c && i != j
    requires s.attempts == map[i := Read(s.now, Some(found)), j := Read(s.now, Some(found))]
    requires s.lease.Some? && Expired(found, s.now)
    ensures t == Apply(c, s, Write(i, NoFault)) && Enabled(c, t, Write(j, NoFault))
    ensures u == Apply(c, t, Write(j, NoFault))
    ensures i in u.held && j in u.held && u.lease == Some(Claim(c, found, j, s.now))
  {
    t := Apply(c, s, Write(i, NoFault));
    assert t.attempts == map[j := Read(s.now, Some(found))];
    u := Apply(c, t, Write(j, NoFault));
  }

  ghost predicate AlwaysExclusive(c: Electors) {
    forall states, actions, n: nat :: IsRun(c, states, actions) && Initial(states[0]) && n < |states| ==>
      AtMostOneLeader(states[n])
  }

  lemma LongEnough(lease: Lease) returns (wait: int)
    requires lease.renewTime == Some(0) && lease.seconds.Some?
    ensures 0 <= wait && Expired(lease, wait)
  {
    wait := Max(0, lease.seconds.value * SECOND);
  }

  /** An elector creates the lease, stops, and lets it run out. */
  lemma LeaseRunsOut(c: Electors, i: string) returns (states: seq<State>, actions: seq<Action>)
    requires i in c
    ensures IsRun(c, states, actions) && states[0] == State(0, None, map[], map[], 0)
    ensures var t := states[|actions|];
            t.attempts == map[] && t.lease.Some? && Expired(t.lease.value, t.now)
  {
    var lease := Fresh(i, c[i], 0);
    var wait := LongEnough(lease);
    var a0 := LeaseSafety.State(0, None, map[]);
    var a1 := LeaseSafety.State(0, Some(lease), map[i := lease]);
    var a2 := LeaseSafety.State(0, Some(lease), map[]);
    var a3 := LeaseSafety.State(wait, Some(lease), map[]);
    var acting := [LeaseSafety.Attempt(i, LeaseSafety.NoFault), LeaseSafety.Stop(i), LeaseSafety.Tick(wait)];
    assert LeaseSafety.Apply(c, a0, acting[0]) == a1 && LeaseSafety.Apply(c, a1, acting[1]) == a2;
    states, actions := AtomicRunsAreRuns(c, [a0, a1, a2, a3], acting, State(0, None, map[], map[], 0));
  }

  /** A fresh cluster gets there by itself: the elector comes back to renew just as another one takes over. */
  lemma LateRenewal(c: Electors, i: string, j: string) returns (states: seq<State>, actions: seq<Action>)
    requires i in c && j in c && i != j
    ensures IsRun(c, states, actions) && states[0] == State(0, None, map[], map[], 0)
    ensures var t := states[|actions|]; i in t.held && j in t.held && !AtMostOneLeader(t)
  {
    var first, acting := LeaseRunsOut(c, i);
    var rest, resting := TakeoverRace(c, first[|acting|], i, j);
    Joined(c, first, acting, rest, resting);
    states, actions := first + rest[1..], acting + resting;
    assert states[|acting| + 6] == rest[6];
  }

  lemma {:induction false} OnlyElectorsLead(c: Electors, states: seq<State>, actions: seq<Action>, n: nat)
    requires IsRun(c, states, actions) && states[0].held == map[] && n < |states|
    ensures states[n].held.Keys <= c.Keys
  {
    if n == 0 {
    } else {
      OnlyElectorsLead(c, states, actions, n - 1);
      assert Enabled(c, states[n - 1], actions[n - 1]);
    }
  }

  /** With reads and writes as separate calls leadership is exclusive in every run if and only if there is at most one
      elector to begin with: whatever the durations, any two have a run in which both lead. */
  lemma ExclusiveIffAlone(c: Electors)
    ensures AlwaysExclusive(c) <==> forall i, j :: i in c && j in c ==> i == j
  {
    if forall i, j :: i in c && j in c ==> i == j {
      forall states, actions, n: nat | IsRun(c, states, actions) && Initial(states[0]) && n < |states|
        ensures AtMostOneLeader(states[n])
      {
        OnlyElectorsLead(c, states, actions, n);
      }
    }
    if AlwaysExclusive(c) {
      forall i, j | i in c && j in c ensures i == j {
        NoRival(c, i, j);
      }
    }
  }

  lemma NoRival(c: Electors, i: string, j: string)
    requires AlwaysExclusive(c) && i in c && j in c
    ensures i == j
  {
    if i != j {
      var states, actions := LateRenewal(c, i, j);
      assert false;
    }
  }

  // ----- Recovery from the races

  /** The action ends an attempt of the elector, or its process. */
  predicate Ends(a: Action, i: string) {
    (a.Write? || a.Stop? || (a.Get? && !a.ok)) && a.elector == i
  }

  predicate HeldBy(lease: Option<Lease>, holder: string) {
    lease.Some? && lease.value.holder == Some(holder) && lease.value.renewTime.Some?
  }

  /** Every lease read is the holder's, and was good when its reader began, unless that is the holder. */
  ghost predicate ReadsAgree(s: State, holder: string) {
    && HeldBy(s.lease, holder)
    && (forall i :: i in s.attempts ==> s.attempts[i].now <= s.now)
    && (forall i :: i in s.attempts && s.attempts[i].Read? ==> HeldBy(s.attempts[i].found, holder))
    && (forall i :: i in s.attempts && s.attempts[i].Read? && i != holder ==>
         !Expired(s.attempts[i].found.value, s.attempts[i].now))
  }

  lemma StepKeepsReads(c: Electors, s: State, a: Action, holder: string)
    requires ReadsAgree(s, holder) && !Expired(s.lease.value, s.now) && Enabled(c, s, a)
    ensures ReadsAgree(Apply(c, s, a), holder)
    ensures forall i :: i in Apply(c, s, a).held && i != holder ==> i in s.held && !Ends(a, i)
  {
  }

  lemma {:induction false} Recovering(c: Electors, states: seq<State>, actions: seq<Action>, holder: string, n: nat)
    requires IsRun(c, states, actions) && n <= |actions|
    requires HeldBy(states[0].lease, holder) && states[0].attempts == map[]
    requires forall k :: 0 <= k < |states| && HeldBy(states[k].lease, holder) ==>
               !Expired(states[k].lease.value, states[k].now)
    ensures ReadsAgree(states[n], holder)
    ensures forall i :: i in states[n].held && i != holder ==> i in states[0].held && forall k :: 0 <= k < n ==>
              !Ends(actions[k], i)
  {
    if n == 0 {
    } else {
      Recovering(c, states, actions, holder, n - 1);
      StepKeepsReads(c, states[n - 1], actions[n - 1], holder);
    }
  }

  /** Recovery, in every interleaving: from any number of leaders, with no attempt under way, while the lease stays good
      its holder keeps it, and once each leader has ended one attempt or stopped, only the holder is left. */
  lemma Recovery(c: Electors, states: seq<State>, actions: seq<Action>, holder: string)
    requires IsRun(c, states, actions) && HeldBy(states[0].lease, holder) && states[0].attempts == map[]
    requires forall k :: 0 <= k < |states| && HeldBy(states[k].lease, holder) ==>
               !Expired(states[k].lease.value, states[k].now)
    requires forall i :: i in states[0].held ==> exists k :: 0 <= k < |actions| && Ends(actions[k], i)
    ensures HeldBy(states[|actions|].lease, holder) && states[|actions|].held.Keys <= {holder}
  {
    Recovering(c, states, actions, holder, |actions|);
    forall i | i in states[|actions|].held ensures i == holder {
    }
  }
}
