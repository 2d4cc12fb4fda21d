/** Electors competing for one lease when every attempt is atomic: who leads, and for how long. */
module LeaseSafety {
  import opened Api
  import opened LeaderElection
  import Registry

  /** The electors, by identity, with their configured lease durations. */
  type Electors = map<string, int>

  /** The common clock, the stored lease, and the leading electors with the lease each last wrote. */
  datatype State = State(now: int, lease: Option<Lease>, held: map<string, Lease>)

  datatype Fault = NoFault | GetFails | WriteLost | ReplyLost

  datatype Action =
    | Attempt(elector: string, fault: Fault)
    | Stop(elector: string)
    | Tick(duration: int)

  function Without(held: map<string, Lease>, elector: string): map<string, Lease> {
    map i | i in held && i != elector :: held[i]
  }

  /** Time does not reach the end of a leader's lease before it renews or stops. */
  ghost predicate Enabled(c: Electors, s: State, a: Action) {
    match a
    case Attempt(i, _) => i in c
    case Stop(_) => true
    case Tick(d) => 0 <= d && forall i :: i in s.held ==> !Expired(s.held[i], s.now + d)
  }

  /** An elector leads from a successful attempt to the next failed one; a write whose reply is lost
      has taken effect all the same. */
  function Apply(c: Electors, s: State, a: Action): State
    requires a.Attempt? ==> a.elector in c
  {
    match a
    case Stop(i) => s.(held := Without(s.held, i))
    case Tick(d) => s.(now := s.now + d)
    case Attempt(i, fault) =>
      var decision := Decide(s.lease, i, c[i], s.now);
      if fault.GetFails? || decision.HeldByOther? || decision.Crash? || fault.WriteLost?
      then s.(held := Without(s.held, i))
      else if fault.ReplyLost? then s.(lease := Some(decision.lease), held := Without(s.held, i))
      else s.(lease := Some(decision.lease), held := s.held[i := decision.lease])
  }

  ghost predicate IsRun(c: Electors, states: seq<State>, actions: seq<Action>) {
    && |states| == |actions| + 1
    && forall i :: 0 <= i < |actions| ==>
      Enabled(c, states[i], actions[i]) && states[i + 1] == Apply(c, states[i], actions[i])
  }

  /** Nobody leads yet, and a lease left over from before has a positive duration, if any. */
  predicate Initial(s: State) {
    s.held == map[] && (s.lease.Some? && s.lease.value.seconds.Some? ==> 0 < s.lease.value.seconds.value)
  }

  predicate WholeSecondDurations(c: Electors) {
    forall i :: i in c ==> SECOND <= c[i]
  }

  /** A leader is the recorded holder, of a lease that has not expired. */
  ghost predicate Inv(s: State) {
    && (s.lease.Some? && s.lease.value.seconds.Some? ==> 0 < s.lease.value.seconds.value)
    && forall i :: i in s.held ==>
         && s.lease == Some(s.held[i]) && s.held[i].holder == Some(i)
         && s.held[i].renewTime.Some? && !Expired(s.held[i], s.now)
  }

  predicate AtMostOneLeader(s: State) {
    forall i, j :: i in s.held && j in s.held ==> i == j
  }

  lemma StepKeepsInv(c: Electors, s: State, a: Action)
    requires WholeSecondDurations(c) && Inv(s) && Enabled(c, s, a)
    ensures Inv(Apply(c, s, a))
  {
    if a.Attempt? {
      assert 1 <= WholeSeconds(c[a.elector]);
    }
  }

  lemma {:induction false} InvHolds(c: Electors, states: seq<State>, actions: seq<Action>, n: nat)
    requires WholeSecondDurations(c) && IsRun(c, states, actions) && Initial(states[0]) && n < |states|
    ensures Inv(states[n])
  {
    if n == 0 {
    } else {
      InvHolds(c, states, actions, n - 1);
      StepKeepsInv(c, states[n - 1], actions[n - 1]);
    }
  }

  /** Mutual exclusion: at most one elector leads, and it is the recorded, unexpired holder. */
  lemma MutualExclusion(c: Electors, states: seq<State>, actions: seq<Action>, n: nat)
    requires WholeSecondDurations(c) && IsRun(c, states, actions) && Initial(states[0]) && n < |states|
    ensures AtMostOneLeader(states[n])
    ensures forall i :: i in states[n].held ==>
              states[n].lease.Some? && states[n].lease.value.holder == Some(i)
                && !Expired(states[n].lease.value, states[n].now)
  {
    InvHolds(c, states, actions, n);
    var s := states[n];
    forall i, j | i in s.held && j in s.held ensures i == j {
      assert s.held[i].holder == Some(i) && s.held[j].holder == Some(j);
    }
  }

  ghost predicate AlwaysExclusive(c: Electors) {
    forall states, actions, n: nat :: IsRun(c, states, actions) && Initial(states[0]) && n < |states| ==>
      AtMostOneLeader(states[n])
  }

  /** A lease duration below one second is stored as zero seconds: the next elector takes over at once. */
  lemma SubSecondClash(c: Electors, i: string, j: string) returns (states: seq<State>, actions: seq<Action>)
    requires i in c && j in c && i != j && c[i] < SECOND
    ensures IsRun(c, states, actions) && Initial(states[0]) && |states| == 3 && !AtMostOneLeader(states[2])
  {
    var s0 := State(0, None, map[]);
    var s1 := Apply(c, s0, Attempt(i, NoFault));
    assert WholeSeconds(c[i]) <= 0;
    var s2 := Apply(c, s1, Attempt(j, NoFault));
    assert i in s2.held && j in s2.held;
    states, actions := [s0, s1, s2], [Attempt(i, NoFault), Attempt(j, NoFault)];
  }

  /** With two electors or more, leadership is exclusive in every run if and only if every configured
      lease duration is at least one second. */
  lemma ExclusiveIffWholeSeconds(c: Electors)
    requires exists i, j :: i in c && j in c && i != j
    ensures AlwaysExclusive(c) <==> WholeSecondDurations(c)
  {
    if WholeSecondDurations(c) {
      forall states, actions, n: nat | IsRun(c, states, actions) && Initial(states[0]) && n < |states|
        ensures AtMostOneLeader(states[n])
      {
        MutualExclusion(c, states, actions, n);
      }
    }
    if AlwaysExclusive(c) {
      forall i | i in c ensures SECOND <= c[i] {
        NoShortDuration(c, i);
      }
    }
  }

  lemma NoShortDuration(c: Electors, i: string)
    requires exists j, k :: j in c && k in c && j != k
    requires AlwaysExclusive(c) && i in c
    ensures SECOND <= c[i]
  {
    var j :| j in c && j != i;
    if c[i] < SECOND {
      var states, actions := SubSecondClash(c, i, j);
      assert false;
    }
  }

  // ----- The attempts of the elector are such steps

  /** Every attempt of an elector, whatever is lost on the way, is a step of this machine: the lease is as the step
      leaves it, and the elector leads exactly if its attempt succeeded. */
  lemma AttemptIsStep(c: Electors, s: State, i: string, reliable: bool, lockName: string, a: Record)
    returns (fault: Fault)
    requires i in c && s.now == a.now && s.lease == FoundIn(a.before.objects, lockName)
    requires Attempted(reliable, lockName, i, c[i], a)
    ensures var t := Apply(c, s, Attempt(i, fault));
            && t.now == s.now && t.lease == FoundIn(a.after.objects, lockName)
            && (i in t.held <==> a.outcome.Acquired?)
            && (forall j :: j != i ==> (j in t.held <==> j in s.held) && (j in s.held ==> t.held[j] == s.held[j]))
  {
    var decision := Decide(s.lease, i, c[i], s.now);
    var log := a.after.history[|a.before.history|..];
    if a.outcome.Acquired? {
      fault := NoFault;
    } else if a.sent == [] {
      assert log == [];
      fault := GetFails;
    } else {
      fault := SentAttempt(lockName, decision, a, log);
    }
  }

  /** An attempt that failed although its request was sent: the request was lost, or its reply. */
  lemma SentAttempt(lockName: string, decision: Decision, a: Record, log: seq<Registry.Exchange<Lease>>)
    returns (fault: Fault)
    requires decision.Make? <==> lockName !in a.before.objects
    requires a.sent != [] && a.sent == RequestOf(lockName, decision) && Registry.Requests(log) == a.sent
    requires a.after.objects == Registry.ServeAll(a.before.objects, log)
    ensures fault == WriteLost || fault == ReplyLost
    ensures a.after.objects == if fault == ReplyLost then a.before.objects[lockName := decision.lease]
                               else a.before.objects
  {
    assert |log| == 1 && log[0].request == Registry.Requests(log)[0] && log[..0] == [];
    assert Registry.ServeAll(a.before.objects, log)
        == if log[0].served then Registry.Serve(a.before.objects, log[0].request) else a.before.objects;
    fault := if log[0].served then ReplyLost else WriteLost;
  }

  // ----- Stickiness and failover

  /** The stored lease may be taken from its holder. */
  predicate Claimable(lease: Lease, now: int) {
    lease.holder.None? || lease.renewTime.None? || Expired(lease, now)
  }

  /** One step: the clock and the renew time do not go back, and the holder changes only by an attempt
      on a lease that is claimable at that time. */
  predicate Sticky(s: State, a: Action, t: State) {
    && s.now <= t.now
    && (s.lease.Some? ==> t.lease.Some?)
    && (s.lease.Some? && s.lease.value.renewTime.Some? ==>
         t.lease.value.renewTime.Some? && s.lease.value.renewTime.value <= t.lease.value.renewTime.value)
    && (s.lease.Some? && s.lease.value.holder != t.lease.value.holder ==>
         a.Attempt? && t.lease.value.holder == Some(a.elector) && Claimable(s.lease.value, s.now))
  }

  predicate RenewedInThePast(s: State) {
    s.lease.Some? && s.lease.value.renewTime.Some? ==> s.lease.value.renewTime.value <= s.now
  }

  lemma {:induction false} LeadershipIsSticky(c: Electors, states: seq<State>, actions: seq<Action>, n: nat)
    requires IsRun(c, states, actions) && RenewedInThePast(states[0]) && n < |actions|
    ensures RenewedInThePast(states[n]) && Sticky(states[n], actions[n], states[n + 1])
  {
    if n == 0 {
    } else {
      LeadershipIsSticky(c, states, actions, n - 1);
    }
  }

  /** Over a whole run the recorded renew time never goes back. */
  lemma {:induction false} RenewTimeNeverDecreases(c: Electors, states: seq<State>, actions: seq<Action>, m: nat,
                                                   n: nat)
    requires IsRun(c, states, actions) && RenewedInThePast(states[0]) && m <= n < |states|
    requires states[m].lease.Some? && states[m].lease.value.renewTime.Some?
    ensures states[n].lease.Some? && states[n].lease.value.renewTime.Some?
    ensures states[m].lease.value.renewTime.value <= states[n].lease.value.renewTime.value
    decreases n
  {
    if m == n {
    } else {
      RenewTimeNeverDecreases(c, states, actions, m, n - 1);
      LeadershipIsSticky(c, states, actions, n - 1);
    }
  }

  /** While the holder makes no attempt and the lease is good, nobody changes it. */
  lemma {:induction false} GoodLeaseStays(c: Electors, states: seq<State>, actions: seq<Action>, holder: string, n: nat)
    requires IsRun(c, states, actions) && n < |states|
    requires states[0].lease.Some? && states[0].lease.value.holder == Some(holder)
    requires states[0].lease.value.renewTime.Some? && states[0].lease.value.seconds.Some?
    requires forall k :: 0 <= k < n && actions[k].Attempt? ==>
               actions[k].elector != holder && !Expired(states[0].lease.value, states[k].now)
    ensures states[n].lease == states[0].lease
  {
    if n == 0 {
    } else {
      GoodLeaseStays(c, states, actions, holder, n - 1);
    }
  }

  /** Failover: once the holder has stopped trying, the first attempt of another elector at or after the
      end of its lease acquires, if no call fails. */
  lemma Failover(c: Electors, states: seq<State>, actions: seq<Action>, holder: string, n: nat)
    requires IsRun(c, states, actions) && n < |actions|
    requires states[0].lease.Some? && states[0].lease.value.holder == Some(holder)
    requires states[0].lease.value.renewTime.Some? && states[0].lease.value.seconds.Some?
    requires forall k :: 0 <= k < n && actions[k].Attempt? ==>
               actions[k].elector != holder && !Expired(states[0].lease.value, states[k].now)
    requires actions[n].Attempt? && actions[n].elector != holder && actions[n].fault.NoFault?
    ensures actions[n].elector in states[n + 1].held <==> Expired(states[0].lease.value, states[n].now)
    ensures Expired(states[0].lease.value, states[n].now) ==>
              states[n + 1].lease.value.holder == Some(actions[n].elector)
  {
    GoodLeaseStays(c, states, actions, holder, n);
  }

  // ----- Recovery

  /** From a state with any number of leaders and a good lease: while the lease stays good, a leader that
      makes an attempt, or stops, stops leading unless it is the recorded holder; so once each has done
      so, at most the holder is left. */
  lemma Recovery(c: Electors, states: seq<State>, actions: seq<Action>, holder: string)
    requires IsRun(c, states, actions) && HeldBy(states[0], holder)
    requires forall k :: 0 <= k < |states| && HeldBy(states[k], holder) ==>
               !Expired(states[k].lease.value, states[k].now)
    requires forall i :: i in states[0].held ==> exists k :: 0 <= k < |actions| && Acts(actions[k], i)
    ensures HeldBy(states[|actions|], holder) && states[|actions|].held.Keys <= {holder}
  {
    Recovering(c, states, actions, holder, |actions|);
    forall i | i in states[|actions|].held ensures i == holder {
    }
  }

  predicate HeldBy(s: State, holder: string) {
    s.lease.Some? && s.lease.value.holder == Some(holder) && s.lease.value.renewTime.Some?
  }

  predicate Acts(a: Action, i: string) {
    (a.Attempt? || a.Stop?) && a.elector == i
  }

  lemma {:induction false} Recovering(c: Electors, states: seq<State>, actions: seq<Action>, holder: string, n: nat)
    requires IsRun(c, states, actions) && HeldBy(states[0], holder) && n <= |actions|
    requires forall k :: 0 <= k < |states| && HeldBy(states[k], holder) ==>
               !Expired(states[k].lease.value, states[k].now)
    ensures HeldBy(states[n], holder)
    ensures forall i :: i in states[n].held && i != holder ==>
              i in states[0].held && forall k :: 0 <= k < n ==> !Acts(actions[k], i)
  {
    if n == 0 {
    } else {
      Recovering(c, states, actions, holder, n - 1);
      assert Enabled(c, states[n - 1], actions[n - 1]);
    }
  }
}
