/** Leader election (internal/leaderelection/election.go): the lease, one attempt to acquire or
    renew it, and the loop around the attempts. Times are nanoseconds. */
module LeaderElection {
  import opened Api
  import opened Registry

  const SECOND: int := 1_000_000_000

  datatype Lease = Lease(holder: Option<string>, seconds: Option<int>, acquireTime: Option<int>, renewTime: Option<int>)

  /** A duration in whole seconds, truncated toward zero. */
  function WholeSeconds(duration: int): int {
    if duration < 0 then -(-duration / SECOND) else duration / SECOND
  }

  predicate Expired(lease: Lease, now: int) {
    lease.renewTime.Some? && lease.seconds.Some? && lease.renewTime.value + lease.seconds.value * SECOND <= now
  }

  datatype Decision =
    | Make(lease: Lease)     // POST a new lease
    | Take(lease: Lease)     // PUT: renew or take over
    | HeldByOther
    | Crash                  // the missing lease duration is dereferenced

  function Fresh(identity: string, duration: int, now: int): Lease {
    Lease(Some(identity), Some(WholeSeconds(duration)), Some(now), Some(now))
  }

  /** What an attempt does about the lease it found. */
  function Decide(found: Option<Lease>, identity: string, duration: int, now: int): Decision {
    match found
    case None => Make(Fresh(identity, duration, now))
    case Some(lease) =>
      if lease.holder == Some(identity) then Take(lease.(renewTime := Some(now)))
      else if lease.holder.Some? && lease.renewTime.Some? then
        if lease.seconds.None? then Crash
        else if now < lease.renewTime.value + lease.seconds.value * SECOND then HeldByOther
        else Take(Fresh(identity, duration, now))
      else Take(Fresh(identity, duration, now))
  }

  datatype Outcome = Acquired | Failed | Crashed

  datatype Callback = Started | Stopped

  /** The callback an attempt gives rise to, if any. */
  function Reported(leading: bool, outcome: Outcome): seq<Callback> {
    if outcome.Crashed? || leading == outcome.Acquired? then [] else [if outcome.Acquired? then Started else Stopped]
  }

  /** The callbacks a sequence of attempts gives rise to: the elector leads from a successful attempt to
      the next failed one. */
  function Callbacks(outcomes: seq<Outcome>): seq<Callback> {
    if outcomes == [] then []
    else
      var front, last := outcomes[..|outcomes| - 1], outcomes[|outcomes| - 1];
      Callbacks(front) + Reported(Leads(front), last)
  }

  /** The elector leads exactly when its last attempt succeeded. */
  predicate Leads(outcomes: seq<Outcome>) {
    outcomes != [] && outcomes[|outcomes| - 1].Acquired?
  }

  function OutcomeOf(decision: Decision): Outcome {
    if decision.Crash? then Crashed else if decision.HeldByOther? then Failed else Acquired
  }

  /** The lease after undisturbed, fault-free attempts of one elector at these times. */
  function LeaseAfter(found: Option<Lease>, identity: string, duration: int, times: seq<int>): Option<Lease> {
    if times == [] then found
    else
      var before := LeaseAfter(found, identity, duration, times[..|times| - 1]);
      var decision := Decide(before, identity, duration, times[|times| - 1]);
      if decision.Make? || decision.Take? then Some(decision.lease) else before
  }

  /** The request a decision leads to. */
  function RequestOf(lockName: string, decision: Decision): seq<Request<Lease>> {
    match decision
    case Make(lease) => [Create(lockName, lease)]
    case Take(lease) => [Update(lockName, lease)]
    case _ => []
  }

  /** What the elector can see of the server, and what it has sent. */
  datatype Moment = Moment(objects: map<string, Lease>, history: seq<Exchange<Lease>>)

  /** One attempt: when it was made, between which moments, what it sent, and how it ended. */
  datatype Record = Record(now: int, before: Moment, after: Moment, sent: seq<Request<Lease>>, outcome: Outcome)

  function FoundIn(objects: map<string, Lease>, lockName: string): Option<Lease> {
    if lockName in objects then Some(objects[lockName]) else None
  }

  /** An attempt sends the request its decision calls for, or, if it could not read the lease, none;
      it succeeds only if the server now has the lease decided on. */
  ghost predicate Attempted(reliable: bool, lockName: string, identity: string, duration: int, a: Record) {
    var decision := Decide(FoundIn(a.before.objects, lockName), identity, duration, a.now);
    && Issued(reliable, a.before.objects, a.before.history, a.after.objects, a.after.history, a.sent)
    && (a.sent == RequestOf(lockName, decision) || (!reliable && a.outcome.Failed? && a.sent == []))
    && (a.outcome.Acquired? ==>
         (decision.Make? || decision.Take?) && a.after.objects == a.before.objects[lockName := decision.lease])
    && (a.outcome.Crashed? ==> decision.Crash?)
    && (reliable ==> a.outcome == OutcomeOf(decision))
    && (!a.outcome.Acquired? && reliable ==> a.after.objects == a.before.objects)
  }

  /** What an elector has done up to a moment: attempts, each from where the former one ended. */
  datatype Trace =
    | Idle(at: Moment)
    | Then(prior: Trace, now: int, sent: seq<Request<Lease>>, outcome: Outcome, at: Moment)
  {
    function Start(): Moment {
      if Idle? then at else prior.Start()
    }

    function Length(): nat {
      if Idle? then 0 else prior.Length() + 1
    }

    predicate Crashed() {
      Then? && outcome.Crashed?
    }

    predicate Leading() {
      Then? && outcome.Acquired?
    }

    /** The callbacks up to the last attempt. */
    function Told(): seq<Callback> {
      if Idle? then [] else prior.Told() + Reported(prior.Leading(), outcome)
    }

    function Outcomes(): seq<Outcome> {
      if Idle? then [] else prior.Outcomes() + [outcome]
    }

    function Sent(): seq<Request<Lease>> {
      if Idle? then [] else prior.Sent() + sent
    }

    /** The last attempt. */
    function Last(): Record
      requires Then?
    {
      Record(now, prior.at, at, sent, outcome)
    }

    /** Its attempts are those of this elector at the first wake-ups, and only the last one can have crashed. */
    ghost predicate Of(reliable: bool, lockName: string, identity: string, duration: int, wakeups: seq<int>) {
      Then? ==>
        && prior.Length() < |wakeups| && now == wakeups[prior.Length()] && !prior.Crashed()
        && Attempted(reliable, lockName, identity, duration, Last())
        && prior.Of(reliable, lockName, identity, duration, wakeups)
    }
  }

  /** The requests of a run are those of its attempts, one after the other. */
  lemma {:induction false} TraceIssued(reliable: bool, lockName: string, identity: string, duration: int,
                                       wakeups: seq<int>, trace: Trace)
    requires trace.Of(reliable, lockName, identity, duration, wakeups)
    ensures var start, end := trace.Start(), trace.at;
            Issued(reliable, start.objects, start.history, end.objects, end.history, trace.Sent())
  {
    match trace {
      case Idle(at) => IssuedNothing(reliable, at.objects, at.history);
      case Then(prior, _, sent, _, at) =>
        TraceIssued(reliable, lockName, identity, duration, wakeups, prior);
        IssuedThen(reliable, trace.Start().objects, trace.Start().history, prior.at.objects, prior.at.history,
                   at.objects, at.history, prior.Sent(), sent);
    }
  }

  /** Every outcome is that of the lease the former attempts have left. */
  ghost predicate Undisturbed(identity: string, duration: int, start: Option<Lease>, wakeups: seq<int>,
                              outcomes: seq<Outcome>, now: Option<Lease>)
  {
    && |outcomes| <= |wakeups| && now == LeaseAfter(start, identity, duration, wakeups[..|outcomes|])
    && forall k :: 0 <= k < |outcomes| ==>
         var found := LeaseAfter(start, identity, duration, wakeups[..k]);
         outcomes[k] == OutcomeOf(Decide(found, identity, duration, wakeups[k]))
  }

  lemma UndisturbedNext(identity: string, duration: int, start: Option<Lease>, wakeups: seq<int>,
                        outcomes: seq<Outcome>,
                        found: Option<Lease>, outcome: Outcome, now: Option<Lease>)
    requires |outcomes| < |wakeups| && Undisturbed(identity, duration, start, wakeups, outcomes, found)
    requires var decision := Decide(found, identity, duration, wakeups[|outcomes|]);
             && outcome == OutcomeOf(decision)
             && now == if decision.Make? || decision.Take? then Some(decision.lease) else found
    ensures Undisturbed(identity, duration, start, wakeups, outcomes + [outcome], now)
  {
    assert wakeups[..|outcomes| + 1][..|outcomes|] == wakeups[..|outcomes|];
  }

  lemma ReliableAttempt(lockName: string, identity: string, duration: int, a: Record)
    requires Attempted(true, lockName, identity, duration, a)
    ensures var decision := Decide(FoundIn(a.before.objects, lockName), identity, duration, a.now);
            && a.outcome == OutcomeOf(decision)
            && FoundIn(a.after.objects, lockName)
               == if decision.Make? || decision.Take? then Some(decision.lease) else FoundIn(a.before.objects, lockName)
  {
  }

  /** Over a connection without faults a run is that of an elector that nobody disturbs. */
  lemma {:induction false} ReliableIsUndisturbed(lockName: string, identity: string, duration: int, wakeups: seq<int>,
                                                 trace: Trace)
    requires trace.Of(true, lockName, identity, duration, wakeups)
    ensures Undisturbed(identity, duration, FoundIn(trace.Start().objects, lockName), wakeups, trace.Outcomes(),
                        FoundIn(trace.at.objects, lockName))
  {
    match trace {
      case Idle(_) => assert wakeups[..0] == [];
      case Then(prior, _, _, outcome, at) =>
        ReliableIsUndisturbed(lockName, identity, duration, wakeups, prior);
        ToldOfOutcomes(prior);
        ReliableAttempt(lockName, identity, duration, trace.Last());
        UndisturbedNext(identity, duration, FoundIn(trace.Start().objects, lockName), wakeups, prior.Outcomes(),
                        FoundIn(prior.at.objects, lockName), outcome, FoundIn(at.objects, lockName));
    }
  }

  class LeaderElector {
    const lockName: string
    const identity: string
    const leaseDuration: int
    const leaseClient: Client<Lease>
    var callbacks: seq<Callback>

    constructor (lockName: string, identity: string, leaseDuration: int, leaseClient: Client<Lease>)
      ensures this.lockName == lockName && this.identity == identity && this.leaseDuration == leaseDuration
      ensures this.leaseClient == leaseClient && callbacks == []
    {
      this.lockName, this.identity, this.leaseDuration := lockName, identity, leaseDuration;
      this.leaseClient := leaseClient;
      callbacks := [];
    }

    ghost function Now(): Moment
      reads leaseClient
    {
      Moment(leaseClient.objects, leaseClient.history)
    }

    /** The request, if any, follows from the lease found; success means the server has it. */
    method TryAcquireOrRenew(now: int) returns (outcome: Outcome, ghost sent: seq<Request<Lease>>)
      modifies leaseClient
      ensures Attempted(leaseClient.reliable, lockName, identity, leaseDuration,
                        Record(now, old(Now()), Now(), sent, outcome))
    {
      IssuedNothing(leaseClient.reliable, leaseClient.objects, leaseClient.history);
      sent := [];
      var ok, found := leaseClient.Get(lockName);
      if !ok {
        return Failed, [];
      }
      if found.None? {
        var lease := Lease(Some(identity), Some(WholeSeconds(leaseDuration)), Some(now), Some(now));
        ok := leaseClient.Send(Create(lockName, lease));
        return if ok then Acquired else Failed, [Create(lockName, lease)];
      }
      var lease := found.value;
      if lease.holder.Some? {
        if lease.holder.value == identity {
          lease := lease.(renewTime := Some(now));
          ok := leaseClient.Send(Update(lockName, lease));
          return if ok then Acquired else Failed, [Update(lockName, lease)];
        }
        if lease.renewTime.Some? {
          if lease.seconds.None? {
            return Crashed, [];
          }
          var expireTime := lease.renewTime.value + lease.seconds.value * SECOND;
          if now < expireTime {
            return Failed, [];
          }
        }
      }
      lease := lease.(holder := Some(identity));
      lease := lease.(acquireTime := Some(now));
      lease := lease.(renewTime := Some(now));
      lease := lease.(seconds := Some(WholeSeconds(leaseDuration)));
      ok := leaseClient.Send(Update(lockName, lease));
      return if ok then Acquired else Failed, [Update(lockName, lease)];
    }

    /** What this elector has done at some wake-ups. */
    ghost predicate Made(wakeups: seq<int>, trace: Trace) {
      trace.Of(leaseClient.reliable, lockName, identity, leaseDuration, wakeups)
    }

    /** One more attempt. */
    method NextAttempt(wakeups: seq<int>, i: nat, ghost trace: Trace) returns (outcome: Outcome, ghost trace': Trace)
      requires i < |wakeups| && trace.Length() == i && Made(wakeups, trace) && trace.at == Now() && !trace.Crashed()
      modifies leaseClient
      ensures Made(wakeups, trace') && trace'.Then? && trace' == Then(trace, wakeups[i], trace'.sent, outcome, Now())
    {
      ghost var sent: seq<Request<Lease>>;
      outcome, sent := TryAcquireOrRenew(wakeups[i]);
      trace' := Then(trace, wakeups[i], sent, outcome, Now());
    }

    /** The attempts made at `wakeups`, until one crashes the process or the context ends: each sends what the lease it
        found calls for, and the callbacks report exactly when the elector starts and stops leading, and that it stops
        when the run ends. */
    method Run(wakeups: seq<int>) returns (ghost trace: Trace)
      modifies leaseClient, this`callbacks
      ensures Made(wakeups, trace) && trace.at == Now() && trace.Start() == old(Now())
      ensures trace.Length() < |wakeups| ==> trace.Crashed()
      ensures callbacks == old(callbacks) + Callbacks(trace.Outcomes()) + if trace.Leading() then [Stopped] else []
      ensures Issued(leaseClient.reliable, old(leaseClient.objects), old(leaseClient.history),
                     leaseClient.objects, leaseClient.history, trace.Sent())
      ensures leaseClient.reliable ==>
                Undisturbed(identity, leaseDuration, FoundIn(old(leaseClient.objects), lockName), wakeups,
                            trace.Outcomes(),
                            FoundIn(leaseClient.objects, lockName))
    {
      trace := Contend(wakeups);
      ToldOfOutcomes(trace);
      TraceIssued(leaseClient.reliable, lockName, identity, leaseDuration, wakeups, trace);
      if leaseClient.reliable {
        ReliableIsUndisturbed(lockName, identity, leaseDuration, wakeups, trace);
      }
    }

    /** The loop of a run. */
    method Contend(wakeups: seq<int>) returns (ghost trace: Trace)
      modifies leaseClient, this`callbacks
      ensures Made(wakeups, trace) && trace.at == Now() && trace.Start() == old(Now())
      ensures trace.Length() < |wakeups| ==> trace.Crashed()
      ensures callbacks == old(callbacks) + trace.Told() + if trace.Leading() then [Stopped] else []
    {
      ghost var start, before := Now(), callbacks;
      trace := Idle(start);
      var i := 0;
      while i < |wakeups|
        invariant trace.Length() == i <= |wakeups| && Made(wakeups, trace) && trace.at == Now()
        invariant trace.Start() == start
        invariant !trace.Leading() && !trace.Crashed()
        invariant callbacks == before + trace.Told()
      {
        var outcome: Outcome;
        outcome, trace := NextAttempt(wakeups, i, trace);
        i := i + 1;
        if outcome.Crashed? {
          return;
        }
        if outcome.Acquired? {
          i, outcome, trace := Term(wakeups, i, trace, before);
          if !outcome.Failed? {
            return;
          }
        }
      }
    }

    /** One term of leadership, from the start to the stop that is called back unless the process crashes. */
    method Term(wakeups: seq<int>, first: nat, ghost made: Trace, ghost before: seq<Callback>)
      returns (next: nat, last: Outcome, ghost trace: Trace)
      requires made.Length() == first <= |wakeups| && Made(wakeups, made) && made.at == Now() && made.Leading()
      requires callbacks + [Started] == before + made.Told()
      modifies leaseClient, this`callbacks
      ensures first <= next == trace.Length() <= |wakeups| && Made(wakeups, trace) && trace.at == Now()
      ensures trace.Start() == made.Start()
      ensures trace.Then? && last == trace.outcome && (last.Acquired? ==> next == |wakeups|)
      ensures callbacks == before + trace.Told() + if last.Acquired? then [Stopped] else []
    {
      ghost var told, due := callbacks, made.Told();
      callbacks := callbacks + [Started];
      next, last, trace := RenewLoop(wakeups, first, made);
      TermTold(before, told, due, trace.Told(), last);
      if !last.Crashed? {
        callbacks := callbacks + [Stopped];
      }
    }

    /** Renews until an attempt fails or the context ends; it calls nobody back. */
    method RenewLoop(wakeups: seq<int>, first: nat, ghost made: Trace)
      returns (next: nat, last: Outcome, ghost trace: Trace)
      requires made.Length() == first <= |wakeups| && Made(wakeups, made) && made.at == Now() && made.Leading()
      modifies leaseClient
      ensures first <= next == trace.Length() <= |wakeups| && Made(wakeups, trace) && trace.at == Now()
      ensures trace.Start() == made.Start()
      ensures trace.Then? && last == trace.outcome && (last.Acquired? ==> next == |wakeups|)
      ensures trace.Told() == made.Told() + if last.Failed? then [Stopped] else []
    {
      next, last, trace := first, Acquired, made;
      while next < |wakeups|
        invariant trace.Length() == next <= |wakeups| && Made(wakeups, trace) && trace.at == Now()
        invariant trace.Start() == made.Start()
        invariant trace.Then? && trace.outcome == last && last.Acquired? && trace.Leading()
        invariant trace.Told() == made.Told()
        invariant first <= next
      {
        last, trace := NextAttempt(wakeups, next, trace);
        next := next + 1;
        if !last.Acquired? {
          return;
        }
      }
    }
  }

  /** The stop called back at the end of a term is due already, unless the term ends with the context. */
  lemma TermTold(before: seq<Callback>, told: seq<Callback>, due: seq<Callback>, due': seq<Callback>, last: Outcome)
    requires told + [Started] == before + due && due' == due + if last.Failed? then [Stopped] else []
    ensures last.Crashed? ==> told + [Started] == before + due'
    ensures !last.Crashed? ==> told + [Started] + [Stopped] == before + due' + if last.Acquired? then [Stopped] else []
  {
  }

  lemma CallbacksNext(outcomes: seq<Outcome>, outcome: Outcome)
    ensures Leads(outcomes + [outcome]) == outcome.Acquired?
    ensures Callbacks(outcomes + [outcome]) == Callbacks(outcomes) + Reported(Leads(outcomes), outcome)
  {
    assert (outcomes + [outcome])[..|outcomes|] == outcomes;
  }

  /** A trace tells of its outcomes. */
  lemma {:induction false} ToldOfOutcomes(trace: Trace)
    ensures trace.Told() == Callbacks(trace.Outcomes()) && trace.Leading() == Leads(trace.Outcomes())
    ensures |trace.Outcomes()| == trace.Length()
  {
    match trace {
      case Idle(_) =>
      case Then(prior, _, _, outcome, _) =>
        ToldOfOutcomes(prior);
        CallbacksNext(prior.Outcomes(), outcome);
    }
  }

  /** Starts and stops alternate, beginning with a start, and the last one tells who leads. */
  lemma {:induction false} CallbacksAlternate(outcomes: seq<Outcome>)
    requires forall i :: 0 <= i < |outcomes| ==> !outcomes[i].Crashed?
    ensures forall i :: 0 <= i < |Callbacks(outcomes)| ==>
              Callbacks(outcomes)[i] == if i % 2 == 0 then Started else Stopped
    ensures Leads(outcomes) <==> |Callbacks(outcomes)| % 2 == 1
  {
    if outcomes == [] {
    } else {
      CallbacksAlternate(outcomes[..|outcomes| - 1]);
    }
  }
}
