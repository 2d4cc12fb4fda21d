/** How long a lease lasts, and what an attempt makes of it: in nanoseconds of the configured duration, not in the
    terms of the code. */
module LeaseTerms {
  import opened Api
  import opened LeaderElection
  import opened LeaseSafety

  /** The multiple of a second next to a duration, on the side of zero. */
  function Truncated(duration: int): int {
    if 0 <= duration then duration - duration % 1_000_000_000 else duration + (-duration) % 1_000_000_000
  }

  lemma SecondsStored(duration: int)
    ensures WholeSeconds(duration) * 1_000_000_000 == Truncated(duration)
  {
    Divided(if 0 <= duration then duration else -duration);
  }

  lemma Divided(n: nat)
    ensures n / 1_000_000_000 * 1_000_000_000 == n - n % 1_000_000_000
  {
  }

  /** There is no lease, or it is the elector's own, or nobody's, or its recorded time is over. */
  predicate Claimable(lease: Option<Lease>, i: string, now: int) {
    || lease.None? || lease.value.holder == Some(i) || lease.value.holder.None? || lease.value.renewTime.None?
    || (lease.value.seconds.Some?
        && lease.value.renewTime.value + lease.value.seconds.value * 1_000_000_000 <= now)
  }

  /** An attempt without faults succeeds if and only if there is no lease, or it is the elector's own, or nobody's, or
      its recorded time is over. A new claim lasts for the configured duration cut to whole seconds; a renewal keeps the
      recorded duration and the time of acquisition; a failed attempt changes nothing. */
  lemma AttemptTells(c: Electors, s: State, i: string)
    requires i in c
    ensures var t := Apply(c, s, Attempt(i, NoFault)); var own := s.lease.Some? && s.lease.value.holder == Some(i);
            && (i in t.held <==> Claimable(s.lease, i, s.now))
            && (i !in t.held ==> t.lease == s.lease)
            && (i in t.held ==>
                 t.lease.Some? && t.lease.value.holder == Some(i) && t.lease.value.renewTime == Some(s.now))
            && (i in t.held && own ==>
                 t.lease.value.seconds == s.lease.value.seconds
                 && t.lease.value.acquireTime == s.lease.value.acquireTime)
            && (i in t.held && !own ==> t.lease.value.seconds.Some? && t.lease.value.acquireTime == Some(s.now))
            && (i in t.held && !own ==>
                 forall time :: Expired(t.lease.value, time) <==> s.now + Truncated(c[i]) <= time)
  {
    SecondsStored(c[i]);
  }

  /** An undisturbed attempt ends accordingly; a lease of somebody else with a renew time but no duration crashes it. */
  lemma OutcomeTells(c: Electors, s: State, i: string)
    requires i in c
    ensures var outcome := OutcomeOf(Decide(s.lease, i, c[i], s.now));
            && (outcome.Acquired? <==> i in Apply(c, s, Attempt(i, NoFault)).held)
            && (outcome.Crashed? <==>
                 s.lease.Some? && s.lease.value.holder.Some? && s.lease.value.holder.value != i
                 && s.lease.value.renewTime.Some? && s.lease.value.seconds.None?)
  {
  }

  /** The holder of a new claim falls silent: until its configured duration, cut to whole seconds, has passed nobody
      gets or changes the lease, and the next attempt of another elector without faults gets it if and only if it is
      over. */
  lemma SilentHolderLosesInTime(c: Electors, states: seq<State>, actions: seq<Action>, i: string, n: nat)
    requires IsRun(c, states, actions) && 0 < n < |actions| && i in c && actions[0] == Attempt(i, NoFault)
    requires states[0].lease.Some? ==> states[0].lease.value.holder != Some(i)
    requires i in states[1].held
    requires forall k :: 0 < k < n && actions[k].Attempt? ==>
               actions[k].elector != i && states[k].now < states[0].now + Truncated(c[i])
    requires actions[n].Attempt? && actions[n].elector != i && actions[n].fault.NoFault?
    ensures states[n].lease == states[1].lease && states[n].lease.value.holder == Some(i)
    ensures actions[n].elector in states[n + 1].held <==> states[0].now + Truncated(c[i]) <= states[n].now
  {
    AttemptTells(c, states[0], i);
    assert states[1] == Apply(c, states[0], Attempt(i, NoFault));
    var rest, resting := states[1..], actions[1..];
    assert forall k :: 0 <= k < |rest| ==> rest[k] == states[k + 1];
    assert forall k :: 0 <= k < |resting| ==> resting[k] == actions[k + 1];
    GoodLeaseStays(c, rest, resting, i, n - 1);
    Failover(c, rest, resting, i, n - 1);
  }
}
