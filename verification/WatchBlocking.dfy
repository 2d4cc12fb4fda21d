/** The store's lock and its watchers' channels (internal/storage/memory.go, internal/apiserver/server.go):
    a writer notifies every watcher while it holds the lock, and a consumer that leaves needs the same
    lock to unregister. */
module WatchBlocking {
  import opened Api
  import opened MemoryStore

  /** A consumer reads events, then waits for the lock to stop its watcher, then is gone. */
  datatype Consumer = Reading | Stopping | Gone

  /** Per watcher the events queued and its consumer; and, while a writer holds the lock, the watchers it
      has still to notify. */
  datatype State = State(queued: map<nat, nat>, consumers: map<nat, Consumer>, writer: Option<seq<nat>>)

  datatype Action =
    | Begin(targets: seq<nat>)
    | Notify
    | End
    | Receive(watcher: nat)
    | Leave(watcher: nat)
    | Stop(watcher: nat)

  ghost predicate Valid(s: State) {
    && s.queued.Keys == s.consumers.Keys
    && (forall w :: w in s.queued ==> s.queued[w] <= CAPACITY)
    && (s.writer.Some? ==> Distinct(s.writer.value) && forall w :: w in s.writer.value ==>
         w in s.queued && !s.consumers[w].Gone?)
  }

  predicate Distinct(targets: seq<nat>) {
    forall i, j :: 0 <= i < j < |targets| ==> targets[i] != targets[j]
  }

  ghost predicate Enabled(s: State, a: Action) {
    match a
    case Begin(targets) =>
      s.writer.None? && Distinct(targets) && forall w :: w in targets ==> w in s.consumers && !s.consumers[w].Gone?
    case Notify =>
      s.writer.Some? && s.writer.value != [] && s.writer.value[0] in s.queued && s.queued[s.writer.value[0]] < CAPACITY
    case End => s.writer == Some([])
    case Receive(w) => w in s.consumers && s.consumers[w].Reading? && w in s.queued && s.queued[w] > 0
    case Leave(w) => w in s.consumers && s.consumers[w].Reading?
    case Stop(w) => w in s.consumers && s.consumers[w].Stopping? && s.writer.None?
  }

  ghost function Apply(s: State, a: Action): State
    requires Enabled(s, a)
  {
    match a
    case Begin(targets) => s.(writer := Some(targets))
    case Notify =>
      var w := s.writer.value[0];
      s.(queued := s.queued[w := s.queued[w] + 1], writer := Some(s.writer.value[1..]))
    case End => s.(writer := None)
    case Receive(w) => s.(queued := s.queued[w := s.queued[w] - 1])
    case Leave(w) => s.(consumers := s.consumers[w := Stopping])
    case Stop(w) => s.(consumers := s.consumers[w := Gone])
  }

  ghost predicate IsRun(states: seq<State>, actions: seq<Action>) {
    && |states| == |actions| + 1
    && forall i :: 0 <= i < |actions| ==>
      Enabled(states[i], actions[i]) && states[i + 1] == Apply(states[i], actions[i])
  }

  lemma StepKeepsValid(s: State, a: Action)
    requires Valid(s) && Enabled(s, a)
    ensures Valid(Apply(s, a))
  {
    if a.Notify? {
      assert forall w :: w in s.writer.value[1..] ==> w in s.writer.value;
    }
  }

  /** A watcher still to be notified has a full channel and a consumer that reads no more. */
  ghost predicate Stuck(s: State) {
    s.writer.Some? && exists w :: w in s.writer.value && w in s.queued && w in s.consumers
                                  && s.queued[w] == CAPACITY && s.consumers[w].Stopping?
  }

  /** Some course of events lets the writer finish. */
  ghost predicate CanFinish(s: State) {
    exists states: seq<State>, actions: seq<Action> ::
      IsRun(states, actions) && states[0] == s && states[|actions|].writer.None?
  }

  lemma StuckStays(s: State, a: Action)
    requires Stuck(s) && Enabled(s, a)
    ensures Stuck(Apply(s, a))
  {
    var w :| w in s.writer.value && w in s.queued && w in s.consumers && s.queued[w] == CAPACITY
      && s.consumers[w].Stopping?;
    var t := Apply(s, a);
    if a.Notify? {
      assert w in s.writer.value[1..];
    }
    assert w in t.writer.value && t.queued[w] == CAPACITY && t.consumers[w].Stopping?;
  }

  lemma {:induction false} StuckForever(states: seq<State>, actions: seq<Action>, n: nat)
    requires IsRun(states, actions) && Stuck(states[0]) && n < |states|
    ensures Stuck(states[n])
  {
    if n == 0 {
    } else {
      StuckForever(states, actions, n - 1);
      StuckStays(states[n - 1], actions[n - 1]);
    }
  }

  lemma {:induction false} Finish(s: State) returns (states: seq<State>, actions: seq<Action>)
    requires Valid(s) && s.writer.Some?
    requires forall w :: w in s.writer.value ==> s.queued[w] < CAPACITY || s.consumers[w].Reading?
    ensures IsRun(states, actions) && states[0] == s && states[|actions|].writer.None?
    decreases |s.writer.value|
  {
    if s.writer.value == [] {
      states, actions := [s, Apply(s, End)], [End];
    } else {
      var w := s.writer.value[0];
      if s.queued[w] < CAPACITY {
        states, actions := FinishAfter(s);
      } else {
        var t := Apply(s, Receive(w));
        var rest, resting := FinishAfter(t);
        states, actions := [s] + rest, [Receive(w)] + resting;
        assert forall i :: 0 < i < |states| ==> states[i] == rest[i - 1];
      }
    }
  }

  lemma {:induction false} FinishAfter(s: State) returns (states: seq<State>, actions: seq<Action>)
    requires Valid(s) && s.writer.Some? && s.writer.value != [] && s.queued[s.writer.value[0]] < CAPACITY
    requires forall w :: w in s.writer.value ==> s.queued[w] < CAPACITY || s.consumers[w].Reading?
    ensures IsRun(states, actions) && states[0] == s && states[|actions|].writer.None?
    decreases |s.writer.value|, 0
  {
    var t := Apply(s, Notify);
    assert forall w :: w in t.writer.value ==> w in s.writer.value && w != s.writer.value[0];
    var rest, resting := Finish(t);
    states, actions := [s] + rest, [Notify] + resting;
    assert forall i :: 0 < i < |states| ==> states[i] == rest[i - 1];
  }

  /** A write under way can still finish if and only if no watcher it has to notify has both a full channel
      and a departed consumer; otherwise the lock is never released again. */
  lemma FinishesIffNotStuck(s: State)
    requires Valid(s) && s.writer.Some?
    ensures CanFinish(s) <==> !Stuck(s)
  {
    if Stuck(s) {
      forall states: seq<State>, actions: seq<Action> | IsRun(states, actions) && states[0] == s
        ensures states[|actions|].writer.Some?
      {
        StuckForever(states, actions, |actions|);
      }
    } else {
      var states, actions := Finish(s);
    }
  }

  /** The stuck state is within reach: a write begins on a full channel, and the consumer leaves. */
  lemma FullChannelCanStick(s: State, w: nat)
    requires Valid(s) && s.writer.None? && w in s.queued && s.queued[w] == CAPACITY && s.consumers[w].Reading?
    ensures Enabled(s, Begin([w])) && Enabled(Apply(s, Begin([w])), Leave(w))
    ensures Stuck(Apply(Apply(s, Begin([w])), Leave(w)))
  {
    var t := Apply(Apply(s, Begin([w])), Leave(w));
    assert w in t.writer.value && t.queued[w] == CAPACITY && t.consumers[w].Stopping?;
  }

  /** From here the lock can be lost for good. */
  ghost predicate CanStick(s: State) {
    exists states: seq<State>, actions: seq<Action> ::
      IsRun(states, actions) && states[0] == s && Stuck(states[|actions|])
  }

  ghost predicate Registered(s: State, w: nat) {
    w in s.consumers && !s.consumers[w].Gone?
  }

  lemma JoinRuns(first: seq<State>, acting: seq<Action>, rest: seq<State>, resting: seq<Action>)
    requires IsRun(first, acting) && IsRun(rest, resting) && first[|acting|] == rest[0]
    ensures IsRun(first + rest[1..], acting + resting)
    ensures (first + rest[1..])[0] == first[0] && (first + rest[1..])[|acting + resting|] == rest[|resting|]
  {
    var states, actions := first + rest[1..], acting + resting;
    forall k | 0 <= k < |actions|
      ensures Enabled(states[k], actions[k]) && states[k + 1] == Apply(states[k], actions[k])
    {
      if k < |acting| {
        assert states[k] == first[k] && actions[k] == acting[k];
      } else {
        assert actions[k] == resting[k - |acting|];
        assert states[k] == rest[k - |acting|] && states[k + 1] == rest[k - |acting| + 1];
      }
    }
  }

  /** Writes alone fill the channel of a watcher whose consumer takes nothing. */
  lemma {:induction false} Fill(s: State, w: nat) returns (states: seq<State>, actions: seq<Action>)
    requires Valid(s) && s.writer.None? && Registered(s, w)
    ensures IsRun(states, actions) && states[0] == s
    ensures var t := states[|actions|];
            Valid(t) && t.writer.None? && t.consumers == s.consumers && t.queued[w] == CAPACITY
    decreases CAPACITY - s.queued[w]
  {
    if s.queued[w] == CAPACITY {
      states, actions := [s], [];
    } else {
      var s1 := s.(writer := Some([w]));
      var s2 := s.(queued := s.queued[w := s.queued[w] + 1], writer := Some([]));
      var s3 := s.(queued := s.queued[w := s.queued[w] + 1]);
      assert [w][1..] == [] && Distinct([w]);
      assert Apply(s, Begin([w])) == s1 && Apply(s1, Notify) == s2 && Apply(s2, End) == s3;
      var rest, resting := Fill(s3, w);
      var first, acting := [s, s1, s2, s3], [Begin([w]), Notify, End];
      JoinRuns(first, acting, rest, resting);
      states, actions := first + rest[1..], acting + resting;
    }
  }

  lemma Stick(s: State, w: nat) returns (states: seq<State>, actions: seq<Action>)
    requires Valid(s) && s.writer.None? && Registered(s, w)
    ensures IsRun(states, actions) && states[0] == s && Stuck(states[|actions|])
  {
    var first, acting := Fill(s, w);
    var t := first[|acting|];
    var rest, resting: seq<Action>;
    if t.consumers[w].Reading? {
      FullChannelCanStick(t, w);
      rest, resting := [t, Apply(t, Begin([w])), Apply(Apply(t, Begin([w])), Leave(w))], [Begin([w]), Leave(w)];
    } else {
      rest, resting := [t, Apply(t, Begin([w]))], [Begin([w])];
      assert w in rest[1].writer.value;
    }
    JoinRuns(first, acting, rest, resting);
    states, actions := first + rest[1..], acting + resting;
  }

  /** All consumers have gone, and nobody is to be notified. */
  ghost predicate Deserted(s: State) {
    (forall w :: w in s.consumers ==> s.consumers[w].Gone?) && (s.writer.Some? ==> s.writer.value == [])
  }

  lemma SomeTarget(targets: seq<nat>)
    ensures targets != [] <==> exists w :: w in targets
  {
    if targets != [] {
      assert targets[0] in targets;
    }
  }

  lemma StaysDeserted(s: State, a: Action)
    requires Deserted(s) && Enabled(s, a)
    ensures Deserted(Apply(s, a))
  {
    if a.Begin? {
      SomeTarget(a.targets);
    }
  }

  lemma {:induction false} AlwaysDeserted(states: seq<State>, actions: seq<Action>, n: nat)
    requires IsRun(states, actions) && Deserted(states[0]) && n < |states|
    ensures Deserted(states[n])
  {
    if n == 0 {
    } else {
      AlwaysDeserted(states, actions, n - 1);
      StaysDeserted(states[n - 1], actions[n - 1]);
    }
  }

  /** The lock can be lost for good if and only if anybody is watching at all. */
  lemma SticksIffWatched(s: State)
    requires Valid(s) && s.writer.None?
    ensures CanStick(s) <==> exists w :: Registered(s, w)
  {
    if w :| Registered(s, w) {
      var states, actions := Stick(s, w);
    } else {
      assert forall w :: w in s.consumers ==> s.consumers[w].Gone? || Registered(s, w);
      forall states: seq<State>, actions: seq<Action> | IsRun(states, actions) && states[0] == s
        ensures !Stuck(states[|actions|])
      {
        AlwaysDeserted(states, actions, |actions|);
      }
    }
  }
}
