/** What the store promises (internal/storage/memory.go), as operations on values: a map, the log of
    its changes, and the file it is dumped to. */
module StoreModel {
  import opened Api

  datatype EventType = Added | Modified | Deleted

  /** What a watcher is sent; the key is not part of it. */
  datatype Event<V> = Event(kind: EventType, obj: V)

  datatype Mutation<V> = Mutation(kind: EventType, key: string, obj: V)

  /** How a dump of the map to the file ends: written, written although an error is reported, not begun, or cut short.
      */
  datatype Write = Done | Unreported | Failed | CutShort

  datatype Op<V> =
    | Create(key: string, obj: V, write: Write)
    | Update(key: string, obj: V, write: Write)
    | Delete(key: string, write: Write)

  datatype Reply = Ok | ErrConflict | ErrNotFound | ErrWrite

  /** What the file holds: nothing yet, a whole map, or the beginning of one. */
  datatype Disk<V> = Absent | Whole(content: map<string, V>) | Torn

  /** The map in memory, the file, and the changes so far. */
  datatype Store<V> = Store(data: map<string, V>, file: Disk<V>, log: seq<Mutation<V>>)

  predicate Accepts<V>(data: map<string, V>, op: Op<V>) {
    op.Create? <==> op.key !in data
  }

  /** The change an accepted operation makes; a deletion reports the object deleted. */
  function MutationOf<V>(data: map<string, V>, op: Op<V>): Mutation<V>
    requires Accepts(data, op)
  {
    match op
    case Create(key, obj, _) => Mutation(Added, key, obj)
    case Update(key, obj, _) => Mutation(Modified, key, obj)
    case Delete(key, _) => Mutation(Deleted, key, data[key])
  }

  function Change<V>(data: map<string, V>, m: Mutation<V>): map<string, V> {
    if m.kind.Deleted? then data - {m.key} else data[m.key := m.obj]
  }

  function Dumped<V>(file: Disk<V>, data: map<string, V>, write: Write): Disk<V> {
    match write
    case Done => Whole(data)
    case Unreported => Whole(data)
    case Failed => file
    case CutShort => Torn
  }

  /** A refused operation does nothing. An accepted one changes the map and the log, then dumps the map;
      when the dump fails the operation has taken place, and an error is returned all the same. */
  function Apply<V>(persistent: bool, s: Store<V>, op: Op<V>): Store<V> {
    if !Accepts(s.data, op) then s
    else
      var m := MutationOf(s.data, op);
      var data := Change(s.data, m);
      Store(data, if persistent then Dumped(s.file, data, op.write) else s.file, s.log + [m])
  }

  function Answer<V>(persistent: bool, s: Store<V>, op: Op<V>): Reply {
    if !Accepts(s.data, op) then if op.Create? then ErrConflict else ErrNotFound
    else if persistent && !op.write.Done? then ErrWrite else Ok
  }

  function Run<V>(persistent: bool, s: Store<V>, ops: seq<Op<V>>): Store<V> {
    if ops == [] then s else Apply(persistent, Run(persistent, s, ops[..|ops| - 1]), ops[|ops| - 1])
  }

  /** What a new store reads back from a file; one that does not parse leaves it empty. */
  function Load<V>(file: Disk<V>): map<string, V> {
    if file.Whole? then file.content else map[]
  }

  function Replay<V>(data: map<string, V>, log: seq<Mutation<V>>): map<string, V> {
    if log == [] then data else Change(Replay(data, log[..|log| - 1]), log[|log| - 1])
  }

  function Filter<V>(log: seq<Mutation<V>>, prefix: string): seq<Mutation<V>> {
    if log == [] then []
    else
      var rest, last := Filter(log[..|log| - 1], prefix), log[|log| - 1];
      if HasPrefix(last.key, prefix) then rest + [last] else rest
  }

  function Events<V>(log: seq<Mutation<V>>): (events: seq<Event<V>>)
    ensures |events| == |log|
  {
    seq(|log|, i requires 0 <= i < |log| => Event(log[i].kind, log[i].obj))
  }

  function Restrict<V>(data: map<string, V>, prefix: string): map<string, V> {
    map key | key in data && HasPrefix(key, prefix) :: data[key]
  }

  /** What the last change of a key has left of it. */
  function Latest<V>(data: map<string, V>, log: seq<Mutation<V>>, key: string): Option<V> {
    if log == [] then if key in data then Some(data[key]) else None
    else
      var last := log[|log| - 1];
      if last.key != key then Latest(data, log[..|log| - 1], key)
      else if last.kind.Deleted? then None else Some(last.obj)
  }

  lemma {:induction false} LatestIsReplayed<V>(data: map<string, V>, log: seq<Mutation<V>>, key: string)
    ensures var after := Replay(data, log); Latest(data, log, key) == if key in after then Some(after[key]) else None
  {
    if log == [] {
    } else {
      LatestIsReplayed(data, log[..|log| - 1], key);
    }
  }

  /** `items` are the entries below a prefix, each once, in the order of `keys`. */
  ghost predicate ListsBelow<V>(data: map<string, V>, prefix: string, keys: seq<string>, items: seq<V>) {
    && |keys| == |items|
    && (forall i, j :: 0 <= i < j < |keys| ==> keys[i] != keys[j])
    && (forall i :: 0 <= i < |keys| ==> keys[i] in data && HasPrefix(keys[i], prefix) && items[i] == data[keys[i]])
    && (forall key :: key in data && HasPrefix(key, prefix) ==> key in keys)
  }

  // ----- Watching

  lemma {:induction false} ReplayConcat<V>(data: map<string, V>, a: seq<Mutation<V>>, b: seq<Mutation<V>>)
    ensures Replay(data, a + b) == Replay(Replay(data, a), b)
  {
    if b == [] {
      assert a + b == a;
    } else {
      ReplayConcat(data, a, b[..|b| - 1]);
      assert (a + b)[..|a + b| - 1] == a + b[..|b| - 1];
    }
  }

  lemma RestrictChange<V>(data: map<string, V>, m: Mutation<V>, prefix: string)
    ensures Restrict(Change(data, m), prefix)
         == if HasPrefix(m.key, prefix) then Change(Restrict(data, prefix), m) else Restrict(data, prefix)
  {
  }

  /** Replaying only the changes below a prefix, on only the entries below it, gives exactly the entries
      below it. */
  lemma {:induction false} FilteredReplay<V>(data: map<string, V>, log: seq<Mutation<V>>, prefix: string)
    ensures Restrict(Replay(data, log), prefix) == Replay(Restrict(data, prefix), Filter(log, prefix))
  {
    if log == [] {
    } else {
      var front, last := log[..|log| - 1], log[|log| - 1];
      FilteredReplay(data, front, prefix);
      var filtered := Filter(log, prefix);
      if HasPrefix(last.key, prefix) {
        assert filtered[..|filtered| - 1] == Filter(front, prefix);
      }
      RestrictChange(Replay(data, front), last, prefix);
    }
  }

  /** The log explains the map: over any operations, replaying what they logged gives what they left. */
  lemma {:induction false} LogExplainsData<V>(persistent: bool, s: Store<V>, ops: seq<Op<V>>)
    ensures var t := Run(persistent, s, ops);
            s.log <= t.log && t.data == Replay(s.data, t.log[|s.log|..])
  {
    if ops == [] {
    } else {
      var before := Run(persistent, s, ops[..|ops| - 1]);
      var op := ops[|ops| - 1];
      LogExplainsData(persistent, s, ops[..|ops| - 1]);
      if Accepts(before.data, op) {
        var m := MutationOf(before.data, op);
        var added := (before.log + [m])[|s.log|..];
        assert added[..|added| - 1] == before.log[|s.log|..];
      }
    }
  }

  // ----- What changes say of themselves

  /** Added is of a new entry and nothing else is; Deleted reports the very object that was there. */
  ghost predicate Truthful<V>(data: map<string, V>, m: Mutation<V>) {
    && (m.kind.Added? <==> m.key !in data)
    && (m.kind.Deleted? ==> m.key in data && m.obj == data[m.key])
  }

  ghost predicate AllTruthful<V>(data: map<string, V>, log: seq<Mutation<V>>) {
    log == [] ||
    var k := |log| - 1;
    AllTruthful(data, log[..k]) && Truthful(Replay(data, log[..k]), log[k])
  }

  lemma {:induction false} EachIsTruthful<V>(data: map<string, V>, log: seq<Mutation<V>>, i: nat)
    requires AllTruthful(data, log) && i < |log|
    ensures Truthful(Replay(data, log[..i]), log[i])
  {
    var k := |log| - 1;
    if i < k {
      EachIsTruthful(data, log[..k], i);
      assert log[..k][..i] == log[..i];
    }
  }

  /** Over any operations, every change says truly what it did to the map the changes before it had made. */
  lemma {:induction false} RunIsTruthful<V>(persistent: bool, s: Store<V>, ops: seq<Op<V>>)
    requires s.log == []
    ensures AllTruthful(s.data, Run(persistent, s, ops).log)
  {
    if ops == [] {
    } else {
      var k := |ops| - 1;
      var before := Run(persistent, s, ops[..k]);
      RunIsTruthful(persistent, s, ops[..k]);
      LogExplainsData(persistent, s, ops[..k]);
      assert before.log[0..] == before.log;
      if Accepts(before.data, ops[k]) {
        var m := MutationOf(before.data, ops[k]);
        assert (before.log + [m])[..|before.log|] == before.log;
      }
    }
  }

  /** Added exactly when the key is new, Modified and Deleted only of what is there. */
  lemma LoggedKinds<V>(persistent: bool, s: Store<V>, ops: seq<Op<V>>, i: nat)
    requires s.log == [] && i < |Run(persistent, s, ops).log|
    ensures var log := Run(persistent, s, ops).log;
            var before := Replay(s.data, log[..i]);
            && (log[i].kind.Added? <==> log[i].key !in before)
            && (log[i].kind.Deleted? ==> log[i].key in before && log[i].obj == before[log[i].key])
  {
    RunIsTruthful(persistent, s, ops);
    EachIsTruthful(s.data, Run(persistent, s, ops).log, i);
  }

  lemma {:induction false} LaterAreTruthful<V>(data: map<string, V>, a: seq<Mutation<V>>, b: seq<Mutation<V>>)
    requires AllTruthful(data, a + b)
    ensures AllTruthful(Replay(data, a), b)
  {
    if b == [] {
    } else {
      var k := |b| - 1;
      assert (a + b)[..|a + b| - 1] == a + b[..k];
      LaterAreTruthful(data, a, b[..k]);
      ReplayConcat(data, a, b[..k]);
    }
  }

  /** To a watcher of a prefix, which knows only the entries below it, its changes are as true. */
  lemma {:induction false} FilteredAreTruthful<V>(data: map<string, V>, log: seq<Mutation<V>>, prefix: string)
    requires AllTruthful(data, log)
    ensures AllTruthful(Restrict(data, prefix), Filter(log, prefix))
  {
    if log == [] {
    } else {
      var front, last := log[..|log| - 1], log[|log| - 1];
      FilteredAreTruthful(data, front, prefix);
      if HasPrefix(last.key, prefix) {
        var filtered := Filter(log, prefix);
        assert filtered[..|filtered| - 1] == Filter(front, prefix);
        FilteredReplay(data, front, prefix);
      }
    }
  }

  /** A creation conflicts exactly with an entry, an update or a deletion finds none exactly without one; an accepted
      operation is answered with an error if and only if a dump was due and did not end well. */
  lemma AnswerTells<V>(persistent: bool, s: Store<V>, op: Op<V>)
    ensures Answer(persistent, s, op) == ErrConflict <==> op.Create? && op.key in s.data
    ensures Answer(persistent, s, op) == ErrNotFound <==> (op.Update? || op.Delete?) && op.key !in s.data
    ensures Answer(persistent, s, op) == Ok <==> Apply(persistent, s, op) != s && (persistent ==> op.write == Done)
  {
  }

  // ----- Restarting

  /** The operation touches the file. */
  predicate Dumps<V>(persistent: bool, s: Store<V>, op: Op<V>) {
    persistent && Accepts(s.data, op) && !op.write.Failed?
  }

  /** The last of these operations that touched the file is number n, counting from one; 0 is none. */
  ghost predicate LastDump<V>(s: Store<V>, ops: seq<Op<V>>, n: nat) {
    && n <= |ops|
    && (n > 0 ==> Dumps(true, Run(true, s, ops[..n - 1]), ops[n - 1]))
    && forall k :: n <= k < |ops| ==> !Dumps(true, Run(true, s, ops[..k]), ops[k])
  }

  lemma LastDumpStays<V>(s: Store<V>, ops: seq<Op<V>>, n: nat)
    requires ops != []
    requires var k := |ops| - 1; LastDump(s, ops[..k], n) && !Dumps(true, Run(true, s, ops[..k]), ops[k])
    ensures LastDump(s, ops, n)
  {
    var k := |ops| - 1;
    assert n > 0 ==> ops[..k][..n - 1] == ops[..n - 1];
    forall j | n <= j < |ops| ensures !Dumps(true, Run(true, s, ops[..j]), ops[j]) {
      if j < k {
        assert ops[..k][..j] == ops[..j] && ops[..k][j] == ops[j];
      }
    }
  }

  /** However dumps end, the file holds the whole map as of the last one that touched it, or, if that was cut short,
      nothing that a restart could read: never a mixture. */
  lemma {:induction false} FileIsLastDump<V>(s: Store<V>, ops: seq<Op<V>>) returns (n: nat)
    ensures LastDump(s, ops, n)
    ensures Run(true, s, ops).file ==
            if n == 0 then s.file else if ops[n - 1].write.CutShort? then Torn else Whole(Run(true, s, ops[..n]).data)
  {
    if ops == [] {
      n := 0;
    } else {
      var k := |ops| - 1;
      if Dumps(true, Run(true, s, ops[..k]), ops[k]) {
        n := |ops|;
        assert ops[..n] == ops;
      } else {
        n := FileIsLastDump(s, ops[..k]);
        LastDumpStays(s, ops, n);
        assert ops[..k][..n] == ops[..n];
      }
    }
  }

  /** The last accepted operation, if any, has dumped the whole map. */
  predicate LastChangeDumped<V>(s: Store<V>, ops: seq<Op<V>>) {
    ops == [] ||
    var k := |ops| - 1;
    if Accepts(Run(true, s, ops[..k]).data, ops[k]) then ops[k].write.Done? || ops[k].write.Unreported?
    else LastChangeDumped(s, ops[..k])
  }

  /** Then a restart reproduces exactly the map in memory, whatever became of the dumps before. */
  lemma {:induction false} RestartReproduces<V>(s: Store<V>, ops: seq<Op<V>>)
    requires Load(s.file) == s.data && LastChangeDumped(s, ops)
    ensures Load(Run(true, s, ops).file) == Run(true, s, ops).data
  {
    if ops == [] {
    } else {
      var k := |ops| - 1;
      if !Accepts(Run(true, s, ops[..k]).data, ops[k]) {
        RestartReproduces(s, ops[..k]);
      }
    }
  }
}
