/** The store itself (internal/storage/memory.go): a class over a map, its watchers and its file. */
module MemoryStore {
  import opened Api
  import opened StoreModel

  const CAPACITY: nat := 10

  /** The file a store is dumped to; it outlives the store. */
  class File<V> {
    var content: Disk<V>

    constructor ()
      ensures content == Absent
    {
      content := Absent;
    }
  }

  /** A watcher: a bounded channel and what its consumer has taken from it. */
  class Watcher<V> {
    const keyPrefix: string
    ghost const since: nat
    var queue: seq<Event<V>>
    var closed: bool
    ghost var received: seq<Event<V>>

    constructor (keyPrefix: string, ghost since: nat)
      ensures this.keyPrefix == keyPrefix && this.since == since && queue == [] && received == [] && !closed
    {
      this.keyPrefix, this.since, queue, received, closed := keyPrefix, since, [], [], false;
    }

    /** Everything sent to the watcher, taken or not. */
    ghost function Sent(): seq<Event<V>>
      reads this
    {
      received + queue
    }

    /** The consumer takes the oldest event; this needs no lock. */
    method Receive() returns (event: Event<V>)
      requires queue != []
      modifies this`queue, this`received
      ensures old(queue) == [event] + queue && received == old(received) + [event]
      ensures Sent() == old(Sent())
    {
      event := queue[0];
      queue := queue[1..];
      received := received + [event];
    }

    /** A send blocks while the channel is full: it completes once the consumer has made room. */
    method Send(event: Event<V>)
      requires |queue| <= CAPACITY
      modifies this`queue, this`received
      ensures |queue| <= CAPACITY && Sent() == old(Sent()) + [event]
    {
      while |queue| == CAPACITY
        invariant |queue| <= CAPACITY && Sent() == old(Sent())
        decreases |queue|
      {
        var taken := Receive();
      }
      queue := queue + [event];
    }
  }

  class MemoryStore<V(==)> {
    const persistent: bool
    const file: File<V>
    var data: map<string, V>
    var watchers: seq<Watcher<V>>
    ghost var log: seq<Mutation<V>>
    ghost const loaded: map<string, V>

    /** What a watcher has been sent: the changes below its prefix since it registered, in order. */
    ghost predicate Informed(w: Watcher<V>)
      reads this`log, w
    {
      && !w.closed && |w.queue| <= CAPACITY && w.since <= |log|
      && w.Sent() == Events(Filter(log[w.since..], w.keyPrefix))
    }

    ghost predicate Valid()
      reads this, watchers
    {
      && (forall i, j :: 0 <= i < j < |watchers| ==> watchers[i] != watchers[j])
      && (forall i :: 0 <= i < |watchers| ==> Informed(watchers[i]))
      && data == Replay(loaded, log) && AllTruthful(loaded, log)
    }

    ghost function Abs(): Store<V>
      reads this, file
    {
      Store(data, file.content, log)
    }

    /** A new store loads its file; if that fails it starts empty. */
    constructor (file: File<V>, persistent: bool, readable: bool)
      ensures Valid() && this.file == file && this.persistent == persistent && watchers == [] && log == []
      ensures data == if persistent && readable then Load(file.content) else map[]
    {
      this.file, this.persistent := file, persistent;
      var content: map<string, V> := map[];
      if persistent && readable && file.content.Whole? {
        content := file.content.content;
      }
      data, loaded, watchers, log := content, content, [], [];
    }

    /** Sends a change to one watcher, if the key is below its prefix. */
    method Notify(w: Watcher<V>, ghost m: Mutation<V>, kind: EventType, key: string, obj: V)
      requires m == Mutation(kind, key, obj) && Informed(w)
      modifies w
      ensures InformedOf(w, log + [m])
    {
      FilterNext(log[w.since..], m, w.keyPrefix);
      assert (log + [m])[w.since..] == log[w.since..] + [m];
      if HasPrefix(key, w.keyPrefix) {
        w.Send(Event(kind, obj));
      }
    }

    /** Sends a change to every watcher of its key, in the order they registered. */
    method NotifyWatchers(ghost m: Mutation<V>, kind: EventType, key: string, obj: V)
      requires m == Mutation(kind, key, obj)
      requires forall i, j :: 0 <= i < j < |watchers| ==> watchers[i] != watchers[j]
      requires forall i :: 0 <= i < |watchers| ==> Informed(watchers[i])
      modifies watchers
      ensures forall i :: 0 <= i < |watchers| ==> InformedOf(watchers[i], log + [m])
    {
      for i := 0 to |watchers|
        invariant forall j :: 0 <= j < i ==> InformedOf(watchers[j], log + [m])
        invariant forall j :: i <= j < |watchers| ==> Informed(watchers[j])
      {
        Notify(watchers[i], m, kind, key, obj);
      }
    }

    ghost predicate InformedOf(w: Watcher<V>, changes: seq<Mutation<V>>)
      reads w
    {
      && !w.closed && |w.queue| <= CAPACITY && w.since <= |changes|
      && w.Sent() == Events(Filter(changes[w.since..], w.keyPrefix))
    }

    /** Dumps the whole map. The file is truncated, then written: it may not open, it may be cut short, and an error may
        be reported after all was written. */
    method Sync() returns (ok: bool, ghost write: Write)
      modifies file
      ensures file.content == if persistent then Dumped(old(file.content), data, write) else old(file.content)
      ensures ok <==> write.Done?
      ensures !persistent ==> ok
    {
      ok, write := true, Done;
      if !persistent {
        return;
      }
      var begun: bool, finished: bool, settled: bool := *, *, *;
      if !begun {
        ok, write := false, Failed;
        return;
      }
      file.content := Torn;
      if !finished {
        ok, write := false, CutShort;
        return;
      }
      file.content := Whole(data);
      if !settled {
        ok, write := false, Unreported;
      }
    }

    /** Tells the watchers of a change just made to the map. */
    method Tell(kind: EventType, key: string, obj: V)
      requires forall i, j :: 0 <= i < j < |watchers| ==> watchers[i] != watchers[j]
      requires forall i :: 0 <= i < |watchers| ==> Informed(watchers[i])
      requires data == Change(Replay(loaded, log), Mutation(kind, key, obj))
      requires AllTruthful(loaded, log) && Truthful(Replay(loaded, log), Mutation(kind, key, obj))
      modifies this`log, watchers
      ensures Valid() && log == old(log) + [Mutation(kind, key, obj)]
    {
      ghost var m := Mutation(kind, key, obj);
      NotifyWatchers(m, kind, key, obj);
      Logged(m);
      log := log + [m];
      forall i | 0 <= i < |watchers| ensures Informed(watchers[i]) {
        assert InformedOf(watchers[i], log);
      }
    }

    /** What follows every change of the map: the watchers are told, then the map is dumped. */
    method Publish(kind: EventType, key: string, obj: V) returns (ok: bool, ghost write: Write)
      requires forall i, j :: 0 <= i < j < |watchers| ==> watchers[i] != watchers[j]
      requires forall i :: 0 <= i < |watchers| ==> Informed(watchers[i])
      requires data == Change(Replay(loaded, log), Mutation(kind, key, obj))
      requires AllTruthful(loaded, log) && Truthful(Replay(loaded, log), Mutation(kind, key, obj))
      modifies this`log, watchers, file
      ensures Valid() && log == old(log) + [Mutation(kind, key, obj)]
      ensures file.content == if persistent then Dumped(old(file.content), data, write) else old(file.content)
      ensures (ok <==> write.Done?) && (!persistent ==> ok)
    {
      Tell(kind, key, obj);
      ok, write := Sync();
    }

    method Create(key: string, obj: V) returns (reply: Reply, ghost write: Write)
      requires Valid()
      modifies this`data, this`log, watchers, file
      ensures Valid()
      ensures Abs() == Apply(persistent, old(Abs()), Op.Create(key, obj, write))
      ensures reply == Answer(persistent, old(Abs()), Op.Create(key, obj, write))
    {
      write := Done;
      if key in data {
        return ErrConflict, write;
      }
      data := data[key := obj];
      var ok: bool;
      ok, write := Publish(Added, key, obj);
      reply := if ok then Ok else ErrWrite;
    }

    method Update(key: string, obj: V) returns (reply: Reply, ghost write: Write)
      requires Valid()
      modifies this`data, this`log, watchers, file
      ensures Valid()
      ensures Abs() == Apply(persistent, old(Abs()), Op.Update(key, obj, write))
      ensures reply == Answer(persistent, old(Abs()), Op.Update(key, obj, write))
    {
      write := Done;
      if key !in data {
        return ErrNotFound, write;
      }
      data := data[key := obj];
      var ok: bool;
      ok, write := Publish(Modified, key, obj);
      reply := if ok then Ok else ErrWrite;
    }

    method Delete(key: string) returns (reply: Reply, ghost write: Write)
      requires Valid()
      modifies this`data, this`log, watchers, file
      ensures Valid()
      ensures Abs() == Apply(persistent, old(Abs()), Op.Delete(key, write))
      ensures reply == Answer(persistent, old(Abs()), Op.Delete(key, write))
    {
      write := Done;
      if key !in data {
        return ErrNotFound, write;
      }
      var oldObj := data[key];
      data := data - {key};
      var ok: bool;
      ok, write := Publish(Deleted, key, oldObj);
      reply := if ok then Ok else ErrWrite;
    }

    lemma Logged(m: Mutation<V>)
      requires AllTruthful(loaded, log) && Truthful(Replay(loaded, log), m)
      ensures Replay(loaded, log + [m]) == Change(Replay(loaded, log), m) && AllTruthful(loaded, log + [m])
    {
      assert (log + [m])[..|log|] == log;
    }

    /** What the last change of the key has left of it. */
    method Get(key: string) returns (found: Option<V>)
      requires Valid()
      ensures found == Latest(loaded, log, key)
    {
      LatestIsReplayed(loaded, log, key);
      found := if key in data then Some(data[key]) else None;
    }

    /** The entries below a prefix, each once, in the arbitrary order of a walk over the map. */
    method List(keyPrefix: string) returns (items: seq<V>, ghost keys: seq<string>)
      ensures |items| == |Restrict(data, keyPrefix)|
      ensures ListsBelow(data, keyPrefix, keys, items)
    {
      items, keys := [], [];
      var rest := data.Keys;
      while rest != {}
        invariant rest <= data.Keys && |keys| == |items|
        invariant forall i, j :: 0 <= i < j < |keys| ==> keys[i] != keys[j]
        invariant forall i :: 0 <= i < |keys| ==>
          keys[i] in data && keys[i] !in rest && HasPrefix(keys[i], keyPrefix) && items[i] == data[keys[i]]
        invariant forall key :: key in data && HasPrefix(key, keyPrefix) ==> key in keys || key in rest
      {
        var key :| key in rest;
        if HasPrefix(key, keyPrefix) {
          items, keys := items + [data[key]], keys + [key];
        }
        rest := rest - {key};
      }
      DistinctKeys(keys);
      assert Restrict(data, keyPrefix).Keys == (set i | 0 <= i < |keys| :: keys[i]);
    }

    /** A new watcher is sent what happens from now on. */
    method Watch(keyPrefix: string) returns (w: Watcher<V>)
      requires Valid()
      modifies this`watchers
      ensures Valid() && fresh(w) && watchers == old(watchers) + [w]
      ensures w.keyPrefix == keyPrefix && w.since == |log| && w.Sent() == []
    {
      w := new Watcher(keyPrefix, |log|);
      assert log[|log|..] == [];
      watchers := watchers + [w];
    }

    /** Removes the watcher, and only it, from the list, and closes its channel; a second stop of the same
        watcher would panic on the closed channel. */
    method Stop(w: Watcher<V>)
      requires Valid() && !w.closed
      modifies this`watchers, w`closed
      ensures Valid() && w.closed && w !in watchers && w.queue == old(w.queue)
      ensures w !in old(watchers) ==> watchers == old(watchers)
      ensures w in old(watchers) ==>
                exists i :: 0 <= i < |old(watchers)| && old(watchers)[i] == w
                  && watchers == old(watchers)[..i] + old(watchers)[i + 1..]
    {
      var i := 0;
      while i < |watchers|
        invariant 0 <= i <= |watchers| && watchers == old(watchers)
        invariant forall j :: 0 <= j < i ==> watchers[j] != w
      {
        if watchers[i] == w {
          watchers := watchers[..i] + watchers[i + 1..];
          break;
        }
        i := i + 1;
      }
      w.closed := true;
    }

    /** A consumer takes an event; nothing else changes. */
    method Consume(w: Watcher<V>) returns (event: Event<V>)
      requires Valid() && w in watchers && w.queue != []
      modifies w`queue, w`received
      ensures Valid() && w.received == old(w.received) + [event] && old(w.queue) == [event] + w.queue
    {
      event := w.Receive();
    }

    /** Lossless watch: in any valid state, replaying what a watcher has received and still has queued, on
        the entries below its prefix at the time it registered, gives the present entries below it. On the way
        every Added is of an entry new to it, and every Modified and Deleted of one it has. */
    lemma WatcherSeesAll(w: Watcher<V>)
      requires Valid() && w in watchers
      ensures var changes := Filter(log[w.since..], w.keyPrefix);
              && w.received + w.queue == Events(changes) && |w.queue| <= 10
              && Restrict(data, w.keyPrefix) == Replay(Restrict(Replay(loaded, log[..w.since]), w.keyPrefix), changes)
      ensures var changes := Filter(log[w.since..], w.keyPrefix);
              var known := Restrict(Replay(loaded, log[..w.since]), w.keyPrefix);
              forall i :: 0 <= i < |changes| ==>
                var entries := Replay(known, changes[..i]);
                && (changes[i].kind.Added? <==> changes[i].key !in entries)
                && (changes[i].kind.Deleted? ==>
                     changes[i].key in entries && changes[i].obj == entries[changes[i].key])
    {
      assert log == log[..w.since] + log[w.since..];
      ReplayConcat(loaded, log[..w.since], log[w.since..]);
      FilteredReplay(Replay(loaded, log[..w.since]), log[w.since..], w.keyPrefix);
      var changes := Filter(log[w.since..], w.keyPrefix);
      var known := Restrict(Replay(loaded, log[..w.since]), w.keyPrefix);
      LaterAreTruthful(loaded, log[..w.since], log[w.since..]);
      FilteredAreTruthful(Replay(loaded, log[..w.since]), log[w.since..], w.keyPrefix);
      forall i | 0 <= i < |changes| ensures Truthful(Replay(known, changes[..i]), changes[i]) {
        EachIsTruthful(known, changes, i);
      }
    }
  }

  lemma FilterNext<V>(log: seq<Mutation<V>>, m: Mutation<V>, prefix: string)
    ensures Filter(log + [m], prefix) == Filter(log, prefix) + if HasPrefix(m.key, prefix) then [m] else []
    ensures Events(Filter(log + [m], prefix))
         == Events(Filter(log, prefix)) + if HasPrefix(m.key, prefix) then [Event(m.kind, m.obj)] else []
  {
    assert (log + [m])[..|log|] == log;
  }

  lemma {:induction false} DistinctKeys(keys: seq<string>)
    requires forall i, j :: 0 <= i < j < |keys| ==> keys[i] != keys[j]
    ensures |(set i | 0 <= i < |keys| :: keys[i])| == |keys|
  {
    if keys == [] {
    } else {
      var k := |keys| - 1;
      DistinctKeys(keys[..k]);
      assert (set i | 0 <= i < |keys| :: keys[i]) == (set i | 0 <= i < k :: keys[..k][i]) + {keys[k]};
    }
  }
}
