/** One resource of the API server as its clients see it: objects by name, served by
    single-object requests, with no version check of any kind. */
module Registry {
  import opened Api

  datatype Request<T> =
    | Create(name: string, obj: T)
    | Update(name: string, obj: T)
    | Delete(name: string)

  /** A request and whether it reached the server. */
  datatype Exchange<T> = Exchange(request: Request<T>, served: bool)

  /** The status the server answers with: 409 for a name in use, 404 for a missing one. */
  predicate Accepted<T>(objects: map<string, T>, request: Request<T>) {
    request.Create? <==> request.name !in objects
  }

  function Serve<T>(objects: map<string, T>, request: Request<T>): map<string, T> {
    if !Accepted(objects, request) then objects
    else match request {
      case Create(name, obj) => objects[name := obj]
      case Update(name, obj) => objects[name := obj]
      case Delete(name) => objects - {name}
    }
  }

  /** The objects after a sequence of exchanges; a request that is lost changes nothing. */
  function ServeAll<T>(objects: map<string, T>, log: seq<Exchange<T>>): map<string, T> {
    if log == [] then objects
    else
      var before := ServeAll(objects, log[..|log| - 1]);
      var last := log[|log| - 1];
      if last.served then Serve(before, last.request) else before
  }

  function Requests<T>(log: seq<Exchange<T>>): (requests: seq<Request<T>>)
    ensures |requests| == |log|
  {
    seq(|log|, i requires 0 <= i < |log| => log[i].request)
  }

  predicate AllServed<T>(log: seq<Exchange<T>>) {
    forall i :: 0 <= i < |log| ==> log[i].served
  }

  lemma {:induction false} ServeAllConcat<T>(objects: map<string, T>, a: seq<Exchange<T>>, b: seq<Exchange<T>>)
    ensures ServeAll(objects, a + b) == ServeAll(ServeAll(objects, a), b)
  {
    if b == [] {
      assert a + b == a;
    } else {
      ServeAllConcat(objects, a, b[..|b| - 1]);
      assert (a + b)[..|a + b| - 1] == a + b[..|b| - 1];
    }
  }

  /** The objects after requests that all arrive. */
  function ServeRequests<T>(objects: map<string, T>, requests: seq<Request<T>>): map<string, T> {
    if requests == [] then objects
    else Serve(ServeRequests(objects, requests[..|requests| - 1]), requests[|requests| - 1])
  }

  lemma {:induction false} AllServedRequests<T>(objects: map<string, T>, log: seq<Exchange<T>>)
    requires AllServed(log)
    ensures ServeAll(objects, log) == ServeRequests(objects, Requests(log))
  {
    if log == [] {
    } else {
      AllServedRequests(objects, log[..|log| - 1]);
      assert Requests(log)[..|log| - 1] == Requests(log[..|log| - 1]);
    }
  }

  lemma {:induction false} ServeRequestsConcat<T>(objects: map<string, T>, a: seq<Request<T>>, b: seq<Request<T>>)
    ensures ServeRequests(objects, a + b) == ServeRequests(ServeRequests(objects, a), b)
  {
    if b == [] {
      assert a + b == a;
    } else {
      ServeRequestsConcat(objects, a, b[..|b| - 1]);
      assert (a + b)[..|a + b| - 1] == a + b[..|b| - 1];
    }
  }

  /** `items` holds every object once, in some order; `keys` is that order. */
  ghost predicate Lists<T>(objects: map<string, T>, keys: seq<string>, items: seq<T>) {
    && |keys| == |items|
    && (forall i, j :: 0 <= i < j < |keys| ==> keys[i] != keys[j])
    && (forall i :: 0 <= i < |keys| ==> keys[i] in objects && objects[keys[i]] == items[i])
    && (forall key :: key in objects ==> key in keys)
  }

  /** Between two moments of a client exactly `requests` were sent, and the objects are what the
      server made of those that arrived: all of them, over a reliable connection. */
  ghost predicate Issued<T>(reliable: bool, before: map<string, T>, history: seq<Exchange<T>>,
                            after: map<string, T>, history': seq<Exchange<T>>, requests: seq<Request<T>>)
  {
    && history <= history'
    && var log := history'[|history|..];
       && Requests(log) == requests
       && after == ServeAll(before, log)
       && (reliable ==> AllServed(log))
  }

  lemma IssuedNothing<T>(reliable: bool, objects: map<string, T>, history: seq<Exchange<T>>)
    ensures Issued(reliable, objects, history, objects, history, [])
  {
  }

  lemma IssuedOne<T>(reliable: bool, before: map<string, T>, history: seq<Exchange<T>>, exchange: Exchange<T>)
    requires reliable ==> exchange.served
    ensures Issued(reliable, before, history, if exchange.served then Serve(before, exchange.request) else before,
                   history + [exchange], [exchange.request])
  {
    assert (history + [exchange])[|history|..] == [exchange];
    assert [exchange][..0] == [];
    assert Requests([exchange]) == [exchange.request];
  }

  lemma IssuedThen<T>(reliable: bool, o0: map<string, T>, h0: seq<Exchange<T>>, o1: map<string, T>,
                      h1: seq<Exchange<T>>,
                      o2: map<string, T>, h2: seq<Exchange<T>>, first: seq<Request<T>>, second: seq<Request<T>>)
    requires Issued(reliable, o0, h0, o1, h1, first) && Issued(reliable, o1, h1, o2, h2, second)
    ensures Issued(reliable, o0, h0, o2, h2, first + second)
  {
    var a, b := h1[|h0|..], h2[|h1|..];
    assert h2[|h0|..] == a + b;
    ServeAllConcat(o0, a, b);
    assert Requests(a + b) == Requests(a) + Requests(b);
  }

  /** A client of one resource. When the connection is not `reliable` any call may be lost on the
      way, or served while its reply is lost; both are errors to the caller. */
  class Client<T> {
    const reliable: bool
    var objects: map<string, T>
    var history: seq<Exchange<T>>

    constructor (objects: map<string, T>, reliable: bool)
      ensures this.objects == objects && this.reliable == reliable && history == []
    {
      this.objects := objects;
      this.reliable := reliable;
      history := [];
    }

    /** A POST, PUT or DELETE. A DELETE answered with 404 counts as done. */
    method Send(request: Request<T>) returns (ok: bool)
      modifies this
      ensures Issued(reliable, old(objects), old(history), objects, history, [request])
      ensures |history| == |old(history)| + 1
      ensures objects == old(objects) || objects == Serve(old(objects), request)
      ensures ok ==> objects == Serve(old(objects), request)
      ensures ok ==> history[|old(history)|].served && (Accepted(old(objects), request) || request.Delete?)
      ensures reliable ==> (ok <==> Accepted(old(objects), request) || request.Delete?)
    {
      var accepted := request.Create? <==> request.name !in objects;
      var lost: bool := *;
      if !reliable && lost {
        IssuedOne(reliable, objects, history, Exchange(request, false));
        history := history + [Exchange(request, false)];
        return false;
      }
      IssuedOne(reliable, objects, history, Exchange(request, true));
      if accepted {
        match request {
          case Create(name, obj) => objects := objects[name := obj];
          case Update(name, obj) => objects := objects[name := obj];
          case Delete(name) => objects := objects - {name};
        }
      }
      history := history + [Exchange(request, true)];
      var replyLost: bool := *;
      ok := (reliable || !replyLost) && (accepted || request.Delete?);
    }

    /** A GET of one object; 404 is an absent object, not an error. */
    method Get(name: string) returns (ok: bool, found: Option<T>)
      ensures reliable ==> ok
      ensures ok ==> found == if name in objects then Some(objects[name]) else None
    {
      var lost: bool := *;
      ok := reliable || !lost;
      found := if name in objects then Some(objects[name]) else None;
    }

    /** A GET of the whole resource; the store walks a Go map, so the order is arbitrary. */
    method List() returns (ok: bool, items: seq<T>, ghost keys: seq<string>)
      ensures reliable ==> ok
      ensures ok ==> Lists(objects, keys, items)
    {
      items, keys := [], [];
      var lost: bool := *;
      if !reliable && lost {
        return false, items, keys;
      }
      var rest := objects.Keys;
      while rest != {}
        invariant rest <= objects.Keys
        invariant |keys| == |items|
        invariant forall i, j :: 0 <= i < j < |keys| ==> keys[i] != keys[j]
        invariant forall i :: 0 <= i < |keys| ==> keys[i] in objects && keys[i] !in rest && objects[keys[i]] == items[i]
        invariant forall key :: key in objects ==> key in keys || key in rest
      {
        var key :| key in rest;
        items, keys, rest := items + [objects[key]], keys + [key], rest - {key};
      }
      ok := true;
    }
  }
}
