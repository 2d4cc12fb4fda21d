/** How the API server lays resources out in the store (internal/apiserver/server.go). */
module KeySpace {
  import opened Api
  import opened StoreModel
  import Registry

  const RESOURCES: set<string> := {"pods", "nodes", "replicasets", "deployments", "services", "endpoints", "leases"}

  const ROOT := "/registry/"

  function Key(resource: string, name: string): string {
    ROOT + resource + "/" + name
  }

  /** The prefix a LIST or a watch of a resource asks the store for; note the missing last slash. */
  function ListPrefix(resource: string): string {
    ROOT + resource
  }

  ghost predicate ListsExactly(listed: string, resource: string) {
    forall name {:trigger Key(resource, name)} :: HasPrefix(Key(resource, name), ListPrefix(listed)) <==>
      resource == listed
  }

  lemma RootStripped(listed: string, resource: string, name: string)
    ensures HasPrefix(Key(resource, name), ListPrefix(listed)) <==> HasPrefix(resource + "/" + name, listed)
  {
    var rest := resource + "/" + name;
    assert Key(resource, name) == ROOT + rest;
    if |listed| <= |rest| {
      assert (ROOT + rest)[..|ROOT + listed|] == ROOT + rest[..|listed|];
      assert ROOT + rest[..|listed|] == ROOT + listed <==> rest[..|listed|] == listed by {
        assert (ROOT + rest[..|listed|])[|ROOT|..] == rest[..|listed|];
        assert (ROOT + listed)[|ROOT|..] == listed;
      }
    }
  }

  /** Listing a resource under its bare prefix returns none of another's entries, whatever their names, if
      and only if its name is neither a prefix of the other's nor an extension of it by a slash. */
  lemma ListExactIff(listed: string, resource: string)
    requires listed != resource
    ensures ListsExactly(listed, resource) <==> !HasPrefix(resource, listed) && !HasPrefix(listed, resource + "/")
  {
    if HasPrefix(resource, listed) {
      RootStripped(listed, resource, "");
      assert (resource + "/" + "")[..|listed|] == resource[..|listed|];
      assert HasPrefix(Key(resource, ""), ListPrefix(listed));
    } else if HasPrefix(listed, resource + "/") {
      var name := listed[|resource| + 1..];
      assert resource + "/" + name == listed;
      RootStripped(listed, resource, name);
      assert HasPrefix(Key(resource, name), ListPrefix(listed));
    } else {
      forall name ensures !HasPrefix(Key(resource, name), ListPrefix(listed)) {
        RootStripped(listed, resource, name);
        NeitherPrefix(listed, resource, name);
      }
    }
  }

  lemma NeitherPrefix(listed: string, resource: string, name: string)
    requires !HasPrefix(resource, listed) && !HasPrefix(listed, resource + "/")
    ensures !HasPrefix(resource + "/" + name, listed)
  {
    var full := resource + "/" + name;
    if |listed| <= |resource| {
      assert full[..|listed|] == resource[..|listed|];
    } else if |listed| <= |full| {
      assert full[..|listed|][..|resource| + 1] == resource + "/";
    }
  }

  /** No registered resource is in another's way. */
  lemma ResourcesListExactly(listed: string, resource: string)
    requires listed in RESOURCES && resource in RESOURCES
    ensures ListsExactly(listed, resource)
  {
    if listed == resource {
      forall name ensures HasPrefix(Key(resource, name), ListPrefix(listed)) {
        assert Key(resource, name)[..|ListPrefix(listed)|] == ListPrefix(listed);
      }
    } else {
      FirstLetters(listed, resource);
      PrefixStartsAlike(resource, listed);
      PrefixStartsAlike(listed, resource + "/");
      ListExactIff(listed, resource);
    }
  }

  lemma PrefixStartsAlike(s: string, prefix: string)
    requires prefix != ""
    ensures HasPrefix(s, prefix) ==> s != "" && s[0] == prefix[0]
  {
    if HasPrefix(s, prefix) {
      assert s[..|prefix|][0] == s[0];
    }
  }

  lemma FirstLetters(r: string, r': string)
    requires r in RESOURCES && r' in RESOURCES && r != r'
    ensures |r| > 0 && |r'| > 0 && r[0] != r'[0]
  {
    assert "pods"[0] == 'p' && "nodes"[0] == 'n' && "replicasets"[0] == 'r' && "deployments"[0] == 'd';
    assert "services"[0] == 's' && "endpoints"[0] == 'e' && "leases"[0] == 'l';
  }

  /** Different resources or names have different keys. */
  lemma KeysAreDistinct(r: string, n: string, r': string, n': string)
    requires r in RESOURCES && r' in RESOURCES && Key(r, n) == Key(r', n')
    ensures r == r' && n == n'
  {
    ResourcesListExactly(r, r);
    ResourcesListExactly(r, r');
    assert HasPrefix(Key(r, n), ListPrefix(r));
    assert HasPrefix(Key(r', n'), ListPrefix(r));
    assert Key(r, n)[|ListPrefix(r) + "/"|..] == n && Key(r', n')[|ListPrefix(r) + "/"|..] == n';
  }

  // ----- The store, resource by resource, is what clients of each resource see

  /** `view` has the entries of one resource, by name. */
  ghost predicate IsView<V>(data: map<string, V>, resource: string, view: map<string, V>) {
    forall name {:trigger Key(resource, name)} {:trigger name in view} ::
      (name in view <==> Key(resource, name) in data) && (name in view ==> view[name] == data[Key(resource, name)])
  }

  function ToOp<V>(resource: string, request: Registry.Request<V>, write: Write): Op<V> {
    match request
    case Create(name, obj) => Op.Create(Key(resource, name), obj, write)
    case Update(name, obj) => Op.Update(Key(resource, name), obj, write)
    case Delete(name) => Op.Delete(Key(resource, name), write)
  }

  /** A request on one resource does to that resource exactly what its clients rely on, whether or not the
      dump that follows succeeds. */
  lemma ServesOwn<V>(persistent: bool, s: Store<V>, resource: string, request: Registry.Request<V>, write: Write,
                     view: map<string, V>)
    requires resource in RESOURCES && IsView(s.data, resource, view)
    ensures IsView(Apply(persistent, s, ToOp(resource, request, write)).data, resource, Registry.Serve(view, request))
    ensures Accepts(s.data, ToOp(resource, request, write)) <==> Registry.Accepted(view, request)
  {
    var after, served := Apply(persistent, s, ToOp(resource, request, write)).data, Registry.Serve(view, request);
    forall name
      ensures (name in served <==> Key(resource, name) in after)
      ensures (name in served ==> served[name] == after[Key(resource, name)])
    {
      if Key(resource, name) == Key(resource, request.name) {
        KeysAreDistinct(resource, name, resource, request.name);
      }
    }
  }

  /** And it does nothing to any other resource. */
  lemma ServesNoOther<V>(persistent: bool, s: Store<V>, resource: string, request: Registry.Request<V>, write: Write,
                         other: string, view: map<string, V>)
    requires resource in RESOURCES && other in RESOURCES && other != resource && IsView(s.data, other, view)
    ensures IsView(Apply(persistent, s, ToOp(resource, request, write)).data, other, view)
  {
    forall name ensures Key(other, name) != Key(resource, request.name) {
      if Key(other, name) == Key(resource, request.name) {
        KeysAreDistinct(other, name, resource, request.name);
      }
    }
  }

  // ----- Listing

  /** The server stores nothing but objects of the registered resources. */
  ghost predicate OnlyResources<V>(data: map<string, V>) {
    forall key :: key in data ==> IsResourceKey(key)
  }

  ghost predicate IsResourceKey(key: string) {
    exists resource, name :: resource in RESOURCES && key == Key(resource, name)
  }

  lemma StaysOnlyResources<V>(persistent: bool, s: Store<V>, resource: string, request: Registry.Request<V>,
                              write: Write)
    requires resource in RESOURCES && OnlyResources(s.data)
    ensures OnlyResources(Apply(persistent, s, ToOp(resource, request, write)).data)
  {
    assert IsResourceKey(Key(resource, request.name));
  }

  function NameOf(resource: string, key: string): string
    requires |ListPrefix(resource)| + 1 <= |key|
  {
    key[|ListPrefix(resource)| + 1..]
  }

  /** A stored key below the prefix of a resource is a key of that resource. */
  lemma KeyBelow(resource: string, key: string)
    requires resource in RESOURCES && IsResourceKey(key) && HasPrefix(key, ListPrefix(resource))
    ensures |ListPrefix(resource)| + 1 <= |key| && key == Key(resource, NameOf(resource, key))
  {
    var r, name :| r in RESOURCES && key == Key(r, name);
    ResourcesListExactly(resource, r);
    assert HasPrefix(Key(r, name), ListPrefix(resource));
    assert Key(resource, name)[|ListPrefix(resource)| + 1..] == name;
  }

  /** A client that lists a resource gets what the store lists below its prefix: every object of the resource once. */
  lemma ListIsClientsList<V>(data: map<string, V>, resource: string, view: map<string, V>, keys: seq<string>,
                             items: seq<V>)
    returns (names: seq<string>)
    requires resource in RESOURCES && OnlyResources(data) && IsView(data, resource, view)
    requires ListsBelow(data, ListPrefix(resource), keys, items)
    ensures Registry.Lists(view, names, items)
  {
    forall i | 0 <= i < |keys|
      ensures |ListPrefix(resource)| + 1 <= |keys[i]| && keys[i] == Key(resource, NameOf(resource, keys[i]))
    {
      KeyBelow(resource, keys[i]);
    }
    names := seq(|keys|, i requires 0 <= i < |keys| => NameOf(resource, keys[i]));
    forall i | 0 <= i < |names| ensures names[i] in view && view[names[i]] == items[i] {
      assert Key(resource, names[i]) == keys[i];
    }
    forall name | name in view ensures name in names {
      assert Key(resource, name) in data;
      ResourcesListExactly(resource, resource);
      assert HasPrefix(Key(resource, name), ListPrefix(resource));
      var i :| 0 <= i < |keys| && keys[i] == Key(resource, name);
      KeysAreDistinct(resource, name, resource, names[i]);
      assert names[i] == name;
    }
  }
}
