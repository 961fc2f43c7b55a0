/** Generated Envoy resources, and the ordered set that keeps the first of each type and name. */
module ResourceSets {
  import opened Basics
  import opened Topology

  /** What of a generated message matters here: which names it refers to, with which weights, and its
      endpoints. */
  datatype Payload =
    | Cluster(healthCheck: Option<string>)
    | LoadAssignment(endpoints: seq<Endpoint>)
    | Listener(target: ListenerTarget)
    | RouteConfiguration(clusters: Shares)

  datatype ListenerTarget = ViaRoute(route: string) | ToClusters(clusters: Shares)

  /** How connections or requests are shared out among clusters: all to one, or by weight. */
  datatype Shares = All(cluster: string) | ByWeight(shares: seq<Share>)

  datatype Share = Share(cluster: string, weight: nat)

  datatype Resource = Resource(name: string, payload: Payload)

  datatype Kind = ClusterKind | LoadAssignmentKind | ListenerKind | RouteKind

  function KindOf(p: Payload): Kind {
    match p
    case Cluster(_) => ClusterKind
    case LoadAssignment(_) => LoadAssignmentKind
    case Listener(_) => ListenerKind
    case RouteConfiguration(_) => RouteKind
  }

  datatype Key = Key(kind: Kind, name: string)

  function KeyOf(r: Resource): Key {
    Key(KindOf(r.payload), r.name)
  }

  /** The first resource with a key. */
  function Lookup(rs: seq<Resource>, key: Key): Option<Resource> {
    if rs == [] then None
    else
      var before := Lookup(rs[..|rs| - 1], key);
      if before.Some? then before else if KeyOf(rs[|rs| - 1]) == key then Some(rs[|rs| - 1]) else None
  }

  function AddOne(rs: seq<Resource>, r: Resource): seq<Resource> {
    if Lookup(rs, KeyOf(r)).Some? then rs else rs + [r]
  }

  function AddAll(rs: seq<Resource>, more: seq<Resource>): seq<Resource> {
    if more == [] then rs else AddOne(AddAll(rs, more[..|more| - 1]), more[|more| - 1])
  }

  predicate NoDuplicates(rs: seq<Resource>) {
    forall i, j :: 0 <= i < j < |rs| ==> KeyOf(rs[i]) != KeyOf(rs[j])
  }

  lemma LookupSnoc(rs: seq<Resource>, r: Resource, key: Key)
    ensures Lookup(rs + [r], key) == if Lookup(rs, key).Some? then Lookup(rs, key) else if KeyOf(r) == key then Some(r) else None
  {
    assert (rs + [r])[..|rs|] == rs;
  }

  lemma {:induction false} LookupMeans(rs: seq<Resource>, key: Key)
    ensures Lookup(rs, key).Some? <==> exists i :: 0 <= i < |rs| && KeyOf(rs[i]) == key
    ensures Lookup(rs, key).Some? ==> Lookup(rs, key).value in rs && KeyOf(Lookup(rs, key).value) == key
  {
    if rs != [] {
      LookupMeans(rs[..|rs| - 1], key);
      assert rs == rs[..|rs| - 1] + [rs[|rs| - 1]];
    }
  }

  lemma {:induction false} LookupConcat(a: seq<Resource>, b: seq<Resource>, key: Key)
    ensures Lookup(a + b, key) == if Lookup(a, key).Some? then Lookup(a, key) else Lookup(b, key)
  {
    if b == [] {
      assert a + b == a;
    } else {
      var init, last := b[..|b| - 1], b[|b| - 1];
      LookupConcat(a, init, key);
      assert a + b == (a + init) + [last];
      LookupSnoc(a + init, last, key);
    }
  }

  /** No two resources of the set share type and name. */
  lemma {:induction false} AddAllKeepsDistinct(rs: seq<Resource>, more: seq<Resource>)
    requires NoDuplicates(rs)
    ensures NoDuplicates(AddAll(rs, more))
  {
    if more != [] {
      var init, last := more[..|more| - 1], more[|more| - 1];
      AddAllKeepsDistinct(rs, init);
      LookupMeans(AddAll(rs, init), KeyOf(last));
    }
  }

  lemma AddOneLookup(rs: seq<Resource>, r: Resource, key: Key)
    ensures Lookup(AddOne(rs, r), key) == Lookup(rs + [r], key)
  {
    LookupSnoc(rs, r, key);
    hide Lookup;
  }

  lemma SplitLast<T>(a: seq<T>, b: seq<T>)
    requires b != []
    ensures a + b == (a + b[..|b| - 1]) + [b[|b| - 1]]
  {}

  lemma AddAllLast(rs: seq<Resource>, more: seq<Resource>)
    requires more != []
    ensures AddAll(rs, more) == AddOne(AddAll(rs, more[..|more| - 1]), more[|more| - 1])
  {
    hide AddOne;
  }

  lemma AddAllNone(rs: seq<Resource>)
    ensures AddAll(rs, []) == rs
  {}

  /** The set answers with the first resource that was added under a key. */
  lemma {:induction false} FirstWins(rs: seq<Resource>, more: seq<Resource>, key: Key)
    ensures Lookup(AddAll(rs, more), key) == Lookup(rs + more, key)
  {
    hide *;
    if more == [] {
      AddAllNone(rs);
      assert rs + more == rs;
    } else {
      var init, last := more[..|more| - 1], more[|more| - 1];
      FirstWins(rs, init, key);
      AddAllLast(rs, more);
      AddOneLookup(AddAll(rs, init), last, key);
      LookupSnoc(AddAll(rs, init), last, key);
      LookupSnoc(rs + init, last, key);
      SplitLast(rs, more);
    }
  }

  lemma {:induction false} AddAllInventsNothing(rs: seq<Resource>, more: seq<Resource>, r: Resource)
    requires r in AddAll(rs, more)
    ensures r in rs + more
  {
    if more != [] {
      var init, last := more[..|more| - 1], more[|more| - 1];
      assert rs + more == (rs + init) + [last];
      if r in AddAll(rs, init) {
        AddAllInventsNothing(rs, init, r);
      }
    }
  }

  lemma {:induction false} AddAllConcat(rs: seq<Resource>, a: seq<Resource>, b: seq<Resource>)
    ensures AddAll(AddAll(rs, a), b) == AddAll(rs, a + b)
  {
    hide *;
    if b == [] {
      AddAllNone(AddAll(rs, a));
      assert a + b == a;
    } else {
      AddAllConcat(rs, a, b[..|b| - 1]);
      AddAllLast(AddAll(rs, a), b);
      AddAllLast(rs, a + b);
      assert (a + b)[..|a + b| - 1] == a + b[..|b| - 1];
    }
  }

  lemma AddOneIndexes(rs: seq<Resource>, r: Resource)
    requires NoDuplicates(rs) && Lookup(rs, KeyOf(r)).None?
    ensures NoDuplicates(rs + [r])
    ensures forall key :: Lookup(rs + [r], key).Some? <==> Lookup(rs, key).Some? || key == KeyOf(r)
  {
    LookupMeans(rs, KeyOf(r));
    hide Lookup;
    forall key
      ensures Lookup(rs + [r], key).Some? <==> Lookup(rs, key).Some? || key == KeyOf(r)
    {
      LookupSnoc(rs, r, key);
    }
  }

  class ResourceSet {
    var resources: seq<Resource>
    var typeToNames: map<Kind, set<string>>

    /** The index knows exactly the keys of the resources. */
    ghost predicate Valid()
      reads this
    {
      && NoDuplicates(resources)
      && forall kind, name :: (kind in typeToNames && name in typeToNames[kind]) <==> Lookup(resources, Key(kind, name)).Some?
    }

    constructor ()
      ensures Valid() && resources == []
    {
      resources, typeToNames := [], map[];
    }

    method Contains(name: string, payload: Payload) returns (r: bool)
      requires Valid()
      ensures r <==> Lookup(resources, Key(KindOf(payload), name)).Some?
    {
      var kind := KindOf(payload);
      if kind !in typeToNames {
        return false;
      }
      return name in typeToNames[kind];
    }

    method Index(resource: Resource)
      modifies this`typeToNames
      ensures typeToNames.Keys == old(typeToNames.Keys) + {KindOf(resource.payload)}
      ensures forall kind :: kind in typeToNames ==>
                var names := if kind in old(typeToNames) then old(typeToNames)[kind] else {};
                typeToNames[kind] == if kind == KindOf(resource.payload) then names + {resource.name} else names
    {
      var kind := KindOf(resource.payload);
      if kind !in typeToNames {
        typeToNames := typeToNames[kind := {}];
      }
      typeToNames := typeToNames[kind := typeToNames[kind] + {resource.name}];
    }

    method AddResource(resource: Resource)
      requires Valid()
      modifies this
      ensures Valid() && resources == AddOne(old(resources), resource)
    {
      var present := Contains(resource.name, resource.payload);
      if present {
        return;
      }
      ghost var before := resources;
      AddOneIndexes(before, resource);
      hide Lookup, NoDuplicates;
      resources := resources + [resource];
      Index(resource);
    }

    method Add(more: seq<Resource>)
      requires Valid()
      modifies this
      ensures Valid() && resources == AddAll(old(resources), more)
    {
      for i := 0 to |more|
        invariant Valid() && resources == AddAll(old(resources), more[..i])
      {
        assert more[..i + 1][..i] == more[..i];
        AddResource(more[i]);
      }
      assert more[..|more|] == more;
    }

    method List() returns (r: seq<Resource>)
      ensures r == resources
    {
      r := resources;
    }
  }
}
