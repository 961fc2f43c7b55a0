/** The generated resources are referentially closed, and their endpoints are those of the mesh. */
module OutboundTheorems {
  import opened Basics
  import opened TagSelectors
  import opened PolicyModel
  import opened Topology
  import opened ResourceSets
  import opened OutboundGenerator
  import opened Protocols
  import ClusterNames

  predicate Present(rs: seq<Resource>, kind: Kind, name: string) {
    Lookup(rs, Key(kind, name)).Some?
  }

  /** Whatever a resource refers to is among `rs`; a cluster stands with its load assignment. */
  predicate RefersTo(r: Resource, rs: seq<Resource>) {
    match r.payload
    case Listener(ViaRoute(route)) => Present(rs, RouteKind, route)
    case Listener(ToClusters(shares)) => AllPresent(rs, ClustersIn(shares))
    case RouteConfiguration(shares) => AllPresent(rs, ClustersIn(shares))
    case Cluster(_) => Present(rs, LoadAssignmentKind, r.name)
    case LoadAssignment(_) => Present(rs, ClusterKind, r.name)
  }

  /** The clusters that get a share, in order. */
  function ClustersIn(s: Shares): (names: seq<string>)
    ensures s.ByWeight? ==> |names| == |s.shares| && forall i :: 0 <= i < |names| ==> names[i] == s.shares[i].cluster
  {
    match s
    case All(cluster) => [cluster]
    case ByWeight(shares) => seq(|shares|, i requires 0 <= i < |shares| => shares[i].cluster)
  }

  predicate AllPresent(rs: seq<Resource>, names: seq<string>) {
    forall i :: 0 <= i < |names| ==> Present(rs, ClusterKind, names[i]) && Present(rs, LoadAssignmentKind, names[i])
  }

  ghost predicate Closed(rs: seq<Resource>) {
    forall r :: r in rs ==> RefersTo(r, rs)
  }

  /** Every key of `a` is one of `b`. */
  ghost predicate Covers(b: seq<Resource>, a: seq<Resource>) {
    forall key :: Lookup(a, key).Some? ==> Lookup(b, key).Some?
  }

  lemma RefersToMore(r: Resource, a: seq<Resource>, b: seq<Resource>)
    requires RefersTo(r, a) && Covers(b, a)
    ensures RefersTo(r, b)
  {
    hide Lookup;
    forall kind, name | Present(a, kind, name)
      ensures Present(b, kind, name)
    {
      assert Lookup(a, Key(kind, name)).Some?;
    }
    hide Present;
  }

  lemma ConcatCovers(a: seq<Resource>, b: seq<Resource>)
    ensures Covers(a + b, a) && Covers(a + b, b)
  {
    hide Lookup;
    forall key
      ensures Lookup(a, key).Some? || Lookup(b, key).Some? ==> Lookup(a + b, key).Some?
    {
      LookupConcat(a, b, key);
    }
  }

  lemma ClosedConcat(a: seq<Resource>, b: seq<Resource>)
    requires Closed(a) && Closed(b)
    ensures Closed(a + b)
  {
    ConcatCovers(a, b);
    hide RefersTo, Covers;
    forall r | r in a + b
      ensures RefersTo(r, a + b)
    {
      if r in a {
        RefersToMore(r, a, a + b);
      } else {
        RefersToMore(r, b, a + b);
      }
    }
  }

  // ---------- one outbound ----------

  lemma InIsPresent(r: Resource, rs: seq<Resource>)
    requires r in rs
    ensures Lookup(rs, KeyOf(r)).Some?
  {
    LookupMeans(rs, KeyOf(r));
    var i :| 0 <= i < |rs| && rs[i] == r;
    hide Lookup;
  }

  lemma {:induction false} EdsHasPair(proxy: Proxy, cs: seq<ClusterInfo>, k: nat)
    requires k < |cs|
    ensures ClusterResource(proxy, cs[k]) in EdsResources(proxy, cs) && AssignmentResource(proxy, cs[k]) in EdsResources(proxy, cs)
  {
    if k < |cs| - 1 {
      EdsHasPair(proxy, cs[..|cs| - 1], k);
    }
  }

  lemma {:induction false} EdsIsPairs(proxy: Proxy, cs: seq<ClusterInfo>, r: Resource)
    requires r in EdsResources(proxy, cs)
    ensures exists k :: 0 <= k < |cs| && (r == ClusterResource(proxy, cs[k]) || r == AssignmentResource(proxy, cs[k]))
  {
    var n := |cs| - 1;
    if r in EdsResources(proxy, cs[..n]) {
      EdsIsPairs(proxy, cs[..n], r);
      var k :| 0 <= k < n && (r == ClusterResource(proxy, cs[..n][k]) || r == AssignmentResource(proxy, cs[..n][k]));
      assert cs[k] == cs[..n][k];
    } else {
      assert r == ClusterResource(proxy, cs[n]) || r == AssignmentResource(proxy, cs[n]);
    }
  }

  lemma PairPresent(proxy: Proxy, cs: seq<ClusterInfo>, k: nat)
    requires k < |cs|
    ensures Present(EdsResources(proxy, cs), ClusterKind, cs[k].name) && Present(EdsResources(proxy, cs), LoadAssignmentKind, cs[k].name)
  {
    EdsHasPair(proxy, cs, k);
    InIsPresent(ClusterResource(proxy, cs[k]), EdsResources(proxy, cs));
    InIsPresent(AssignmentResource(proxy, cs[k]), EdsResources(proxy, cs));
  }

  lemma EdsClosed(proxy: Proxy, cs: seq<ClusterInfo>)
    ensures Closed(EdsResources(proxy, cs)) && AllPresent(EdsResources(proxy, cs), ClustersIn(SharesOf(cs)))
  {
    hide EdsResources, Present;
    forall k | 0 <= k < |cs|
      ensures Present(EdsResources(proxy, cs), ClusterKind, cs[k].name) && Present(EdsResources(proxy, cs), LoadAssignmentKind, cs[k].name)
    {
      PairPresent(proxy, cs, k);
    }
    forall r | r in EdsResources(proxy, cs)
      ensures RefersTo(r, EdsResources(proxy, cs))
    {
      EdsIsPairs(proxy, cs, r);
    }
  }

  lemma EmittedClosed(proxy: Proxy, oface: OutboundInterface, service: string, cs: seq<ClusterInfo>)
    ensures Closed(Emitted(proxy, oface, service, cs))
  {
    var http := AllHttp(AllEndpoints(proxy, cs));
    var eds, listener, rds := EdsResources(proxy, cs), ListenerResource(oface, service, http, cs), RdsResources(service, http, cs);
    var all := eds + [listener] + rds;
    assert Emitted(proxy, oface, service, cs) == all;
    EdsClosed(proxy, cs);
    assert all == eds + ([listener] + rds);
    ConcatCovers(eds, [listener] + rds);
    assert http ==> Present(all, RouteKind, RouteName(service)) by {
      if http {
        InIsPresent(rds[0], all);
      }
    }
    assert AllPresent(all, ClustersIn(SharesOf(cs))) by {
      RefersToMore(Resource("", RouteConfiguration(SharesOf(cs))), eds, all);
    }
    hide Emitted, Covers, Present, EdsResources, AllPresent;
    forall r | r in all
      ensures RefersTo(r, all)
    {
      if r in eds {
        RefersToMore(r, eds, all);
      }
    }
  }

  // ---------- all outbounds ----------

  lemma {:induction false} EmittedAllClosed(naming: Naming, proxy: Proxy, n: nat)
    requires WellFormed(proxy) && proxy.ofaces.Ok? && n <= |proxy.dataplane.outbound| && AllRoutable(proxy, n)
    ensures Closed(EmittedAll(naming, proxy, n))
  {
    hide Closed, Emitted;
    if n == 0 {
      NothingIsClosed();
    } else {
      var service := proxy.dataplane.outbound[n - 1];
      EmittedAllClosed(naming, proxy, n - 1);
      EmittedClosed(proxy, proxy.ofaces.value[n - 1], service, ClustersOf(naming, proxy, service));
      ClosedConcat(EmittedAll(naming, proxy, n - 1), Emitted(proxy, proxy.ofaces.value[n - 1], service, ClustersOf(naming, proxy, service)));
    }
  }

  lemma NothingIsClosed()
    ensures Closed([])
  {}

  lemma SetClosed(rs: seq<Resource>)
    requires Closed(rs)
    ensures Closed(AddAll([], rs))
  {
    var out := AddAll([], rs);
    hide AddAll, Lookup, RefersTo;
    assert [] + rs == rs;
    forall key
      ensures Lookup(out, key) == Lookup(rs, key)
    {
      FirstWins([], rs, key);
    }
    assert Covers(out, rs);
    forall r | r in out
      ensures RefersTo(r, out)
    {
      AddAllInventsNothing([], rs, r);
      RefersToMore(r, rs, out);
    }
  }

  /** What `Generate` returns has no two resources of the same type and name, and every cluster, load
      assignment or route that a listener, a route or a cluster refers to is there. */
  lemma GeneratedIsClosed(naming: Naming, proxy: Proxy)
    requires WellFormed(proxy) && proxy.ofaces.Ok? && AllRoutable(proxy, |proxy.dataplane.outbound|)
    ensures var out := AddAll([], EmittedAll(naming, proxy, |proxy.dataplane.outbound|)); NoDuplicates(out) && Closed(out)
  {
    var all := EmittedAll(naming, proxy, |proxy.dataplane.outbound|);
    EmittedAllClosed(naming, proxy, |proxy.dataplane.outbound|);
    SetClosed(all);
    AddAllKeepsDistinct([], all);
  }

  // ---------- which destination a kept pair comes from ----------

  /** The first cluster of a name. */
  function FirstNamed(cs: seq<ClusterInfo>, name: string): Option<ClusterInfo> {
    if cs == [] then None
    else
      var before := FirstNamed(cs[..|cs| - 1], name);
      if before.Some? then before else if cs[|cs| - 1].name == name then Some(cs[|cs| - 1]) else None
  }

  lemma {:induction false} FirstNamedConcat(a: seq<ClusterInfo>, b: seq<ClusterInfo>, name: string)
    ensures FirstNamed(a + b, name) == if FirstNamed(a, name).Some? then FirstNamed(a, name) else FirstNamed(b, name)
  {
    if b == [] {
      assert a + b == a;
    } else {
      FirstNamedConcat(a, b[..|b| - 1], name);
      assert (a + b)[..|a + b| - 1] == a + b[..|b| - 1];
    }
  }

  lemma {:induction false} FirstNamedIn(cs: seq<ClusterInfo>, name: string)
    ensures FirstNamed(cs, name).Some? <==> exists c :: c in cs && c.name == name
    ensures FirstNamed(cs, name).Some? ==> FirstNamed(cs, name).value in cs && FirstNamed(cs, name).value.name == name
  {
    if cs != [] {
      FirstNamedIn(cs[..|cs| - 1], name);
      assert cs == cs[..|cs| - 1] + [cs[|cs| - 1]];
    }
  }

  /** The clusters of the first `n` outbounds, in order. */
  function AllClusters(naming: Naming, proxy: Proxy, n: nat): seq<ClusterInfo>
    requires n <= |proxy.dataplane.outbound| && AllRoutable(proxy, n)
  {
    if n == 0 then [] else AllClusters(naming, proxy, n - 1) + ClustersOf(naming, proxy, proxy.dataplane.outbound[n - 1])
  }

  /** What is kept under a name: cluster and load assignment of the same cluster info. */
  ghost predicate KeptPair(proxy: Proxy, rs: seq<Resource>, name: string, c: Option<ClusterInfo>) {
    && Lookup(rs, Key(ClusterKind, name)) == (if c.Some? then Some(ClusterResource(proxy, c.value)) else None)
    && Lookup(rs, Key(LoadAssignmentKind, name)) == (if c.Some? then Some(AssignmentResource(proxy, c.value)) else None)
  }

  lemma {:induction false} EdsKeepsPair(proxy: Proxy, cs: seq<ClusterInfo>, name: string)
    ensures KeptPair(proxy, EdsResources(proxy, cs), name, FirstNamed(cs, name))
  {
    if cs != [] {
      var init, last := EdsResources(proxy, cs[..|cs| - 1]), cs[|cs| - 1];
      EdsKeepsPair(proxy, cs[..|cs| - 1], name);
      var a, b := ClusterResource(proxy, last), AssignmentResource(proxy, last);
      assert init + [a, b] == init + [a] + [b];
      forall key
        ensures Lookup(init + [a, b], key) ==
                if Lookup(init, key).Some? then Lookup(init, key) else if key == KeyOf(a) then Some(a) else if key == KeyOf(b) then Some(b) else None
      {
        LookupSnoc(init, a, key);
        LookupSnoc(init + [a], b, key);
      }
      hide Lookup;
    }
  }

  lemma ConcatKeepsPair(proxy: Proxy, a: seq<Resource>, b: seq<Resource>, name: string, ca: Option<ClusterInfo>, cb: Option<ClusterInfo>)
    requires KeptPair(proxy, a, name, ca) && KeptPair(proxy, b, name, cb)
    ensures KeptPair(proxy, a + b, name, if ca.Some? then ca else cb)
  {
    LookupConcat(a, b, Key(ClusterKind, name));
    LookupConcat(a, b, Key(LoadAssignmentKind, name));
    hide Lookup;
  }

  lemma EmittedKeepsPair(proxy: Proxy, oface: OutboundInterface, service: string, cs: seq<ClusterInfo>, name: string)
    ensures KeptPair(proxy, Emitted(proxy, oface, service, cs), name, FirstNamed(cs, name))
  {
    var http := AllHttp(AllEndpoints(proxy, cs));
    var listener, rds := ListenerResource(oface, service, http, cs), RdsResources(service, http, cs);
    EdsKeepsPair(proxy, cs, name);
    NoPairs(proxy, [listener] + rds, name);
    assert Emitted(proxy, oface, service, cs) == EdsResources(proxy, cs) + ([listener] + rds);
    hide EdsResources, Emitted, KeptPair;
    ConcatKeepsPair(proxy, EdsResources(proxy, cs), [listener] + rds, name, FirstNamed(cs, name), None);
  }

  lemma NoPairs(proxy: Proxy, rs: seq<Resource>, name: string)
    requires forall i :: 0 <= i < |rs| ==> rs[i].payload.Listener? || rs[i].payload.RouteConfiguration?
    ensures KeptPair(proxy, rs, name, None)
  {
    LookupMeans(rs, Key(ClusterKind, name));
    LookupMeans(rs, Key(LoadAssignmentKind, name));
    hide Lookup;
  }

  lemma EmittedForKeepsPair(naming: Naming, proxy: Proxy, i: nat, name: string)
    requires WellFormed(proxy) && proxy.ofaces.Ok? && i < |proxy.dataplane.outbound| && Routable(proxy, proxy.dataplane.outbound[i])
    ensures KeptPair(proxy, EmittedFor(naming, proxy, i), name, FirstNamed(ClustersOf(naming, proxy, proxy.dataplane.outbound[i]), name))
  {
    hide KeptPair, Emitted, FirstNamed;
    var service := proxy.dataplane.outbound[i];
    EmittedKeepsPair(proxy, proxy.ofaces.value[i], service, ClustersOf(naming, proxy, service), name);
  }

  lemma {:induction false} AllKeepPair(naming: Naming, proxy: Proxy, n: nat, name: string)
    requires WellFormed(proxy) && proxy.ofaces.Ok? && n <= |proxy.dataplane.outbound| && AllRoutable(proxy, n)
    ensures KeptPair(proxy, EmittedAll(naming, proxy, n), name, FirstNamed(AllClusters(naming, proxy, n), name))
  {
    if n > 0 {
      hide KeptPair, EmittedFor, FirstNamed, ClustersOf, Routable;
      var cs := ClustersOf(naming, proxy, proxy.dataplane.outbound[n - 1]);
      var before, clusters := EmittedAll(naming, proxy, n - 1), AllClusters(naming, proxy, n - 1);
      assert EmittedAll(naming, proxy, n) == before + EmittedFor(naming, proxy, n - 1) && AllClusters(naming, proxy, n) == clusters + cs;
      AllKeepPair(naming, proxy, n - 1, name);
      EmittedForKeepsPair(naming, proxy, n - 1, name);
      hide EmittedAll, AllClusters;
      ConcatKeepsPair(proxy, before, EmittedFor(naming, proxy, n - 1), name, FirstNamed(clusters, name), FirstNamed(cs, name));
      FirstNamedConcat(clusters, cs, name);
    }
  }

  /** Of what `Generate` returns, the cluster and the load assignment of a name come from one and the
      same destination, the first whose cluster has that name. */
  lemma PairsMatch(naming: Naming, proxy: Proxy, name: string)
    requires WellFormed(proxy) && proxy.ofaces.Ok? && AllRoutable(proxy, |proxy.dataplane.outbound|)
    ensures var n := |proxy.dataplane.outbound|;
            KeptPair(proxy, AddAll([], EmittedAll(naming, proxy, n)), name, FirstNamed(AllClusters(naming, proxy, n), name))
  {
    var n := |proxy.dataplane.outbound|;
    var all := EmittedAll(naming, proxy, n);
    AllKeepPair(naming, proxy, n, name);
    FirstWins([], all, Key(ClusterKind, name));
    FirstWins([], all, Key(LoadAssignmentKind, name));
    assert [] + all == all;
    hide Lookup, EmittedAll, AddAll;
  }

  // ---------- the endpoints of the mesh ----------

  lemma {:induction false} ClusterComesFrom(naming: Naming, conf: seq<Destination>, c: ClusterInfo)
    requires HaveService(conf) && c in Clusters(naming, conf)
    ensures exists d :: d in conf && d.weight != 0 && d.tags == c.tags && c.name == naming(d.tags[SERVICE_TAG], d.tags)
  {
    var init, last := conf[..|conf| - 1], conf[|conf| - 1];
    assert conf == init + [last];
    if c in Clusters(naming, init) {
      ClusterComesFrom(naming, init, c);
    }
  }

  lemma {:induction false} ClusterGoesIn(naming: Naming, conf: seq<Destination>, d: Destination)
    requires HaveService(conf) && d in conf && d.weight != 0
    ensures exists c :: c in Clusters(naming, conf) && c.tags == d.tags && c.name == naming(d.tags[SERVICE_TAG], d.tags)
  {
    var init, last := conf[..|conf| - 1], conf[|conf| - 1];
    assert conf == init + [last];
    if d in init {
      ClusterGoesIn(naming, init, d);
      var c :| c in Clusters(naming, init) && c.tags == d.tags && c.name == naming(d.tags[SERVICE_TAG], d.tags);
      assert c in Clusters(naming, conf);
    } else {
      var c := ClusterInfo(naming(d.tags[SERVICE_TAG], d.tags), d.weight, d.tags);
      assert c in Clusters(naming, conf);
    }
  }

  lemma {:induction false} AllClustersOf(naming: Naming, proxy: Proxy, n: nat, c: ClusterInfo)
    requires n <= |proxy.dataplane.outbound| && AllRoutable(proxy, n)
    ensures c in AllClusters(naming, proxy, n) <==>
            exists i :: 0 <= i < n && c in ClustersOf(naming, proxy, proxy.dataplane.outbound[i])
  {
    if n > 0 {
      hide ClustersOf;
      AllClustersOf(naming, proxy, n - 1, c);
    }
  }

  /** The proxy was built from the mesh: endpoints are looked up in the index of all its inbounds. */
  ghost predicate BuiltFrom(proxy: Proxy, mesh: seq<Dataplane>) {
    proxy.targets == Indexed(AllInbounds(mesh), Grouped(ReachableSelectors(proxy.dataplane.outbound, proxy.routes)))
  }

  /** No two destinations with different tags get the same cluster name. */
  ghost predicate NamesDistinguish(naming: Naming, proxy: Proxy, n: nat)
    requires n <= |proxy.dataplane.outbound| && AllRoutable(proxy, n)
  {
    forall a, b :: a in AllClusters(naming, proxy, n) && b in AllClusters(naming, proxy, n) && a.name == b.name ==> a.tags == b.tags
  }

  /** The clusters are named as the code names them, and no tag of a destination uses the punctuation
      of names. */
  ghost predicate NamedByCode(naming: Naming, proxy: Proxy, n: nat)
    requires n <= |proxy.dataplane.outbound| && AllRoutable(proxy, n)
  {
    && (forall service, tags :: ClusterNames.IsClusterName(naming(service, tags), service, tags))
    && (forall c :: c in AllClusters(naming, proxy, n) ==> ClusterNames.Clean(c.tags))
  }

  lemma {:induction false} AllClustersAreNamed(naming: Naming, proxy: Proxy, n: nat, c: ClusterInfo)
    requires n <= |proxy.dataplane.outbound| && AllRoutable(proxy, n) && c in AllClusters(naming, proxy, n)
    ensures SERVICE_TAG in c.tags && c.name == naming(c.tags[SERVICE_TAG], c.tags)
  {
    AllClustersOf(naming, proxy, n, c);
    var i :| 0 <= i < n && c in ClustersOf(naming, proxy, proxy.dataplane.outbound[i]);
    ClusterComesFrom(naming, proxy.routes[proxy.dataplane.outbound[i]].Conf(), c);
  }

  /** The code's names tell destinations apart. */
  lemma CodeNamesDistinguish(naming: Naming, proxy: Proxy, n: nat)
    requires n <= |proxy.dataplane.outbound| && AllRoutable(proxy, n) && NamedByCode(naming, proxy, n)
    ensures NamesDistinguish(naming, proxy, n)
  {
    hide ClusterNames.IsClusterName, ClusterNames.Clean, AllClusters;
    forall a, b | a in AllClusters(naming, proxy, n) && b in AllClusters(naming, proxy, n) && a.name == b.name
      ensures a.tags == b.tags
    {
      AllClustersAreNamed(naming, proxy, n, a);
      AllClustersAreNamed(naming, proxy, n, b);
      ClusterNames.NamesTellApart(a.name, a.tags, b.tags);
    }
  }

  /** What the index gives for a destination: the matching inbounds of its own service. */
  function Served(mesh: seq<Dataplane>, tags: Tags): seq<Endpoint>
    requires SERVICE_TAG in tags
  {
    DirectScan(OfService(AllInbounds(mesh), tags[SERVICE_TAG]), tags)
  }

  /** The endpoints of every cluster are those served for its destination. */
  lemma EndpointsAreServed(naming: Naming, proxy: Proxy, mesh: seq<Dataplane>, n: nat, c: ClusterInfo)
    requires n <= |proxy.dataplane.outbound| && AllRoutable(proxy, n) && c in AllClusters(naming, proxy, n) && BuiltFrom(proxy, mesh)
    ensures SERVICE_TAG in c.tags && EndpointsOf(proxy, c) == Served(mesh, c.tags)
  {
    AllClustersOf(naming, proxy, n, c);
    var i :| 0 <= i < n && c in ClustersOf(naming, proxy, proxy.dataplane.outbound[i]);
    var o := proxy.dataplane.outbound[i];
    ClusterComesFrom(naming, proxy.routes[o].Conf(), c);
    var d :| d in proxy.routes[o].Conf() && d.weight != 0 && d.tags == c.tags && c.name == naming(d.tags[SERVICE_TAG], d.tags);
    assert o in proxy.dataplane.outbound;
    LookedUpIsOfService(proxy.dataplane, proxy.routes, mesh, o, d);
    assert EndpointsOf(proxy, c) == LookedUp(proxy.dataplane, proxy.routes, mesh, d.tags);
    hide *;
  }

  function CheckOf(proxy: Proxy, service: string): Option<string> {
    if service in proxy.healthChecks then Some(proxy.healthChecks[service]) else None
  }

  /** From policies to configuration: for every weighted destination of every outbound there is a load
      assignment under the name of its cluster. It lists the inbounds that match the first destination
      of that name, which is this destination if names tell destinations apart. Beside it there is the
      cluster, with the health check of that destination's service, if there is one. */
  lemma EveryDestinationGetsItsEndpoints(naming: Naming, proxy: Proxy, mesh: seq<Dataplane>, i: nat, d: Destination) returns (first: ClusterInfo)
    requires WellFormed(proxy) && proxy.ofaces.Ok? && AllRoutable(proxy, |proxy.dataplane.outbound|) && BuiltFrom(proxy, mesh)
    requires i < |proxy.dataplane.outbound| && d in proxy.routes[proxy.dataplane.outbound[i]].Conf() && d.weight != 0
    ensures SERVICE_TAG in d.tags && SERVICE_TAG in first.tags
    ensures var n, name := |proxy.dataplane.outbound|, naming(d.tags[SERVICE_TAG], d.tags);
            && FirstNamed(AllClusters(naming, proxy, n), name) == Some(first)
            && Lookup(AddAll([], EmittedAll(naming, proxy, n)), Key(LoadAssignmentKind, name)) == Some(Resource(name, LoadAssignment(Served(mesh, first.tags))))
            && Lookup(AddAll([], EmittedAll(naming, proxy, n)), Key(ClusterKind, name)) == Some(Resource(name, Cluster(CheckOf(proxy, first.tags[SERVICE_TAG]))))
            && (NamesDistinguish(naming, proxy, n) ==> first.tags == d.tags)
  {
    var n, o := |proxy.dataplane.outbound|, proxy.dataplane.outbound[i];
    assert Routable(proxy, o);
    var name := naming(d.tags[SERVICE_TAG], d.tags);
    ClusterGoesIn(naming, proxy.routes[o].Conf(), d);
    var c :| c in ClustersOf(naming, proxy, o) && c.tags == d.tags && c.name == name;
    AllClustersOf(naming, proxy, n, c);
    PairsMatch(naming, proxy, name);
    FirstNamedIn(AllClusters(naming, proxy, n), name);
    first := FirstNamed(AllClusters(naming, proxy, n), name).value;
    EndpointsAreServed(naming, proxy, mesh, n, first);
    hide Lookup, EmittedAll, AddAll, EndpointsOf, Clusters, AllClusters, Served;
  }

  /** With the names that the code gives and tags that validation lets pass, every weighted destination
      gets exactly the matching inbounds of the mesh, exactly unless its service is the wildcard and a
      matching inbound has a service of its own. */
  lemma ValidatedDestinationsGetTheirEndpoints(naming: Naming, proxy: Proxy, mesh: seq<Dataplane>, i: nat, d: Destination)
    requires WellFormed(proxy) && proxy.ofaces.Ok? && AllRoutable(proxy, |proxy.dataplane.outbound|) && BuiltFrom(proxy, mesh)
    requires forall service, tags :: ClusterNames.IsClusterName(naming(service, tags), service, tags)
    requires forall c :: c in AllClusters(naming, proxy, |proxy.dataplane.outbound|) ==> ClusterNames.Validated(c.tags)
    requires i < |proxy.dataplane.outbound| && d in proxy.routes[proxy.dataplane.outbound[i]].Conf() && d.weight != 0
    ensures SERVICE_TAG in d.tags
    ensures var name, mine := naming(d.tags[SERVICE_TAG], d.tags), DirectScan(AllInbounds(mesh), d.tags);
            Lookup(AddAll([], EmittedAll(naming, proxy, |proxy.dataplane.outbound|)), Key(LoadAssignmentKind, name)) == Some(Resource(name, LoadAssignment(mine)))
            <==> d.tags[SERVICE_TAG] != MATCH_ALL || forall j :: 0 <= j < |AllInbounds(mesh)| ==> !Missed(AllInbounds(mesh)[j], d.tags)
  {
    var n := |proxy.dataplane.outbound|;
    forall c | c in AllClusters(naming, proxy, n)
      ensures ClusterNames.Clean(c.tags)
    {
      ClusterNames.ValidatedIsClean(c.tags);
    }
    hide ClusterNames.IsClusterName, ClusterNames.Clean, AllClusters, Lookup, AddAll, EmittedAll, DirectScan, OfService, AllInbounds, Missed;
    CodeNamesDistinguish(naming, proxy, n);
    var first := EveryDestinationGetsItsEndpoints(naming, proxy, mesh, i, d);
    ScanOfService(AllInbounds(mesh), d.tags);
    if d.tags[SERVICE_TAG] != MATCH_ALL {
      forall j | 0 <= j < |AllInbounds(mesh)|
        ensures !Missed(AllInbounds(mesh)[j], d.tags)
      {
        ConcreteServiceMissesNothing(AllInbounds(mesh)[j], d.tags);
      }
    }
  }
}
