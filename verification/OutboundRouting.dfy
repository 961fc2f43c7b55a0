/** Where the generated listeners lead: through a route or directly, to the clusters of the route's
    destinations and with their weights. */
module OutboundRouting {
  import opened Basics
  import opened TagSelectors
  import opened PolicyModel
  import opened Topology
  import opened ResourceSets
  import opened Protocols
  import opened OutboundGenerator
  import opened OutboundTheorems
  import ClusterNames
  import Decimal

  // ---------- what is expected ----------

  /** The destinations that get anything at all, in order. */
  function Weighted(conf: seq<Destination>): seq<Destination> {
    if conf == [] then [] else (if conf[0].weight != 0 then [conf[0]] else []) + Weighted(conf[1..])
  }

  function ClusterFor(naming: Naming, d: Destination): string {
    naming(ServiceOf(d.tags), d.tags)
  }

  /** A single destination gets everything; several get their weights, in order. */
  ghost predicate SharedAmong(shares: Shares, naming: Naming, ds: seq<Destination>) {
    if |ds| == 1 then shares == All(ClusterFor(naming, ds[0]))
    else
      && shares.ByWeight? && |shares.shares| == |ds|
      && forall k :: 0 <= k < |ds| ==> shares.shares[k] == Share(ClusterFor(naming, ds[k]), ds[k].weight)
  }

  /** The endpoint is one that the destination stands for. */
  ghost predicate Serves(mesh: seq<Dataplane>, d: Destination, e: Endpoint) {
    d.weight != 0 && SERVICE_TAG in d.tags && e in Served(mesh, d.tags)
  }

  /** The destinations have endpoints, and all of them speak HTTP. */
  ghost predicate LeadsToHttp(mesh: seq<Dataplane>, conf: seq<Destination>) {
    && (exists d, e :: d in conf && Serves(mesh, d, e))
    && (forall d, e :: d in conf && Serves(mesh, d, e) ==> SpeaksHttp(e))
  }

  ghost predicate SomeServes(mesh: seq<Dataplane>, conf: seq<Destination>, e: Endpoint) {
    exists d :: d in conf && Serves(mesh, d, e)
  }

  // ---------- names ----------

  lemma RouteNamesDiffer(a: string, b: string)
    requires RouteName(a) == RouteName(b)
    ensures a == b
  {
    assert RouteName(a)[|"outbound:"|..] == a && RouteName(b)[|"outbound:"|..] == b;
  }

  lemma LastColon(a: string, m: string, b: string, n: string)
    requires a + ":" + m == b + ":" + n && Decimal.AllDigits(m) && Decimal.AllDigits(n) && |m| <= |n|
    ensures a == b && m == n
  {
    var s := a + ":" + m;
    var k := |s| - |m| - 1;
    assert s[k] == ':';
    assert forall j :: |s| - |n| <= j < |s| ==> s[j] == n[j - (|s| - |n|)];
    assert s[..k] == a && s[k + 1..] == m;
    assert |m| == |n| ==> (b + ":" + n)[..k] == b && (b + ":" + n)[k + 1..] == n;
  }

  lemma ListenerNamesDiffer(a: OutboundInterface, b: OutboundInterface)
    requires ListenerName(a) == ListenerName(b)
    ensures a == b
  {
    var m, n := Decimal.Format(a.port), Decimal.Format(b.port);
    assert ListenerName(a) == "outbound:" + a.ip + ":" + m && ListenerName(b) == "outbound:" + b.ip + ":" + n;
    if |m| <= |n| {
      LastColon("outbound:" + a.ip, m, "outbound:" + b.ip, n);
    } else {
      LastColon("outbound:" + b.ip, n, "outbound:" + a.ip, m);
    }
    Decimal.FormatInjective(a.port, b.port);
    assert ("outbound:" + a.ip)[|"outbound:"|..] == a.ip && ("outbound:" + b.ip)[|"outbound:"|..] == b.ip;
  }

  // ---------- clusters and endpoints ----------

  lemma {:induction false} WeightedSnoc(conf: seq<Destination>, d: Destination)
    ensures Weighted(conf + [d]) == Weighted(conf) + if d.weight != 0 then [d] else []
  {
    if conf == [] {
      assert conf + [d] == [d];
    } else {
      assert (conf + [d])[1..] == conf[1..] + [d];
      WeightedSnoc(conf[1..], d);
    }
  }

  lemma {:induction false} WeightedHas(conf: seq<Destination>, d: Destination)
    ensures d in Weighted(conf) <==> d in conf && d.weight != 0
  {
    if conf != [] {
      WeightedHas(conf[1..], d);
      assert conf == [conf[0]] + conf[1..];
    }
  }

  function InfoFor(naming: Naming, d: Destination): ClusterInfo {
    ClusterInfo(ClusterFor(naming, d), d.weight, d.tags)
  }

  /** The clusters are those of the weighted destinations, in order, with their weights. */
  lemma {:induction false} ClustersAreWeighted(naming: Naming, conf: seq<Destination>)
    requires HaveService(conf)
    ensures var cs, ds := Clusters(naming, conf), Weighted(conf);
            |cs| == |ds| && forall k :: 0 <= k < |ds| ==> cs[k] == InfoFor(naming, ds[k])
  {
    if conf != [] {
      var init, last := conf[..|conf| - 1], conf[|conf| - 1];
      ClustersAreWeighted(naming, init);
      WeightedSnoc(init, last);
      assert conf == init + [last];
      assert Clusters(naming, conf) == Clusters(naming, init) + if last.weight == 0 then [] else [InfoFor(naming, last)];
      hide Clusters, Weighted, InfoFor;
    }
  }

  lemma SharesAreWeighted(naming: Naming, conf: seq<Destination>)
    requires HaveService(conf)
    ensures SharedAmong(SharesOf(Clusters(naming, conf)), naming, Weighted(conf))
  {
    ClustersAreWeighted(naming, conf);
    hide Clusters, Weighted;
  }

  lemma {:induction false} EndpointsOfAny(proxy: Proxy, cs: seq<ClusterInfo>, e: Endpoint)
    ensures e in AllEndpoints(proxy, cs) <==> exists k :: 0 <= k < |cs| && e in EndpointsOf(proxy, cs[k])
  {
    if cs != [] {
      var init := cs[..|cs| - 1];
      EndpointsOfAny(proxy, init, e);
      assert forall k :: 0 <= k < |init| ==> init[k] == cs[k];
      hide EndpointsOf;
    }
  }

  /** The endpoints that decide about the protocol are those that the weighted destinations stand for. */
  lemma EndpointsServe(naming: Naming, proxy: Proxy, mesh: seq<Dataplane>, i: nat, e: Endpoint)
    requires AllRoutable(proxy, |proxy.dataplane.outbound|) && BuiltFrom(proxy, mesh) && i < |proxy.dataplane.outbound|
    ensures var conf := proxy.routes[proxy.dataplane.outbound[i]].Conf();
            e in AllEndpoints(proxy, Clusters(naming, conf)) <==> SomeServes(mesh, conf, e)
  {
    var n, o := |proxy.dataplane.outbound|, proxy.dataplane.outbound[i];
    assert Routable(proxy, o);
    var conf := proxy.routes[o].Conf();
    var cs, ds := Clusters(naming, conf), Weighted(conf);
    EndpointsOfAny(proxy, cs, e);
    ClustersAreWeighted(naming, conf);
    hide Clusters, EndpointsOf, Served, AllEndpoints, BuiltFrom, AllRoutable, Weighted, ClusterFor;
    if e in AllEndpoints(proxy, cs) {
      var k :| 0 <= k < |cs| && e in EndpointsOf(proxy, cs[k]);
      ClusterServes(naming, proxy, mesh, i, k);
      assert Serves(mesh, ds[k], e);
    }
    if d :| d in conf && Serves(mesh, d, e) {
      WeightedHas(conf, d);
      var k :| 0 <= k < |ds| && ds[k] == d;
      ClusterServes(naming, proxy, mesh, i, k);
      assert e in EndpointsOf(proxy, cs[k]);
    }
  }

  lemma ClusterServes(naming: Naming, proxy: Proxy, mesh: seq<Dataplane>, i: nat, k: nat)
    requires AllRoutable(proxy, |proxy.dataplane.outbound|) && BuiltFrom(proxy, mesh) && i < |proxy.dataplane.outbound|
    requires Routable(proxy, proxy.dataplane.outbound[i])
    requires var cs := ClustersOf(naming, proxy, proxy.dataplane.outbound[i]); k < |cs|
    ensures var conf := proxy.routes[proxy.dataplane.outbound[i]].Conf();
            var cs, ds := Clusters(naming, conf), Weighted(conf);
            && k < |ds| && ds[k] in conf && ds[k].weight != 0 && SERVICE_TAG in ds[k].tags
            && EndpointsOf(proxy, cs[k]) == Served(mesh, ds[k].tags)
  {
    var n, o := |proxy.dataplane.outbound|, proxy.dataplane.outbound[i];
    var conf := proxy.routes[o].Conf();
    var cs, ds := Clusters(naming, conf), Weighted(conf);
    ClustersAreWeighted(naming, conf);
    assert cs == ClustersOf(naming, proxy, o) && cs[k] in ClustersOf(naming, proxy, o) && cs[k].tags == ds[k].tags && ds[k] in ds;
    hide Clusters, Weighted, ClustersOf, EndpointsOf, Served, Routable;
    WeightedHas(conf, ds[k]);
    AllClustersOf(naming, proxy, n, cs[k]);
    EndpointsAreServed(naming, proxy, mesh, n, cs[k]);
  }

  lemma HttpMeans(naming: Naming, proxy: Proxy, mesh: seq<Dataplane>, i: nat)
    requires AllRoutable(proxy, |proxy.dataplane.outbound|) && BuiltFrom(proxy, mesh) && i < |proxy.dataplane.outbound|
    ensures var conf := proxy.routes[proxy.dataplane.outbound[i]].Conf();
            HaveService(conf) && (AllHttp(AllEndpoints(proxy, Clusters(naming, conf))) <==> LeadsToHttp(mesh, conf))
  {
    assert Routable(proxy, proxy.dataplane.outbound[i]);
    var conf := proxy.routes[proxy.dataplane.outbound[i]].Conf();
    var all := AllEndpoints(proxy, Clusters(naming, conf));
    hide Clusters, AllEndpoints, Serves, SpeaksHttp, BuiltFrom, AllRoutable;
    forall e
      ensures e in all <==> SomeServes(mesh, conf, e)
    {
      EndpointsServe(naming, proxy, mesh, i, e);
    }
    HttpOfAll(all, mesh, conf);
  }

  lemma HttpOfAll(all: seq<Endpoint>, mesh: seq<Dataplane>, conf: seq<Destination>)
    requires forall e :: e in all <==> SomeServes(mesh, conf, e)
    ensures AllHttp(all) <==> LeadsToHttp(mesh, conf)
  {
    hide Serves, SpeaksHttp;
    forall k | 0 <= k < |all|
      ensures SomeServes(mesh, conf, all[k])
    {
      assert all[k] in all;
    }
    forall d, e | d in conf && Serves(mesh, d, e)
      ensures e in all
    {
      assert SomeServes(mesh, conf, e);
    }
    if AllHttp(all) {
      var d :| d in conf && Serves(mesh, d, all[0]);
      assert LeadsToHttp(mesh, conf);
    }
    if LeadsToHttp(mesh, conf) {
      var d, e :| d in conf && Serves(mesh, d, e);
      assert e in all;
    }
  }

  // ---------- what is kept ----------

  lemma {:induction false} EdsHasNoOthers(proxy: Proxy, cs: seq<ClusterInfo>, key: Key)
    requires key.kind == ListenerKind || key.kind == RouteKind
    ensures Lookup(EdsResources(proxy, cs), key).None?
  {
    if cs != [] {
      var init, last := EdsResources(proxy, cs[..|cs| - 1]), cs[|cs| - 1];
      EdsHasNoOthers(proxy, cs[..|cs| - 1], key);
      assert init + [ClusterResource(proxy, last), AssignmentResource(proxy, last)] == init + [ClusterResource(proxy, last)] + [AssignmentResource(proxy, last)];
      LookupSnoc(init, ClusterResource(proxy, last), key);
      LookupSnoc(init + [ClusterResource(proxy, last)], AssignmentResource(proxy, last), key);
      hide Lookup;
    }
  }

  /** The listener and the route configuration among what is emitted for one outbound. */
  lemma OneOutbound(proxy: Proxy, oface: OutboundInterface, service: string, cs: seq<ClusterInfo>, name: string)
    ensures var http, out := AllHttp(AllEndpoints(proxy, cs)), Emitted(proxy, oface, service, cs);
            && Lookup(out, Key(ListenerKind, name)) ==
               (if name == ListenerName(oface) then Some(ListenerResource(oface, service, http, cs)) else None)
            && Lookup(out, Key(RouteKind, name)) ==
               (if http && name == RouteName(service) then Some(Resource(name, RouteConfiguration(SharesOf(cs)))) else None)
  {
    var http := AllHttp(AllEndpoints(proxy, cs));
    var eds, listener, rds := EdsResources(proxy, cs), ListenerResource(oface, service, http, cs), RdsResources(service, http, cs);
    assert Emitted(proxy, oface, service, cs) == eds + [listener] + rds;
    assert listener.payload.Listener? && listener.name == ListenerName(oface);
    assert rds == if http then [Resource(RouteName(service), RouteConfiguration(SharesOf(cs)))] else [];
    hide Emitted, ListenerResource, RdsResources, SharesOf, AllHttp, AllEndpoints, EdsResources, ListenerName, RouteName;
    forall key: Key | key.kind == ListenerKind || key.kind == RouteKind
      ensures Lookup(eds + [listener] + rds, key) ==
              if key == KeyOf(listener) then Some(listener) else if rds != [] && key == KeyOf(rds[0]) then Some(rds[0]) else None
    {
      EdsHasNoOthers(proxy, cs, key);
      LookupSnoc(eds, listener, key);
      if rds != [] {
        assert eds + [listener] + rds == eds + [listener] + [rds[0]];
        LookupSnoc(eds + [listener], rds[0], key);
      } else {
        assert eds + [listener] + rds == eds + [listener];
      }
      hide Lookup;
    }
    hide Lookup;
  }

  function ListenerFor(naming: Naming, proxy: Proxy, i: nat): Resource
    requires WellFormed(proxy) && proxy.ofaces.Ok? && i < |proxy.dataplane.outbound| && Routable(proxy, proxy.dataplane.outbound[i])
  {
    var service := proxy.dataplane.outbound[i];
    var cs := ClustersOf(naming, proxy, service);
    ListenerResource(proxy.ofaces.value[i], service, AllHttp(AllEndpoints(proxy, cs)), cs)
  }

  function RouteConfigFor(naming: Naming, proxy: Proxy, service: string): Option<Resource>
    requires Routable(proxy, service)
  {
    var cs := ClustersOf(naming, proxy, service);
    if AllHttp(AllEndpoints(proxy, cs)) then Some(Resource(RouteName(service), RouteConfiguration(SharesOf(cs)))) else None
  }

  lemma OneMore(naming: Naming, proxy: Proxy, n: nat, oface: OutboundInterface, service: string)
    requires WellFormed(proxy) && proxy.ofaces.Ok? && n < |proxy.dataplane.outbound| && AllRoutable(proxy, n + 1)
    ensures var before, after := EmittedAll(naming, proxy, n), EmittedAll(naming, proxy, n + 1);
            var listener, route := Key(ListenerKind, ListenerName(oface)), Key(RouteKind, RouteName(service));
            && Lookup(after, listener) == (if Lookup(before, listener).Some? then Lookup(before, listener)
                                           else if proxy.ofaces.value[n] == oface then Some(ListenerFor(naming, proxy, n)) else None)
            && Lookup(after, route) == (if Lookup(before, route).Some? then Lookup(before, route)
                                        else if proxy.dataplane.outbound[n] == service then RouteConfigFor(naming, proxy, service) else None)
  {
    var mine, here := proxy.ofaces.value[n], proxy.dataplane.outbound[n];
    assert Routable(proxy, here);
    var cs := ClustersOf(naming, proxy, here);
    OneOutbound(proxy, mine, here, cs, ListenerName(oface));
    OneOutbound(proxy, mine, here, cs, RouteName(service));
    if mine != oface && ListenerName(mine) == ListenerName(oface) {
      ListenerNamesDiffer(mine, oface);
    }
    if here != service && RouteName(here) == RouteName(service) {
      RouteNamesDiffer(here, service);
    }
    assert EmittedFor(naming, proxy, n) == Emitted(proxy, mine, here, cs);
    assert EmittedAll(naming, proxy, n + 1) == EmittedAll(naming, proxy, n) + EmittedFor(naming, proxy, n);
    hide EmittedAll, Emitted, EmittedFor, Lookup, ListenerResource, AllHttp, AllEndpoints, ListenerName, RouteName, Routable, ClustersOf, SharesOf;
    LookupConcat(EmittedAll(naming, proxy, n), EmittedFor(naming, proxy, n), Key(ListenerKind, ListenerName(oface)));
    LookupConcat(EmittedAll(naming, proxy, n), EmittedFor(naming, proxy, n), Key(RouteKind, RouteName(service)));
  }

  lemma NothingYet(naming: Naming, proxy: Proxy, key: Key)
    requires WellFormed(proxy) && proxy.ofaces.Ok?
    ensures Lookup(EmittedAll(naming, proxy, 0), key).None?
  {}

  /** The listener of an interface is that of the first outbound with the interface. */
  lemma {:induction false} FirstListener(naming: Naming, proxy: Proxy, n: nat, oface: OutboundInterface) returns (first: nat)
    requires WellFormed(proxy) && proxy.ofaces.Ok? && n <= |proxy.dataplane.outbound| && AllRoutable(proxy, n)
    ensures first <= n && oface !in proxy.ofaces.value[..first]
    ensures first < n ==> proxy.ofaces.value[first] == oface && Routable(proxy, proxy.dataplane.outbound[first])
    ensures Lookup(EmittedAll(naming, proxy, n), Key(ListenerKind, ListenerName(oface))) ==
            if first == n then None else Some(ListenerFor(naming, proxy, first))
  {
    hide Lookup, ListenerFor, EmittedAll, ListenerName, RouteName, Routable;
    if n == 0 {
      first := 0;
      NothingYet(naming, proxy, Key(ListenerKind, ListenerName(oface)));
    } else {
      first := FirstListener(naming, proxy, n - 1, oface);
      OneMore(naming, proxy, n - 1, oface, proxy.dataplane.outbound[n - 1]);
      if first == n - 1 && proxy.ofaces.value[n - 1] != oface {
        first := n;
        assert proxy.ofaces.value[..n] == proxy.ofaces.value[..n - 1] + [proxy.ofaces.value[n - 1]];
      }
    }
  }

  /** The route configuration under a service's name is the one for that service. */
  lemma {:induction false} RouteOf(naming: Naming, proxy: Proxy, n: nat, service: string)
    requires WellFormed(proxy) && proxy.ofaces.Ok? && n <= |proxy.dataplane.outbound| && AllRoutable(proxy, n) && Routable(proxy, service)
    ensures Lookup(EmittedAll(naming, proxy, n), Key(RouteKind, RouteName(service))) ==
            if service in proxy.dataplane.outbound[..n] then RouteConfigFor(naming, proxy, service) else None
  {
    hide Lookup, RouteConfigFor, EmittedAll, ListenerName, RouteName, Routable;
    if n == 0 {
      NothingYet(naming, proxy, Key(RouteKind, RouteName(service)));
    } else {
      RouteOf(naming, proxy, n - 1, service);
      OneMore(naming, proxy, n - 1, proxy.ofaces.value[n - 1], service);
      assert proxy.dataplane.outbound[..n] == proxy.dataplane.outbound[..n - 1] + [proxy.dataplane.outbound[n - 1]];
    }
  }

  // ---------- the theorem ----------

  /** Every outbound gets a listener, that of the first outbound with the same interface. If all endpoints
      of the route's destinations speak HTTP, it leads to a route configuration that is there, otherwise
      straight to the clusters; either way traffic is shared among exactly the destinations of the route
      that have a weight, in order and by their weights. */
  lemma EveryOutboundIsRouted(naming: Naming, proxy: Proxy, mesh: seq<Dataplane>, i: nat) returns (first: nat, shares: Shares)
    requires WellFormed(proxy) && proxy.ofaces.Ok? && AllRoutable(proxy, |proxy.dataplane.outbound|) && BuiltFrom(proxy, mesh)
    requires i < |proxy.dataplane.outbound|
    ensures first <= i && proxy.ofaces.value[first] == proxy.ofaces.value[i] && proxy.ofaces.value[i] !in proxy.ofaces.value[..first]
    ensures var out, service := AddAll([], EmittedAll(naming, proxy, |proxy.dataplane.outbound|)), proxy.dataplane.outbound[first];
            var conf, oface := proxy.routes[service].Conf(), proxy.ofaces.value[i];
            && SharedAmong(shares, naming, Weighted(conf))
            && Lookup(out, Key(ListenerKind, ListenerName(oface))) ==
               Some(Resource(ListenerName(oface), Listener(if LeadsToHttp(mesh, conf) then ViaRoute(RouteName(service)) else ToClusters(shares))))
            && (LeadsToHttp(mesh, conf) ==>
                Lookup(out, Key(RouteKind, RouteName(service))) == Some(Resource(RouteName(service), RouteConfiguration(shares))))
  {
    var n, oface := |proxy.dataplane.outbound|, proxy.ofaces.value[i];
    hide Lookup, EmittedAll, AddAll, LeadsToHttp, SharedAmong, Weighted, ListenerName, RouteName, ListenerFor, RouteConfigFor, BuiltFrom, AllRoutable, Routable;
    first := KeptListener(naming, proxy, i);
    KeptRoute(naming, proxy, first);
    shares := ListenerLeads(naming, proxy, mesh, first);
  }

  /** What the set keeps for an interface and for a service. */
  lemma KeptListener(naming: Naming, proxy: Proxy, i: nat) returns (first: nat)
    requires WellFormed(proxy) && proxy.ofaces.Ok? && AllRoutable(proxy, |proxy.dataplane.outbound|) && i < |proxy.dataplane.outbound|
    ensures first <= i && proxy.ofaces.value[first] == proxy.ofaces.value[i] && proxy.ofaces.value[i] !in proxy.ofaces.value[..first]
    ensures Routable(proxy, proxy.dataplane.outbound[first])
    ensures Lookup(AddAll([], EmittedAll(naming, proxy, |proxy.dataplane.outbound|)), Key(ListenerKind, ListenerName(proxy.ofaces.value[i])))
         == Some(ListenerFor(naming, proxy, first))
  {
    var n, oface := |proxy.dataplane.outbound|, proxy.ofaces.value[i];
    var all := EmittedAll(naming, proxy, n);
    hide Lookup, EmittedAll, AddAll, ListenerName, ListenerFor, AllRoutable, Routable;
    first := FirstListener(naming, proxy, n, oface);
    assert forall j :: 0 <= j < first ==> proxy.ofaces.value[..first][j] == proxy.ofaces.value[j];
    FirstWins([], all, Key(ListenerKind, ListenerName(oface)));
    assert [] + all == all;
  }

  lemma KeptRoute(naming: Naming, proxy: Proxy, i: nat)
    requires WellFormed(proxy) && proxy.ofaces.Ok? && AllRoutable(proxy, |proxy.dataplane.outbound|) && i < |proxy.dataplane.outbound|
    requires Routable(proxy, proxy.dataplane.outbound[i])
    ensures var service := proxy.dataplane.outbound[i];
            Lookup(AddAll([], EmittedAll(naming, proxy, |proxy.dataplane.outbound|)), Key(RouteKind, RouteName(service))) ==
            RouteConfigFor(naming, proxy, service)
  {
    var n, service := |proxy.dataplane.outbound|, proxy.dataplane.outbound[i];
    var all := EmittedAll(naming, proxy, n);
    hide Lookup, EmittedAll, AddAll, RouteName, RouteConfigFor, AllRoutable, Routable;
    RouteOf(naming, proxy, n, service);
    assert proxy.dataplane.outbound[..n] == proxy.dataplane.outbound;
    FirstWins([], all, Key(RouteKind, RouteName(service)));
    assert [] + all == all;
  }

  lemma ListenerLeads(naming: Naming, proxy: Proxy, mesh: seq<Dataplane>, i: nat) returns (shares: Shares)
    requires WellFormed(proxy) && proxy.ofaces.Ok? && AllRoutable(proxy, |proxy.dataplane.outbound|) && BuiltFrom(proxy, mesh)
    requires i < |proxy.dataplane.outbound| && Routable(proxy, proxy.dataplane.outbound[i])
    ensures var service, oface := proxy.dataplane.outbound[i], proxy.ofaces.value[i];
            var conf := proxy.routes[service].Conf();
            && SharedAmong(shares, naming, Weighted(conf))
            && ListenerFor(naming, proxy, i) ==
               Resource(ListenerName(oface), Listener(if LeadsToHttp(mesh, conf) then ViaRoute(RouteName(service)) else ToClusters(shares)))
            && RouteConfigFor(naming, proxy, service) ==
               if LeadsToHttp(mesh, conf) then Some(Resource(RouteName(service), RouteConfiguration(shares))) else None
  {
    var conf := proxy.routes[proxy.dataplane.outbound[i]].Conf();
    HttpMeans(naming, proxy, mesh, i);
    hide LeadsToHttp, AllHttp, AllEndpoints, Clusters, SharesOf, SharedAmong, Weighted, ListenerName, RouteName, AllRoutable, BuiltFrom;
    SharesAreWeighted(naming, conf);
    shares := SharesOf(Clusters(naming, conf));
  }

  // ---------- outbounds without a policy ----------

  lemma SomeElement(keys: seq<string>)
    ensures keys == [] || exists k :: k in keys
  {
    if keys != [] {
      assert keys[0] in keys;
    }
  }

  lemma NoOtherTags(name: string, service: string)
    requires ClusterNames.IsClusterName(name, service, MatchService(service))
    ensures name == service
  {
    var pairs :| ClusterNames.IsPairs(pairs, MatchService(service)) && name == ClusterNames.Compose(service, pairs);
    var keys :| ClusterNames.Enumerates(keys, MatchService(service)) && multiset(pairs) == multiset(ClusterNames.PairsFor(keys, MatchService(service)));
    SomeElement(keys);
    assert |pairs| == |multiset(pairs)| == 0;
  }

  /** The implicit route, which an outbound gets if no traffic route applies, sends everything that goes to
      the service to one cluster named like it, whose endpoints are the inbounds of that very service. */
  lemma ImplicitRouteGoesToTheService(naming: Naming, mesh: seq<Dataplane>, service: string, now: int)
    requires ClusterNames.IsClusterName(naming(service, MatchService(service)), service, MatchService(service))
    ensures var conf := ImplicitRoute(service, now).Conf();
            && HaveService(conf) && SharesOf(Clusters(naming, conf)) == All(service)
            && |Weighted(conf)| == 1
            && Served(mesh, Weighted(conf)[0].tags) == Backends(AllInbounds(mesh), service)
  {
    var conf := ImplicitRoute(service, now).Conf();
    assert conf == [conf[0]] && conf[0].tags == MatchService(service) && conf[0].weight != 0;
    assert conf[1..] == [];
    assert Weighted(conf) == [conf[0]];
    ClustersAreWeighted(naming, conf);
    NoOtherTags(naming(service, MatchService(service)), service);
    ScanIsAll(AllInbounds(mesh), service);
    hide Clusters, OfService, AllInbounds, DirectScan, Backends;
  }

  /** The endpoints of all inbounds of a service that have a valid interface. */
  function Backends(inbound: seq<Inbound>, service: string): seq<Endpoint> {
    if inbound == [] then []
    else
      var last := inbound[|inbound| - 1];
      Backends(inbound[..|inbound| - 1], service) +
      if SERVICE_TAG in last.tags && last.tags[SERVICE_TAG] == service && last.iface.Ok?
      then [Endpoint(last.iface.value.ip, last.iface.value.port, last.tags)] else []
  }

  lemma {:induction false} ScanIsAll(inbound: seq<Inbound>, service: string)
    ensures DirectScan(OfService(inbound, service), MatchService(service)) == Backends(inbound, service)
  {
    if inbound != [] {
      var init, last := inbound[..|inbound| - 1], inbound[|inbound| - 1];
      ScanIsAll(init, service);
      DirectScanSnoc(OfService(init, service), last, MatchService(service));
      hide DirectScan;
    }
  }
}
