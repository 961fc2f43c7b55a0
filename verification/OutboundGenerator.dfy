/** The resources generated for the outbounds of a dataplane. */
module OutboundGenerator {
  import opened Basics
  import opened TagSelectors
  import opened PolicyModel
  import opened Topology
  import opened ResourceSets
  import opened Protocols
  import Decimal

  datatype OutboundInterface = OutboundInterface(ip: string, port: nat)

  datatype Proxy = Proxy(
    dataplane: Dataplane,
    ofaces: Result<seq<OutboundInterface>, string>,
    routes: map<string, Policy>,
    targets: Endpoints,
    healthChecks: map<string, string>)

  /** How the clusters of destinations are named. */
  type Naming = (string, Tags) -> string

  /** `GetOutboundListenerName` and `GetOutboundRouteName`. */
  function ListenerName(oface: OutboundInterface): string {
    "outbound:" + oface.ip + ":" + Decimal.Format(oface.port)
  }

  function RouteName(service: string): string {
    "outbound:" + service
  }

  datatype ClusterInfo = ClusterInfo(name: string, weight: nat, tags: Tags)

  datatype Error = BadInterface(message: string) | NoRoute(outbound: nat) | MissingServiceTag(outbound: nat, destination: nat)

  // ---------- what is emitted ----------

  predicate HaveService(conf: seq<Destination>) {
    forall j :: 0 <= j < |conf| ==> SERVICE_TAG in conf[j].tags
  }

  function Clusters(naming: Naming, conf: seq<Destination>): (cs: seq<ClusterInfo>)
    requires HaveService(conf)
    ensures forall c :: c in cs ==> SERVICE_TAG in c.tags
  {
    if conf == [] then []
    else
      var last := conf[|conf| - 1];
      var rest := Clusters(naming, conf[..|conf| - 1]);
      if last.weight == 0 then rest
      else rest + [ClusterInfo(naming(last.tags[SERVICE_TAG], last.tags), last.weight, last.tags)]
  }

  function EndpointsOf(proxy: Proxy, c: ClusterInfo): seq<Endpoint> {
    Filtered(At(proxy.targets, ServiceOf(c.tags)), c.tags)
  }

  function ClusterResource(proxy: Proxy, c: ClusterInfo): Resource {
    var service := ServiceOf(c.tags);
    Resource(c.name, Cluster(if service in proxy.healthChecks then Some(proxy.healthChecks[service]) else None))
  }

  function AssignmentResource(proxy: Proxy, c: ClusterInfo): Resource {
    Resource(c.name, LoadAssignment(EndpointsOf(proxy, c)))
  }

  function EdsResources(proxy: Proxy, cs: seq<ClusterInfo>): seq<Resource> {
    if cs == [] then []
    else
      var last := cs[|cs| - 1];
      EdsResources(proxy, cs[..|cs| - 1]) + [ClusterResource(proxy, last), AssignmentResource(proxy, last)]
  }

  function AllEndpoints(proxy: Proxy, cs: seq<ClusterInfo>): seq<Endpoint> {
    if cs == [] then [] else AllEndpoints(proxy, cs[..|cs| - 1]) + EndpointsOf(proxy, cs[|cs| - 1])
  }

  /** `tcpProxy` and `routeAction`: weights matter only between several clusters. */
  function SharesOf(cs: seq<ClusterInfo>): Shares {
    if |cs| == 1 then All(cs[0].name)
    else ByWeight(seq(|cs|, i requires 0 <= i < |cs| => Share(cs[i].name, cs[i].weight)))
  }

  function ListenerResource(oface: OutboundInterface, service: string, http: bool, cs: seq<ClusterInfo>): Resource {
    Resource(ListenerName(oface), Listener(if http then ViaRoute(RouteName(service)) else ToClusters(SharesOf(cs))))
  }

  function RdsResources(service: string, http: bool, cs: seq<ClusterInfo>): seq<Resource> {
    if http then [Resource(RouteName(service), RouteConfiguration(SharesOf(cs)))] else []
  }

  /** All that is emitted for one outbound. */
  function Emitted(proxy: Proxy, oface: OutboundInterface, service: string, cs: seq<ClusterInfo>): seq<Resource> {
    var http := AllHttp(AllEndpoints(proxy, cs));
    EdsResources(proxy, cs) + [ListenerResource(oface, service, http, cs)] + RdsResources(service, http, cs)
  }

  /** The outbound has a route, and all destinations of the route name a service. */
  predicate Routable(proxy: Proxy, service: string) {
    service in proxy.routes && HaveService(proxy.routes[service].Conf())
  }

  function ClustersOf(naming: Naming, proxy: Proxy, service: string): (cs: seq<ClusterInfo>)
    requires Routable(proxy, service)
    ensures forall c :: c in cs ==> SERVICE_TAG in c.tags
  {
    Clusters(naming, proxy.routes[service].Conf())
  }

  predicate AllRoutable(proxy: Proxy, n: nat)
    requires n <= |proxy.dataplane.outbound|
  {
    forall i :: 0 <= i < n ==> Routable(proxy, proxy.dataplane.outbound[i])
  }

  predicate WellFormed(proxy: Proxy) {
    proxy.ofaces.Ok? ==> |proxy.ofaces.value| == |proxy.dataplane.outbound|
  }

  function EmittedFor(naming: Naming, proxy: Proxy, i: nat): seq<Resource>
    requires WellFormed(proxy) && proxy.ofaces.Ok? && i < |proxy.dataplane.outbound| && Routable(proxy, proxy.dataplane.outbound[i])
  {
    var service := proxy.dataplane.outbound[i];
    Emitted(proxy, proxy.ofaces.value[i], service, ClustersOf(naming, proxy, service))
  }

  /** All that is emitted for the first `n` outbounds, in order. */
  function EmittedAll(naming: Naming, proxy: Proxy, n: nat): seq<Resource>
    requires WellFormed(proxy) && proxy.ofaces.Ok? && n <= |proxy.dataplane.outbound| && AllRoutable(proxy, n)
  {
    if n == 0 then [] else EmittedAll(naming, proxy, n - 1) + EmittedFor(naming, proxy, n - 1)
  }

  // ---------- the generator ----------

  predicate IsFirstMissing(conf: seq<Destination>, j: nat) {
    j < |conf| && SERVICE_TAG !in conf[j].tags && HaveService(conf[..j])
  }

  /** The error is about outbound `i`, and says what is wrong with it. */
  predicate Blames(proxy: Proxy, i: nat, error: Error)
    requires i < |proxy.dataplane.outbound|
  {
    var service := proxy.dataplane.outbound[i];
    match error
    case BadInterface(_) => false
    case NoRoute(outbound) => outbound == i && service !in proxy.routes
    case MissingServiceTag(outbound, j) => outbound == i && service in proxy.routes && IsFirstMissing(proxy.routes[service].Conf(), j)
  }

  /** The clusters, or the position of the first destination without a service. */
  method DetermineClusters(naming: Naming, conf: seq<Destination>) returns (r: Result<seq<ClusterInfo>, nat>)
    ensures r.Ok? <==> HaveService(conf)
    ensures r.Ok? ==> r.value == Clusters(naming, conf)
    ensures r.Err? ==> IsFirstMissing(conf, r.error)
  {
    var clusters: seq<ClusterInfo> := [];
    for j := 0 to |conf|
      invariant HaveService(conf[..j]) && clusters == Clusters(naming, conf[..j])
    {
      if SERVICE_TAG !in conf[j].tags {
        return Err(j);
      }
      assert conf[..j + 1][..j] == conf[..j];
      if conf[j].weight == 0 {
        continue;
      }
      var service := conf[j].tags[SERVICE_TAG];
      clusters := clusters + [ClusterInfo(naming(service, conf[j].tags), conf[j].weight, conf[j].tags)];
    }
    assert conf[..|conf|] == conf;
    return Ok(clusters);
  }

  method GenerateEds(proxy: Proxy, clusters: seq<ClusterInfo>) returns (resources: seq<Resource>, allEndpoints: seq<Endpoint>)
    ensures resources == EdsResources(proxy, clusters) && allEndpoints == AllEndpoints(proxy, clusters)
  {
    resources, allEndpoints := [], [];
    for k := 0 to |clusters|
      invariant resources == EdsResources(proxy, clusters[..k]) && allEndpoints == AllEndpoints(proxy, clusters[..k])
    {
      assert clusters[..k + 1][..k] == clusters[..k];
      var cluster := clusters[k];
      var service := ServiceOf(cluster.tags);
      var healthCheck := if service in proxy.healthChecks then Some(proxy.healthChecks[service]) else None;
      resources := resources + [Resource(cluster.name, Cluster(healthCheck))];
      var endpoints := Filter(At(proxy.targets, service), cluster.tags);
      resources := resources + [Resource(cluster.name, LoadAssignment(endpoints))];
      allEndpoints := allEndpoints + endpoints;
    }
    assert clusters[..|clusters|] == clusters;
  }

  /** One outbound. */
  method GenerateOutbound(naming: Naming, proxy: Proxy, i: nat, resources: ResourceSet) returns (error: Option<Error>)
    requires WellFormed(proxy) && proxy.ofaces.Ok? && i < |proxy.dataplane.outbound| && resources.Valid()
    modifies resources
    ensures resources.Valid()
    ensures error.None? <==> Routable(proxy, proxy.dataplane.outbound[i])
    ensures error.None? ==> resources.resources == AddAll(old(resources.resources), EmittedFor(naming, proxy, i))
    ensures error.Some? ==> Blames(proxy, i, error.value)
  {
    hide AddAll, EdsResources, AllEndpoints, Clusters, Lookup;
    var service := proxy.dataplane.outbound[i];
    if service !in proxy.routes {
      return Some(NoRoute(i));
    }
    var clusters := DetermineClusters(naming, proxy.routes[service].Conf());
    if clusters.Err? {
      return Some(MissingServiceTag(i, clusters.error));
    }
    var cs := clusters.value;
    var eds, endpoints := GenerateEds(proxy, cs);
    resources.Add(eds);
    var protocol := InferServiceProtocol(endpoints);
    var http := protocol.HttpProtocol?;
    var listener := ListenerResource(proxy.ofaces.value[i], service, http, cs);
    resources.Add([listener]);
    AddAllConcat(old(resources.resources), eds, [listener]);
    var rds := RdsResources(service, http, cs);
    resources.Add(rds);
    AddAllConcat(old(resources.resources), eds + [listener], rds);
    error := None;
  }

  lemma AddEmitted(naming: Naming, proxy: Proxy, i: nat)
    requires WellFormed(proxy) && proxy.ofaces.Ok? && i < |proxy.dataplane.outbound| && AllRoutable(proxy, i + 1)
    ensures AddAll(AddAll([], EmittedAll(naming, proxy, i)), EmittedFor(naming, proxy, i)) == AddAll([], EmittedAll(naming, proxy, i + 1))
  {
    hide EmittedFor, AddAll;
    AddAllConcat([], EmittedAll(naming, proxy, i), EmittedFor(naming, proxy, i));
  }

  method GenerateAll(naming: Naming, proxy: Proxy, resources: ResourceSet) returns (error: Option<Error>)
    requires WellFormed(proxy) && proxy.ofaces.Ok? && resources.Valid() && resources.resources == []
    modifies resources
    ensures resources.Valid()
    ensures error.None? <==> AllRoutable(proxy, |proxy.dataplane.outbound|)
    ensures error.None? ==> resources.resources == AddAll([], EmittedAll(naming, proxy, |proxy.dataplane.outbound|))
    ensures error.Some? ==> exists i :: 0 <= i < |proxy.dataplane.outbound| && AllRoutable(proxy, i) && Blames(proxy, i, error.value)
  {
    assert resources.resources == AddAll([], EmittedAll(naming, proxy, 0));
    hide EmittedFor, EmittedAll, AddAll, Routable, Lookup, Blames;
    for i := 0 to |proxy.dataplane.outbound|
      invariant resources.Valid() && AllRoutable(proxy, i)
      invariant resources.resources == AddAll([], EmittedAll(naming, proxy, i))
    {
      error := GenerateOutbound(naming, proxy, i, resources);
      if error.Some? {
        return;
      }
      AddEmitted(naming, proxy, i);
    }
    error := None;
  }

  /** The result is the set of all that is emitted, or an error about the first bad outbound. */
  method Generate(naming: Naming, proxy: Proxy) returns (r: Result<seq<Resource>, Error>)
    requires WellFormed(proxy)
    ensures proxy.dataplane.outbound == [] ==> r == Ok([])
    ensures proxy.dataplane.outbound != [] && proxy.ofaces.Err? ==> r == Err(BadInterface(proxy.ofaces.error))
    ensures proxy.dataplane.outbound != [] && proxy.ofaces.Ok? ==> (r.Ok? <==> AllRoutable(proxy, |proxy.dataplane.outbound|))
    ensures proxy.dataplane.outbound != [] && r.Ok? ==>
              proxy.ofaces.Ok? && r.value == AddAll([], EmittedAll(naming, proxy, |proxy.dataplane.outbound|))
    ensures proxy.ofaces.Ok? && r.Err? ==>
              exists i :: 0 <= i < |proxy.dataplane.outbound| && AllRoutable(proxy, i) && Blames(proxy, i, r.error)
  {
    hide EmittedAll, AddAll, Lookup, Routable, Blames;
    if |proxy.dataplane.outbound| == 0 {
      return Ok([]);
    }
    var resources := new ResourceSet();
    if proxy.ofaces.Err? {
      return Err(BadInterface(proxy.ofaces.error));
    }
    var error := GenerateAll(naming, proxy, resources);
    if error.Some? {
      return Err(error.value);
    }
    var list := resources.List();
    return Ok(list);
  }
}
