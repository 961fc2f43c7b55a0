/** From routes to selectors to endpoints, and why the detour finds what a direct scan would. */
module Topology {
  import opened Basics
  import opened TagSelectors
  import opened PolicyModel
  import opened PolicyMatcher

  // ---------- routes ----------

  const IMPLICIT_ROUTE_NAME := "(implicit default route)"

  function MatchService(service: string): Tags {
    map[SERVICE_TAG := service]
  }

  /** All traffic to the service itself. */
  function ImplicitRoute(service: string, now: int): Policy {
    ConnectionPolicy(IMPLICIT_ROUTE_NAME, now, [MatchService(MATCH_ALL)], [MatchService(service)], [Destination(100, MatchService(service))])
  }

  method CompleteRoutes(outbound: seq<string>, selected: map<string, Policy>, now: int) returns (m: map<string, Policy>)
    ensures forall s :: s in m <==> s in outbound
    ensures forall s :: s in m ==> m[s] == if s in selected then selected[s] else ImplicitRoute(s, now)
  {
    hide ImplicitRoute;
    m := map[];
    for i := 0 to |outbound|
      invariant forall s :: s in m <==> s in outbound[..i]
      invariant forall s :: s in m ==> m[s] == if s in selected then selected[s] else ImplicitRoute(s, now)
    {
      var service := outbound[i];
      if service in selected {
        m := m[service := selected[service]];
      } else {
        m := m[service := ImplicitRoute(service, now)];
      }
    }
    assert outbound[..|outbound|] == outbound;
  }

  /** Every outbound has a route: the selected one, or the implicit one. */
  method BuildRouteMap(dp: Dataplane, routes: seq<Policy>, now: int) returns (m: map<string, Policy>)
    ensures forall s :: s in m <==> s in dp.outbound
    ensures forall s :: s in m && Select(routes, ToService(dp, s)).Some? ==> Select(routes, ToService(dp, s)) == Some(m[s])
    ensures forall s :: s in m && Select(routes, ToService(dp, s)).None? ==> m[s] == ImplicitRoute(s, now)
  {
    hide Select, SortedPolicies, ImplicitRoute;
    var policies := new Policy[|routes|](i requires 0 <= i < |routes| => routes[i]);
    assert policies[..] == routes;
    var services := new ServiceIterator.ToOutboundServicesOf(dp);
    var selected := SelectConnectionPolicies(dp, services, policies);
    m := CompleteRoutes(dp.outbound, selected, now);
  }

  // ---------- selectors ----------

  /** `TagSelectorSet.Add`. */
  method AddSelector(s: seq<Tags>, added: Tags) returns (r: seq<Tags>)
    ensures r == WithSelector(s, added)
  {
    for i := 0 to |s|
      invariant added !in s[..i]
    {
      if added == s[i] {
        return s;
      }
    }
    assert s[..|s|] == s;
    return s + [added];
  }

  function WithSelector(s: seq<Tags>, added: Tags): seq<Tags> {
    if added in s then s else s + [added]
  }

  type Selectors = map<string, seq<Tags>>

  function At<T>(m: map<string, seq<T>>, key: string): seq<T> {
    if key in m then m[key] else []
  }

  function Grouped(selectors: seq<Tags>): Selectors
    requires forall s :: s in selectors ==> SERVICE_TAG in s
  {
    if selectors == [] then map[]
    else
      var last := selectors[|selectors| - 1];
      var m := Grouped(selectors[..|selectors| - 1]);
      m[last[SERVICE_TAG] := WithSelector(At(m, last[SERVICE_TAG]), last)]
  }

  /** Grouping neither loses nor invents selectors, and no group holds one twice. */
  lemma {:induction false} GroupedMeans(selectors: seq<Tags>, service: string)
    requires forall s :: s in selectors ==> SERVICE_TAG in s
    ensures forall s :: s in At(Grouped(selectors), service) <==> s in selectors && s[SERVICE_TAG] == service
    ensures var group := At(Grouped(selectors), service); forall i, j :: 0 <= i < j < |group| ==> group[i] != group[j]
    ensures service in Grouped(selectors) <==> exists s :: s in selectors && s[SERVICE_TAG] == service
  {
    if selectors != [] {
      var init, last := selectors[..|selectors| - 1], selectors[|selectors| - 1];
      GroupedMeans(init, service);
      assert selectors == init + [last];
      var m := Grouped(init);
      assert Grouped(selectors) == m[last[SERVICE_TAG] := WithSelector(At(m, last[SERVICE_TAG]), last)];
      hide Grouped;
    }
  }

  /** The destinations of a route that name a service. */
  function Named(conf: seq<Destination>): (r: seq<Tags>)
    ensures forall s :: s in r ==> SERVICE_TAG in s
    ensures forall d :: d in conf && SERVICE_TAG in d.tags ==> d.tags in r
  {
    if conf == [] then []
    else
      var last := conf[|conf| - 1];
      assert conf == conf[..|conf| - 1] + [last];
      var rest := Named(conf[..|conf| - 1]);
      if SERVICE_TAG in last.tags then rest + [last.tags] else rest
  }

  function SelectorsFor(service: string, routes: map<string, Policy>): (r: seq<Tags>)
    ensures forall s :: s in r ==> SERVICE_TAG in s
  {
    if service in routes then Named(routes[service].Conf()) else [MatchService(service)]
  }

  function ReachableSelectors(outbound: seq<string>, routes: map<string, Policy>): (r: seq<Tags>)
    ensures forall s :: s in r ==> SERVICE_TAG in s
    ensures forall o, s :: o in outbound && s in SelectorsFor(o, routes) ==> s in r
  {
    if outbound == [] then []
    else
      assert outbound == outbound[..|outbound| - 1] + [outbound[|outbound| - 1]];
      ReachableSelectors(outbound[..|outbound| - 1], routes) + SelectorsFor(outbound[|outbound| - 1], routes)
  }

  lemma GroupedSnoc(selectors: seq<Tags>, added: Tags)
    requires SERVICE_TAG in added && forall s :: s in selectors ==> SERVICE_TAG in s
    ensures var m := Grouped(selectors);
            Grouped(selectors + [added]) == m[added[SERVICE_TAG] := WithSelector(At(m, added[SERVICE_TAG]), added)]
  {
    assert (selectors + [added])[..|selectors|] == selectors;
  }

  method AddDestinations(m: Selectors, conf: seq<Destination>, ghost before: seq<Tags>) returns (r: Selectors)
    requires (forall s :: s in before ==> SERVICE_TAG in s) && m == Grouped(before)
    ensures r == Grouped(before + Named(conf))
  {
    r := m;
    assert before + [] == before;
    for k := 0 to |conf|
      invariant r == Grouped(before + Named(conf[..k]))
    {
      assert conf[..k + 1][..k] == conf[..k];
      if SERVICE_TAG in conf[k].tags {
        var service := conf[k].tags[SERVICE_TAG];
        ghost var seen := before + Named(conf[..k]);
        GroupedSnoc(seen, conf[k].tags);
        assert seen + [conf[k].tags] == before + Named(conf[..k + 1]);
        var group := AddSelector(At(r, service), conf[k].tags);
        r := r[service := group];
      } else {
        assert Named(conf[..k + 1]) == Named(conf[..k]);
      }
    }
    assert conf[..|conf|] == conf;
  }

  lemma ReachableSnoc(outbound: seq<string>, i: nat, routes: map<string, Policy>)
    requires i < |outbound|
    ensures ReachableSelectors(outbound[..i + 1], routes) == ReachableSelectors(outbound[..i], routes) + SelectorsFor(outbound[i], routes)
  {
    assert outbound[..i + 1][..i] == outbound[..i];
  }

  /** Where an outbound may lead: to the destinations of its route that name a service or, without a route,
      to the service itself. */
  ghost predicate LeadsTo(o: string, routes: map<string, Policy>, selector: Tags) {
    if o in routes then exists d :: d in routes[o].Conf() && d.tags == selector && SERVICE_TAG in selector
    else selector == map[SERVICE_TAG := o]
  }

  lemma {:induction false} NamedComesFrom(conf: seq<Destination>, selector: Tags)
    requires selector in Named(conf)
    ensures exists d :: d in conf && d.tags == selector && SERVICE_TAG in selector
  {
    var init, last := conf[..|conf| - 1], conf[|conf| - 1];
    assert conf == init + [last];
    if selector in Named(init) {
      NamedComesFrom(init, selector);
    }
  }

  lemma SelectorsLead(o: string, routes: map<string, Policy>, selector: Tags)
    ensures selector in SelectorsFor(o, routes) <==> LeadsTo(o, routes, selector)
  {
    if o in routes && selector in SelectorsFor(o, routes) {
      NamedComesFrom(routes[o].Conf(), selector);
    }
  }

  lemma {:induction false} ReachableMeans(outbound: seq<string>, routes: map<string, Policy>, selector: Tags)
    ensures selector in ReachableSelectors(outbound, routes) <==> exists o :: o in outbound && LeadsTo(o, routes, selector)
  {
    if outbound != [] {
      var init, last := outbound[..|outbound| - 1], outbound[|outbound| - 1];
      ReachableMeans(init, routes, selector);
      SelectorsLead(last, routes, selector);
      assert outbound == init + [last];
      hide LeadsTo, SelectorsFor;
    }
  }

  /** The destinations of a service are exactly the selectors with that service to which an outbound leads. */
  lemma DestinationsMean(dp: Dataplane, routes: map<string, Policy>, service: string, selector: Tags)
    ensures selector in At(Grouped(ReachableSelectors(dp.outbound, routes)), service) <==>
            SERVICE_TAG in selector && selector[SERVICE_TAG] == service && exists o :: o in dp.outbound && LeadsTo(o, routes, selector)
  {
    var reachable := ReachableSelectors(dp.outbound, routes);
    ReachableMeans(dp.outbound, routes, selector);
    hide LeadsTo, ReachableSelectors, Grouped;
    GroupedMeans(reachable, service);
  }

  method BuildDestinationMap(dp: Dataplane, routes: map<string, Policy>) returns (m: Selectors)
    ensures m == Grouped(ReachableSelectors(dp.outbound, routes))
  {
    m := map[];
    assert m == Grouped(ReachableSelectors(dp.outbound[..0], routes));
    hide Grouped, Named, ReachableSelectors;
    for i := 0 to |dp.outbound|
      invariant m == Grouped(ReachableSelectors(dp.outbound[..i], routes))
    {
      var service := dp.outbound[i];
      ghost var before := ReachableSelectors(dp.outbound[..i], routes);
      ReachableSnoc(dp.outbound, i, routes);
      if service in routes {
        m := AddDestinations(m, routes[service].Conf(), before);
      } else {
        GroupedSnoc(before, MatchService(service));
        var group := AddSelector(At(m, service), MatchService(service));
        m := m[service := group];
      }
    }
    assert dp.outbound[..|dp.outbound|] == dp.outbound;
  }

  // ---------- endpoints ----------

  datatype Endpoint = Endpoint(target: string, port: nat, tags: Tags)

  type Endpoints = map<string, seq<Endpoint>>

  /** `inbound.Tags["service"]`: empty if there is no such tag. */
  function ServiceOf(tags: Tags): string {
    if SERVICE_TAG in tags then tags[SERVICE_TAG] else ""
  }

  predicate SomeMatches(selectors: seq<Tags>, tags: Tags) {
    exists i :: 0 <= i < |selectors| && Matches(selectors[i], tags)
  }

  function EndpointOf(inbound: Inbound): Endpoint
    requires inbound.iface.Ok?
  {
    Endpoint(inbound.iface.value.ip, inbound.iface.value.port, inbound.tags)
  }

  function WithInbound(m: Endpoints, destinations: Selectors, inbound: Inbound): Endpoints {
    var service := ServiceOf(inbound.tags);
    if service in destinations && SomeMatches(destinations[service], inbound.tags) && inbound.iface.Ok?
    then m[service := At(m, service) + [EndpointOf(inbound)]]
    else m
  }

  function Indexed(inbound: seq<Inbound>, destinations: Selectors): Endpoints {
    if inbound == [] then map[]
    else WithInbound(Indexed(inbound[..|inbound| - 1], destinations), destinations, inbound[|inbound| - 1])
  }

  /** All inbounds of the mesh, in order. */
  function AllInbounds(dps: seq<Dataplane>): seq<Inbound> {
    if dps == [] then [] else AllInbounds(dps[..|dps| - 1]) + dps[|dps| - 1].inbound
  }

  method IndexInbound(m: Endpoints, destinations: Selectors, inbound: Inbound) returns (r: Endpoints)
    ensures r == WithInbound(m, destinations, inbound)
  {
    var service := ServiceOf(inbound.tags);
    if service !in destinations {
      return m;
    }
    var selectors, matches := destinations[service], false;
    for k := 0 to |selectors|
      invariant matches <==> SomeMatches(selectors[..k], inbound.tags)
      invariant !matches
    {
      matches := MatchesTags(selectors[k], inbound.tags);
      if matches {
        assert SomeMatches(selectors, inbound.tags);
        break;
      }
    }
    if !matches {
      return m;
    }
    if inbound.iface.Err? {
      return m;
    }
    r := m[service := At(m, service) + [Endpoint(inbound.iface.value.ip, inbound.iface.value.port, inbound.tags)]];
  }

  lemma {:induction false} NothingIndexed(inbound: seq<Inbound>)
    ensures Indexed(inbound, map[]) == map[]
  {
    if inbound != [] {
      NothingIndexed(inbound[..|inbound| - 1]);
    }
  }

  lemma IndexedSnoc(inbound: seq<Inbound>, last: Inbound, destinations: Selectors)
    ensures Indexed(inbound + [last], destinations) == WithInbound(Indexed(inbound, destinations), destinations, last)
  {
    hide WithInbound;
    assert (inbound + [last])[..|inbound|] == inbound;
  }

  /** The inbounds of one dataplane. */
  method IndexDataplane(m: Endpoints, destinations: Selectors, inbound: seq<Inbound>, ghost before: seq<Inbound>) returns (r: Endpoints)
    requires m == Indexed(before, destinations)
    ensures r == Indexed(before + inbound, destinations)
  {
    hide *;
    r := m;
    assert before + inbound[..0] == before;
    for k := 0 to |inbound|
      invariant r == Indexed(before + inbound[..k], destinations)
    {
      IndexedSnoc(before + inbound[..k], inbound[k], destinations);
      assert before + inbound[..k + 1] == before + inbound[..k] + [inbound[k]];
      r := IndexInbound(r, destinations, inbound[k]);
    }
    assert inbound[..|inbound|] == inbound;
  }

  method BuildEndpointMap(destinations: Selectors, dps: seq<Dataplane>) returns (m: Endpoints)
    ensures m == Indexed(AllInbounds(dps), destinations)
  {
    m := map[];
    if |destinations| == 0 {
      NothingIndexed(AllInbounds(dps));
      return;
    }
    assert m == Indexed(AllInbounds(dps[..0]), destinations);
    hide Indexed;
    for i := 0 to |dps|
      invariant m == Indexed(AllInbounds(dps[..i]), destinations)
    {
      m := IndexDataplane(m, destinations, dps[i].inbound, AllInbounds(dps[..i]));
      assert dps[..i + 1][..i] == dps[..i];
    }
    assert dps[..|dps|] == dps;
  }

  function Filtered(endpoints: seq<Endpoint>, selector: Tags): seq<Endpoint> {
    if endpoints == [] then []
    else
      var last := endpoints[|endpoints| - 1];
      var rest := Filtered(endpoints[..|endpoints| - 1], selector);
      if Matches(selector, last.tags) then rest + [last] else rest
  }

  /** `EndpointList.Filter`. */
  method Filter(endpoints: seq<Endpoint>, selector: Tags) returns (r: seq<Endpoint>)
    ensures r == Filtered(endpoints, selector)
  {
    r := [];
    for i := 0 to |endpoints|
      invariant r == Filtered(endpoints[..i], selector)
    {
      assert endpoints[..i + 1][..i] == endpoints[..i];
      if Matches(selector, endpoints[i].tags) {
        r := r + [endpoints[i]];
      }
    }
    assert endpoints[..|endpoints|] == endpoints;
  }

  // ---------- the direct scan ----------

  /** The endpoints a selector stands for: every inbound of the mesh that matches it and has a valid
      interface. */
  function DirectScan(inbound: seq<Inbound>, selector: Tags): seq<Endpoint> {
    if inbound == [] then []
    else
      var last := inbound[|inbound| - 1];
      var rest := DirectScan(inbound[..|inbound| - 1], selector);
      if Matches(selector, last.tags) && last.iface.Ok? then rest + [EndpointOf(last)] else rest
  }

  lemma FilteredSnoc(endpoints: seq<Endpoint>, e: Endpoint, selector: Tags)
    ensures Filtered(endpoints + [e], selector)
         == if Matches(selector, e.tags) then Filtered(endpoints, selector) + [e] else Filtered(endpoints, selector)
  {
    assert (endpoints + [e])[..|endpoints|] == endpoints;
  }

  /** The inbounds whose service tag is literally this one. */
  function OfService(inbound: seq<Inbound>, service: string): seq<Inbound> {
    if inbound == [] then []
    else
      var last := inbound[|inbound| - 1];
      var rest := OfService(inbound[..|inbound| - 1], service);
      if ServiceOf(last.tags) == service then rest + [last] else rest
  }

  lemma DirectScanSnoc(inbound: seq<Inbound>, last: Inbound, selector: Tags)
    ensures DirectScan(inbound + [last], selector)
         == if Matches(selector, last.tags) && last.iface.Ok? then DirectScan(inbound, selector) + [EndpointOf(last)]
            else DirectScan(inbound, selector)
  {
    assert (inbound + [last])[..|inbound|] == inbound;
  }

  /** One more inbound, on the side of the index... */
  lemma IndexStep(m: Endpoints, destinations: Selectors, selector: Tags, last: Inbound)
    requires SERVICE_TAG in selector && selector in At(destinations, selector[SERVICE_TAG])
    ensures var service := selector[SERVICE_TAG];
            var before := Filtered(At(m, service), selector);
            Filtered(At(WithInbound(m, destinations, last), service), selector) ==
            if Matches(selector, last.tags) && last.iface.Ok? && ServiceOf(last.tags) == service then before + [EndpointOf(last)] else before
  {
    hide Matches, SomeMatches, Filtered;
    var service := selector[SERVICE_TAG];
    if last.iface.Ok? {
      FilteredSnoc(At(m, service), EndpointOf(last), selector);
    }
    if Matches(selector, last.tags) {
      OneMatches(destinations[service], selector, last.tags);
    }
  }

  lemma OneMatches(selectors: seq<Tags>, selector: Tags, tags: Tags)
    requires selector in selectors && Matches(selector, tags)
    ensures SomeMatches(selectors, tags)
  {
    hide Matches;
    var i :| 0 <= i < |selectors| && selectors[i] == selector;
  }

  /** ...and on the side of the scan. */
  lemma ScanStep(inbound: seq<Inbound>, selector: Tags, service: string)
    requires inbound != []
    ensures var last := inbound[|inbound| - 1];
            var before := DirectScan(OfService(inbound[..|inbound| - 1], service), selector);
            DirectScan(OfService(inbound, service), selector) ==
            if Matches(selector, last.tags) && last.iface.Ok? && ServiceOf(last.tags) == service then before + [EndpointOf(last)] else before
  {
    DirectScanSnoc(OfService(inbound[..|inbound| - 1], service), inbound[|inbound| - 1], selector);
    hide Matches, DirectScan;
  }

  /** The index, filtered by one of its selectors, holds exactly the inbounds of that service that a
      direct scan finds: same endpoints, same order, same multiplicity. */
  lemma {:induction false} IndexAgrees(inbound: seq<Inbound>, destinations: Selectors, selector: Tags)
    requires SERVICE_TAG in selector && selector in At(destinations, selector[SERVICE_TAG])
    ensures Filtered(At(Indexed(inbound, destinations), selector[SERVICE_TAG]), selector)
         == DirectScan(OfService(inbound, selector[SERVICE_TAG]), selector)
  {
    if inbound != [] {
      hide *;
      var init, last := inbound[..|inbound| - 1], inbound[|inbound| - 1];
      IndexAgrees(init, destinations, selector);
      IndexedSnoc(init, last, destinations);
      assert inbound == init + [last];
      IndexStep(Indexed(init, destinations), destinations, selector, last);
      ScanStep(inbound, selector, selector[SERVICE_TAG]);
    }
  }

  /** A matching inbound with a valid interface that carries another service tag: the index, which
      is looked up by the selector's own service, misses it. */
  ghost predicate Missed(inbound: Inbound, selector: Tags)
    requires SERVICE_TAG in selector
  {
    Matches(selector, inbound.tags) && inbound.iface.Ok? && ServiceOf(inbound.tags) != selector[SERVICE_TAG]
  }

  lemma {:induction false} ScanOfService(inbound: seq<Inbound>, selector: Tags)
    requires SERVICE_TAG in selector
    ensures var own, all := DirectScan(OfService(inbound, selector[SERVICE_TAG]), selector), DirectScan(inbound, selector);
            && |own| <= |all|
            && (own == all <==> |own| == |all|)
            && (|own| == |all| <==> forall i :: 0 <= i < |inbound| ==> !Missed(inbound[i], selector))
  {
    if inbound != [] {
      var init, last := inbound[..|inbound| - 1], inbound[|inbound| - 1];
      ScanOfService(init, selector);
      assert inbound == init + [last];
      DirectScanSnoc(init, last, selector);
      DirectScanSnoc(OfService(init, selector[SERVICE_TAG]), last, selector);
      assert forall i :: 0 <= i < |init| ==> init[i] == inbound[i];
    }
  }

  /** Only the wildcard makes the index miss anything. */
  lemma ConcreteServiceMissesNothing(inbound: Inbound, selector: Tags)
    requires SERVICE_TAG in selector && selector[SERVICE_TAG] != MATCH_ALL
    ensures !Missed(inbound, selector)
  {}

  // ---------- the whole pipeline ----------

  /** What the generator looks up for a destination. */
  function LookedUp(dp: Dataplane, routes: map<string, Policy>, mesh: seq<Dataplane>, selector: Tags): seq<Endpoint>
    requires SERVICE_TAG in selector
  {
    var destinations := Grouped(ReachableSelectors(dp.outbound, routes));
    Filtered(At(Indexed(AllInbounds(mesh), destinations), selector[SERVICE_TAG]), selector)
  }

  lemma LookedUpIsOfService(dp: Dataplane, routes: map<string, Policy>, mesh: seq<Dataplane>, o: string, d: Destination)
    requires o in dp.outbound && o in routes && d in routes[o].Conf() && SERVICE_TAG in d.tags
    ensures LookedUp(dp, routes, mesh, d.tags) == DirectScan(OfService(AllInbounds(mesh), d.tags[SERVICE_TAG]), d.tags)
  {
    var reachable := ReachableSelectors(dp.outbound, routes);
    assert d.tags in SelectorsFor(o, routes);
    assert d.tags in reachable;
    GroupedMeans(reachable, d.tags[SERVICE_TAG]);
    hide ReachableSelectors, Grouped, AllInbounds, DirectScan, OfService;
    IndexAgrees(AllInbounds(mesh), Grouped(reachable), d.tags);
  }

  /** For every destination of a route of an outbound, the endpoints the generator looks up are those
      of the direct scan, exactly unless its service is the wildcard and some matching inbound has a
      service of its own. */
  lemma PipelineAgrees(dp: Dataplane, routes: map<string, Policy>, mesh: seq<Dataplane>, o: string, d: Destination)
    requires o in dp.outbound && o in routes && d in routes[o].Conf() && SERVICE_TAG in d.tags
    ensures LookedUp(dp, routes, mesh, d.tags) == DirectScan(AllInbounds(mesh), d.tags)
       <==> d.tags[SERVICE_TAG] != MATCH_ALL || forall i :: 0 <= i < |AllInbounds(mesh)| ==> !Missed(AllInbounds(mesh)[i], d.tags)
  {
    hide LookedUp, AllInbounds, DirectScan, OfService, Missed;
    LookedUpIsOfService(dp, routes, mesh, o, d);
    ScanOfService(AllInbounds(mesh), d.tags);
    if d.tags[SERVICE_TAG] != MATCH_ALL {
      forall i | 0 <= i < |AllInbounds(mesh)|
        ensures !Missed(AllInbounds(mesh)[i], d.tags)
      {
        ConcreteServiceMissesNothing(AllInbounds(mesh)[i], d.tags);
      }
    }
  }

  /** The failing family is not empty: a wildcard destination and one ordinary backend. */
  lemma WildcardServiceFindsNothing(o: string, service: string, iface: Interface)
    requires service != MATCH_ALL
    ensures var any, dp := MatchService(MATCH_ALL), Dataplane([], None, [o]);
            var backend := Dataplane([Inbound(MatchService(service), Ok(iface))], None, []);
            var routes := map[o := ConnectionPolicy(o, 0, [], [], [Destination(1, any)])];
            && LookedUp(dp, routes, [backend], any) == []
            && DirectScan(AllInbounds([backend]), any) == [Endpoint(iface.ip, iface.port, MatchService(service))]
  {
    var any, dp := MatchService(MATCH_ALL), Dataplane([], None, [o]);
    var backend := Dataplane([Inbound(MatchService(service), Ok(iface))], None, []);
    var routes := map[o := ConnectionPolicy(o, 0, [], [], [Destination(1, any)])];
    assert o in dp.outbound && Destination(1, any) in routes[o].Conf();
    assert AllInbounds([backend]) == [] + backend.inbound;
    hide LookedUp, AllInbounds;
    LookedUpIsOfService(dp, routes, [backend], o, Destination(1, any));
    DirectScanSnoc([], backend.inbound[0], any);
  }
}
