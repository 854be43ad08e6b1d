/** The routes of a compiled model in terms of the configuration: which hosts have one, and which
    replicas of which service are behind it. */
module CompiledRoutes {
  import opened Text
  import opened Order
  import opened Schema
  import opened Containers
  import opened Routes
  import opened Compiler
  import opened Compiled
  import opened CompiledNames

  /** A service that is to be reached from outside under `host`, and has an instance to reach. */
  ghost predicate Claimant(services: map<string, ServiceDecl>, name: string, host: string) {
    && name in services
    && !services[name].tunnelOnly && services[name].port != 0
    && host in services[name].EffectiveDomains()
    && services[name].ReplicaCount() >= 1
  }

  lemma InstanceClaimsHost(services: map<string, ServiceDecl>, c: ContainerModel, name: string, i: nat, host: string)
    requires IsInstance(services, c, name, i)
    ensures ClaimsHost(c, host) <==> Claimant(services, name, host)
    ensures c.serviceName == name && c.publicPort == services[name].port
    ensures c.name == ContainerName(name, services[name].replicas, i)
    ensures Owner(c) == if name == "" then c.name else name
  {
    hide TunnelPorts, ContainerName, ServiceDecl.EffectiveDomains;
  }

  lemma JobsClaimNothing(config: Config, c: ContainerModel, job: string, host: string)
    requires IsJob(config, c, job)
    ensures !ClaimsHost(c, host)
  {
    hide Container;
  }

  lemma ClaimingContainer(config: Config, c: ContainerModel, host: string) returns (name: string, i: nat)
    requires c in AllContainers(config) && ClaimsHost(c, host)
    ensures IsInstance(config.services, c, name, i) && Claimant(config.services, name, host)
  {
    hide *;
    ContainersAre(config, c);
    if s, j: nat :| IsInstance(config.services, c, s, j) {
      name, i := s, j;
      InstanceClaimsHost(config.services, c, name, i, host);
    } else {
      var job :| IsJob(config, c, job);
      JobsClaimNothing(config, c, job, host);
      assert false;
    }
  }

  lemma HostsAre(cs: seq<ContainerModel>, host: string)
    ensures host in Hosts(cs) <==> exists c :: c in cs && ClaimsHost(c, host)
  {
    if host in Hosts(cs) {
      var i :| 0 <= i < |cs| && IsPublic(cs[i]) && host in cs[i].publicDomains;
      assert cs[i] in cs;
    }
    if c :| c in cs && ClaimsHost(c, host) {
      var i :| 0 <= i < |cs| && cs[i] == c;
      assert IsPublic(cs[i]) && host in cs[i].publicDomains;
    }
  }

  lemma CompiledRoutesAre(config: Config)
    ensures var hosts := SortedSet(Hosts(AllContainers(config)));
      |Compile(config).routes| == |hosts|
      && forall k | 0 <= k < |hosts| ::
           Compile(config).routes[k] == Route(hosts[k], SortedSet(Upstreams(AllContainers(config), hosts[k])))
  {
    hide AllContainers, NetworkNames, SortedSet, Timers, AllVolumes, Sort, Hosts, Upstreams;
  }

  /** A host has a route exactly when a public service with a port claims it; hosts are strictly
      increasing, so it has one. Tunnel-only services and jobs never have any. */
  lemma RouteHosts(config: Config, host: string)
    ensures (exists r :: r in Compile(config).routes && r.host == host)
      <==> exists name :: Claimant(config.services, name, host)
    ensures HostsIncrease(Compile(config).routes)
  {
    hide *;
    var cs := AllContainers(config);
    CompiledRoutesAre(config);
    HostHasRoute(Compile(config).routes, Hosts(cs), host);
    HostsAre(cs, host);
    if c :| c in cs && ClaimsHost(c, host) {
      var name, i := ClaimingContainer(config, c, host);
    }
    if name :| Claimant(config.services, name, host) {
      ClaimantMeans(config.services, name, host);
      var c := TheInstance(config.services, name, 0);
      InstanceClaimsHost(config.services, c, name, 0, host);
      ContainersAre(config, c);
    }
  }

  lemma ClaimantMeans(services: map<string, ServiceDecl>, name: string, host: string)
    requires Claimant(services, name, host)
    ensures name in services && services[name].ReplicaCount() >= 1
  {
  }

  lemma HostHasRoute(routes: seq<Route>, hosts: set<string>, host: string)
    requires |routes| == |SortedSet(hosts)|
    requires forall k | 0 <= k < |routes| :: routes[k].host == SortedSet(hosts)[k]
    ensures host in hosts <==> exists r :: r in routes && r.host == host
    ensures HostsIncrease(routes)
  {
    var sorted := SortedSet(hosts);
    if host in hosts {
      var k := IndexIn(hosts, host);
      assert routes[k] in routes;
    }
    if r :| r in routes && r.host == host {
      var k :| 0 <= k < |routes| && routes[k] == r;
      assert sorted[k] in Elems(sorted);
    }
  }

  /** No service before `name` claims the host. */
  ghost predicate IsLeast(services: map<string, ServiceDecl>, name: string, host: string) {
    Claimant(services, name, host) && forall t | Claimant(services, t, host) :: !Less(t, name)
  }

  lemma LeastMeans(services: map<string, ServiceDecl>, name: string, host: string, t: string)
    requires IsLeast(services, name, host)
    ensures Claimant(services, name, host) && (Claimant(services, t, host) ==> !Less(t, name))
  {
  }

  /** The first container to claim a host is instance 0 of the least claimant. */
  lemma FirstClaims(config: Config, name: string, host: string) returns (c: ContainerModel)
    requires IsLeast(config.services, name, host)
    ensures IsInstance(config.services, c, name, 0)
    ensures Winner(AllContainers(config), host) == Some(Owner(c))
  {
    hide *;
    var services := config.services;
    var names, ports := SortedSet(services.Keys), TunnelPorts(services);
    AllServices(services);
    LeastMeans(services, name, host, name);
    ClaimantMeans(services, name, host);
    var k := IndexIn(services.Keys, name);
    var at := PositionOf(services, ports, names, k, 0);
    var cs, all := AllServiceContainers(services), AllContainers(config);
    ServicesFirst(config);
    c := cs[at];
    InstanceIs(services, c, name, 0);
    InstanceClaimsHost(services, c, name, 0, host);
    forall b: nat | b < at ensures !ClaimsHost(all[b], host) {
      NotEarlier(services, name, host, k, b, at);
      assert all[b] == cs[b];
    }
    FirstWins(all, host, at);
  }

  lemma InstanceIs(services: map<string, ServiceDecl>, c: ContainerModel, name: string, i: nat)
    requires name in services && i < services[name].ReplicaCount()
    requires c == Instance(name, services[name], TunnelPorts(services), i)
    ensures IsInstance(services, c, name, i)
  {
  }

  lemma ServicesFirst(config: Config)
    ensures AllServiceContainers(config.services) <= AllContainers(config)
  {
    hide AllServiceContainers, JobContainers, JobNames;
  }

  lemma FirstWins(cs: seq<ContainerModel>, host: string, at: nat)
    requires at < |cs| && ClaimsHost(cs[at], host)
    requires forall b: nat | b < at :: !ClaimsHost(cs[b], host)
    ensures Winner(cs, host) == Some(Owner(cs[at]))
  {
    WinnerMeans(cs, host);
    assert IsFirst(cs, host, at);
  }

  /** Containers before the first one of a service belong to services that come before it. */
  lemma NotEarlier(services: map<string, ServiceDecl>, name: string, host: string, k: nat, b: nat, at: nat)
    requires IsLeast(services, name, host)
    requires var names := SortedSet(services.Keys);
      Known(names, services) && k < |names| && names[k] == name
      && at == |ServiceContainers(services, TunnelPorts(services), names, k)|
    requires b < at <= |AllServiceContainers(services)|
    ensures !ClaimsHost(AllServiceContainers(services)[b], host)
  {
    hide *;
    var names, ports := SortedSet(services.Keys), TunnelPorts(services);
    AllServices(services);
    Longer(services, ports, names, k, |names|);
    var l, j := At(services, ports, names, k, b);
    var c := AllServiceContainers(services)[b];
    InstanceIs(services, c, names[l], j);
    InstanceClaimsHost(services, c, names[l], j, host);
    IncreasingAt(names, l, k);
    LeastMeans(services, name, host, names[l]);
  }

  lemma IncreasingAt(s: seq<string>, i: nat, j: nat)
    requires Increasing(s) && i < j < |s|
    ensures Less(s[i], s[j])
  {
  }

  function ReplicaUpstream(name: string, svc: ServiceDecl, i: nat): string {
    ContainerName(name, svc.replicas, i) + ":" + DecInt(svc.port)
  }

  ghost function ReplicaUpstreams(name: string, svc: ServiceDecl): set<string> {
    set i | 0 <= i < svc.ReplicaCount() :: ReplicaUpstream(name, svc, i)
  }

  /** Behind a host are all the replicas of the least-named service that claims it and no other
      container, if that service has a name. */
  lemma NamedRoute(config: Config, name: string, host: string, r: Route)
    requires IsLeast(config.services, name, host) && name != ""
    requires r in Compile(config).routes && r.host == host
    ensures Elems(r.upstreams) == ReplicaUpstreams(name, config.services[name])
  {
    hide *;
    var cs := AllContainers(config);
    CompiledRoutesAre(config);
    var c := FirstClaims(config, name, host);
    LeastMeans(config.services, name, host, name);
    ClaimantMeans(config.services, name, host);
    InstanceClaimsHost(config.services, c, name, 0, host);
    UpstreamsAre(cs, host, name);
    var k :| 0 <= k < |Compile(config).routes| && Compile(config).routes[k] == r;
    assert r.upstreams == SortedSet(Upstreams(cs, host));
    forall u ensures u in Upstreams(cs, host) <==> u in ReplicaUpstreams(name, config.services[name]) {
      ReplicasAre(name, config.services[name], u);
      if c :| c in cs && ClaimsHost(c, host) && Owner(c) == name && Upstream(c) == u {
        var t, i := ClaimingContainer(config, c, host);
        SameOwner(config.services, c, t, i, name, host);
      }
      if i: nat :| i < config.services[name].ReplicaCount() && ReplicaUpstream(name, config.services[name], i) == u {
        var c := TheInstance(config.services, name, i);
        ContainersAre(config, c);
        InstanceClaimsHost(config.services, c, name, i, host);
        UpstreamIs(config.services, c, name, i);
      }
    }
    assert Upstreams(cs, host) == ReplicaUpstreams(name, config.services[name]);
  }

  lemma ReplicasAre(name: string, svc: ServiceDecl, u: string)
    ensures u in ReplicaUpstreams(name, svc) <==>
      exists i: nat :: i < svc.ReplicaCount() && ReplicaUpstream(name, svc, i) == u
  {
    hide ReplicaUpstream;
  }

  lemma UpstreamIs(services: map<string, ServiceDecl>, c: ContainerModel, name: string, i: nat)
    requires IsInstance(services, c, name, i)
    ensures Upstream(c) == ReplicaUpstream(name, services[name], i)
  {
    hide ContainerName, DecInt, TunnelPorts;
  }

  lemma UpstreamsAre(cs: seq<ContainerModel>, host: string, owner: string)
    requires Winner(cs, host) == Some(owner)
    ensures forall u :: u in Upstreams(cs, host) <==>
      exists c :: c in cs && ClaimsHost(c, host) && Owner(c) == owner && Upstream(c) == u
  {
    hide Upstream, Owner, ClaimsHost;
    forall u ensures u in Upstreams(cs, host) <==>
      exists c :: c in cs && ClaimsHost(c, host) && Owner(c) == owner && Upstream(c) == u
    {
      if c :| c in cs && ClaimsHost(c, host) && Owner(c) == owner && Upstream(c) == u {
        var i :| 0 <= i < |cs| && cs[i] == c;
        assert Upstream(cs[i]) in UpstreamsOf(cs, host, owner);
      }
    }
  }

  /** Only an unnamed service could own containers under another service's name, and it would
      have come first itself. */
  lemma SameOwner(services: map<string, ServiceDecl>, c: ContainerModel, t: string, i: nat, name: string, host: string)
    requires IsInstance(services, c, t, i) && Claimant(services, t, host) && Owner(c) == name
    requires IsLeast(services, name, host) && name != ""
    ensures t == name && i < services[name].ReplicaCount()
    ensures Upstream(c) == ReplicaUpstream(name, services[name], i)
  {
    hide Claimant, Upstream, ReplicaUpstream, TunnelPorts;
    InstanceClaimsHost(services, c, t, i, host);
    LeastMeans(services, name, host, t);
    assert Less("", name);
    UpstreamIs(services, c, t, i);
  }

  /** The services whose containers stand behind a host that goes to the first replica of an unnamed
      service: containers of a service with an empty name stand for themselves, and for a service
      that is called as they are. */
  lemma UnnamedRoute(config: Config, host: string, r: Route, u: string)
    requires Claimant(config.services, "", host)
    requires r in Compile(config).routes && r.host == host
    ensures var svc := config.services[""];
      var own := ContainerName("", svc.replicas, 0);
      u in r.upstreams <==>
        || u == ReplicaUpstream("", svc, 0)
        || (Claimant(config.services, own, host) && u in ReplicaUpstreams(own, config.services[own]))
  {
    hide *;
    var services, cs := config.services, AllContainers(config);
    ClaimantMeans(services, "", host);
    var svc := services[""];
    var own := ContainerName("", svc.replicas, 0);
    EmptyIsLeast(services, host);
    CompiledRoutesAre(config);
    var first := FirstClaims(config, "", host);
    InstanceClaimsHost(services, first, "", 0, host);
    UpstreamIs(services, first, "", 0);
    UpstreamsAre(cs, host, own);
    var k :| 0 <= k < |Compile(config).routes| && Compile(config).routes[k] == r;
    assert Elems(r.upstreams) == Upstreams(cs, host);
    InElems(r.upstreams, u);
    if c :| c in cs && ClaimsHost(c, host) && Owner(c) == own && Upstream(c) == u {
      var t, i := ClaimingContainer(config, c, host);
      InstanceClaimsHost(services, c, t, i, host);
      UnnamedOwns(services, c, t, i, own, host);
    }
    ContainersAre(config, first);
    if Claimant(services, own, host) {
      ClaimantMeans(services, own, host);
      ReplicasAre(own, services[own], u);
      OwnIsNamed(svc.replicas);
      if i: nat :| i < services[own].ReplicaCount() && ReplicaUpstream(own, services[own], i) == u {
        var c := TheInstance(services, own, i);
        ContainersAre(config, c);
        InstanceClaimsHost(services, c, own, i, host);
        UpstreamIs(services, c, own, i);
      }
    }
  }

  lemma InElems(s: seq<string>, x: string)
    ensures x in Elems(s) <==> x in s
  {
  }

  lemma ElemsEqual(s: seq<string>, t: set<string>)
    ensures Elems(s) == t <==> forall x :: x in s <==> x in t
  {
    if forall x :: x in s <==> x in t {
      assert Elems(s) == t;
    } else {
      var x :| !(x in s <==> x in t);
      InElems(s, x);
    }
  }

  lemma OwnIsNamed(replicas: Option<int>)
    ensures ContainerName("", replicas, 0) != ""
  {
  }

  lemma UnnamedOwns(services: map<string, ServiceDecl>, c: ContainerModel, t: string, i: nat, own: string, host: string)
    requires IsInstance(services, c, t, i) && "" in services && own == ContainerName("", services[""].replicas, 0)
    requires Owner(c) == own
    ensures t == "" || t == own
    ensures t == "" ==> Upstream(c) == ReplicaUpstream("", services[""], 0)
    ensures t == own ==> Upstream(c) in ReplicaUpstreams(own, services[own])
  {
    hide ContainerName, DecInt, TunnelPorts, Claimant, ReplicaUpstreams;
    InstanceClaimsHost(services, c, t, i, host);
    OwnIsNamed(services[""].replicas);
    if t == own {
      UpstreamIs(services, c, t, i);
      ReplicasAre(own, services[own], Upstream(c));
    }
  }

  /** No replica of a service called like a container of the unnamed one has the address of one. */
  lemma Apart(svc: ServiceDecl, other: ServiceDecl, i: nat, j: nat)
    ensures ReplicaUpstream("", svc, i) != ReplicaUpstream(ContainerName("", svc.replicas, 0), other, j)
  {
    hide Dec, DecInt;
    assert ReplicaUpstream("", svc, i)[8] != 'o';
    assert ReplicaUpstream(ContainerName("", svc.replicas, 0), other, j)[8] == 'o';
  }

  lemma ReplicasDiffer(name: string, svc: ServiceDecl, i: nat, j: nat)
    requires svc.replicas.Some? && i != j
    ensures ReplicaUpstream(name, svc, i) != ReplicaUpstream(name, svc, j)
  {
    hide ContainerName, DecInt;
    var a, b := ContainerName(name, svc.replicas, i), ContainerName(name, svc.replicas, j);
    var tail := ":" + DecInt(svc.port);
    assert ReplicaUpstream(name, svc, i) == a + tail && ReplicaUpstream(name, svc, j) == b + tail;
    if a + tail == b + tail {
      assert (a + tail)[..|a|] == a && (b + tail)[..|b|] == b;
      ContainerNamesDistinct(name, svc.replicas, i, j);
    }
  }

  lemma EmptyIsLeast(services: map<string, ServiceDecl>, host: string)
    requires Claimant(services, "", host)
    ensures IsLeast(services, "", host)
  {
    hide Claimant;
  }

  /** Behind a host are all the replicas of the least-named service that claims it and no other
      container, in strictly increasing order, if and only if that service has a name; or else a
      single replica, while no other service that claims the host is called as its container is. */
  lemma RouteUpstreams(config: Config, name: string, host: string, r: Route)
    requires IsLeast(config.services, name, host)
    requires r in Compile(config).routes && r.host == host
    ensures Increasing(r.upstreams)
    ensures var svc := config.services[name];
      Elems(r.upstreams) == ReplicaUpstreams(name, svc) <==>
        || name != ""
        || (svc.ReplicaCount() == 1 && !Claimant(config.services, ContainerName("", svc.replicas, 0), host))
  {
    hide *;
    var services := config.services;
    LeastMeans(services, name, host, name);
    ClaimantMeans(services, name, host);
    RouteIncreases(config, r);
    if name != "" {
      NamedRoute(config, name, host, r);
    } else {
      UnnamedIsAll(config, host, r);
    }
  }

  lemma RouteIncreases(config: Config, r: Route)
    requires r in Compile(config).routes
    ensures Increasing(r.upstreams)
  {
    hide *;
    CompiledRoutesAre(config);
    var k :| 0 <= k < |Compile(config).routes| && Compile(config).routes[k] == r;
  }

  lemma UnnamedIsAll(config: Config, host: string, r: Route)
    requires Claimant(config.services, "", host)
    requires r in Compile(config).routes && r.host == host
    ensures var svc := config.services[""];
      Elems(r.upstreams) == ReplicaUpstreams("", svc) <==>
        svc.ReplicaCount() == 1 && !Claimant(config.services, ContainerName("", svc.replicas, 0), host)
  {
    hide *;
    var services := config.services;
    ClaimantMeans(services, "", host);
    var svc := services[""];
    var own := ContainerName("", svc.replicas, 0);
    var n := svc.ReplicaCount();
    forall u ensures u in ReplicaUpstreams("", svc) <==> exists i: nat :: i < n && ReplicaUpstream("", svc, i) == u {
      ReplicasAre("", svc, u);
    }
    ReplicasWhenMany(svc);
    ElemsEqual(r.upstreams, ReplicaUpstreams("", svc));
    if Claimant(services, own, host) {
      ClaimantMeans(services, own, host);
      var u := ReplicaUpstream(own, services[own], 0);
      ReplicasAre(own, services[own], u);
      UnnamedRoute(config, host, r, u);
      forall i: nat ensures ReplicaUpstream("", svc, i) != u {
        Apart(svc, services[own], i, 0);
      }
    } else if n > 1 {
      var u := ReplicaUpstream("", svc, 1);
      ReplicasDiffer("", svc, 0, 1);
      UnnamedRoute(config, host, r, u);
    } else {
      forall u ensures u in r.upstreams <==> u in ReplicaUpstreams("", svc) {
        UnnamedRoute(config, host, r, u);
      }
    }
  }

  lemma ReplicasWhenMany(svc: ServiceDecl)
    ensures svc.ReplicaCount() > 1 ==> svc.replicas.Some?
  {
  }

  /** Of the configurations that validation accepts: behind a host are exactly the replicas of the
      one service that claims it, if and only if that service has a name or runs once. */
  lemma AcceptedRoute(config: Config, name: string, host: string, r: Route)
    requires Accepted(config) && Claimant(config.services, name, host)
    requires r in Compile(config).routes && r.host == host
    ensures Elems(r.upstreams) == ReplicaUpstreams(name, config.services[name])
      <==> name != "" || config.services[name].ReplicaCount() == 1
  {
    var services := config.services;
    assert DomainsUnique(services);
    hide *;
    SoleClaimant(services, name, host);
    ClaimantMeans(services, name, host);
    OwnIsNamed(services[name].replicas);
    OnlyIsLeast(services, name, host);
    RouteUpstreams(config, name, host, r);
  }

  lemma SoleClaimant(services: map<string, ServiceDecl>, name: string, host: string)
    requires DomainsUnique(services) && Claimant(services, name, host)
    ensures forall t | Claimant(services, t, host) :: t == name
  {
    hide ServiceDecl.EffectiveDomains;
    forall t | Claimant(services, t, host) ensures t == name {
      assert host in Elems(services[t].EffectiveDomains()) && host in Elems(services[name].EffectiveDomains());
    }
  }

  lemma OnlyIsLeast(services: map<string, ServiceDecl>, name: string, host: string)
    requires Claimant(services, name, host) && forall t | Claimant(services, t, host) :: t == name
    ensures IsLeast(services, name, host)
  {
    hide Claimant;
    LessTotal(name, name);
  }

  /** There is one that does not: two replicas without a name are accepted, and the second of them
      is never reached. */
  lemma AcceptedUnnamed(config: Config)
    requires config.services == map["" := Plain(Some(2)).(port := 80, domain := "a")] && config.jobs == map[]
    ensures Accepted(config)
    ensures exists r :: (
      && r in Compile(config).routes && r.host == "a"
      && ReplicaUpstreams("", config.services[""]) - Elems(r.upstreams)
           == {ReplicaUpstream("", config.services[""], 1)})
  {
    hide *;
    TwoAreAccepted(config);
    RouteHosts(config, "a");
    var r :| r in Compile(config).routes && r.host == "a";
    SecondIsMissing(config, r);
  }

  lemma TwoAreAccepted(config: Config)
    requires config.services == map["" := Plain(Some(2)).(port := 80, domain := "a")] && config.jobs == map[]
    ensures Accepted(config) && Claimant(config.services, "", "a")
    ensures config.services[""].replicas == Some(2)
  {
    hide Accepted, Claims, ServiceDecl.EffectiveDomains, Distinct;
    var svc := Plain(Some(2)).(port := 80, domain := "a");
    DataClaimsDistinct("", svc);
    AcceptedAlone(config, "", svc);
    OneDomain(svc);
  }

  lemma OneDomain(svc: ServiceDecl)
    requires svc.domain == "a" && svc.domains == []
    ensures "a" in svc.EffectiveDomains()
  {
    EffectiveDomainsMeans(svc);
    assert TrimSpace("a") == "a";
  }

  lemma SecondIsMissing(config: Config, r: Route)
    requires config.services.Keys == {""} && config.services[""].replicas == Some(2)
    requires Claimant(config.services, "", r.host) && r in Compile(config).routes
    ensures ReplicaUpstreams("", config.services[""]) - Elems(r.upstreams)
      == {ReplicaUpstream("", config.services[""], 1)}
  {
    hide *;
    var svc := config.services[""];
    OwnIsNamed(svc.replicas);
    NotClaimed(config.services, ContainerName("", svc.replicas, 0), r.host);
    ReplicasDiffer("", svc, 0, 1);
    TwoReplicas(svc);
    forall u ensures u in r.upstreams <==> u == ReplicaUpstream("", svc, 0) {
      UnnamedRoute(config, r.host, r, u);
    }
    ElemsEqual(r.upstreams, {ReplicaUpstream("", svc, 0)});
  }

  lemma NotClaimed(services: map<string, ServiceDecl>, name: string, host: string)
    requires name !in services
    ensures !Claimant(services, name, host)
  {
  }

  lemma TwoReplicas(svc: ServiceDecl)
    requires svc.replicas == Some(2)
    ensures ReplicaUpstreams("", svc) == {ReplicaUpstream("", svc, 0), ReplicaUpstream("", svc, 1)}
  {
    hide ReplicaUpstream;
  }
}
