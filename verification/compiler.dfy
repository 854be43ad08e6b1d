/** From configuration to runtime model (build, internal/compiler/build.go). */
module Compiler {
  import opened Order
  import opened Schema
  import opened Containers
  import opened Routes

  datatype Timer = Timer(name: string, onCalendar: string, persistent: bool)

  datatype RuntimeModel = RuntimeModel(
    containers: seq<ContainerModel>, networks: seq<string>, volumes: seq<string>,
    routes: seq<Route>, timers: seq<Timer>, acmeEmail: string)

  // ---------------------------------------------------------------------- the specification

  function PortIn(ports: map<string, int>, container: string): int {
    if container in ports then ports[container] else 0
  }

  function Instance(name: string, svc: ServiceDecl, ports: map<string, int>, i: nat): ContainerModel {
    var c := Container(name, svc, i);
    c.(tunnelPort := PortIn(ports, c.name))
  }

  function InstancesOf(name: string, svc: ServiceDecl, ports: map<string, int>): seq<ContainerModel> {
    seq(Natural(svc.ReplicaCount()), i requires 0 <= i => Instance(name, svc, ports, i))
  }

  /** The containers of the first `upTo` of the services `names`. */
  ghost function ServiceContainers(services: map<string, ServiceDecl>, ports: map<string, int>, names: seq<string>,
                                   upTo: nat)
    : seq<ContainerModel>
    requires Known(names, services) && upTo <= |names|
  {
    if upTo == 0 then []
    else
      ServiceContainers(services, ports, names, upTo - 1)
      + InstancesOf(names[upTo - 1], services[names[upTo - 1]], ports)
  }

  /** A job is compiled when its service exists. */
  predicate IsCompiled(config: Config, job: string) {
    job in config.jobs && config.jobs[job].service in config.services
  }

  function JobOf(config: Config, job: string): seq<ContainerModel>
    requires job in config.jobs
  {
    if IsCompiled(config, job)
    then [JobContainer(job, config.jobs[job], config.services[config.jobs[job].service])]
    else []
  }

  function TimerOf(config: Config, job: string): seq<Timer>
    requires job in config.jobs
  {
    if IsCompiled(config, job)
    then [Timer("ownbase-job-" + job, config.jobs[job].schedule, config.jobs[job].EffectivePersistent())]
    else []
  }

  ghost function JobContainers(config: Config, jobs: seq<string>): seq<ContainerModel>
    requires forall j | 0 <= j < |jobs| :: jobs[j] in config.jobs
  {
    if jobs == [] then [] else JobContainers(config, jobs[..|jobs| - 1]) + JobOf(config, jobs[|jobs| - 1])
  }

  ghost function Timers(config: Config, jobs: seq<string>): seq<Timer>
    requires forall j | 0 <= j < |jobs| :: jobs[j] in config.jobs
  {
    if jobs == [] then [] else Timers(config, jobs[..|jobs| - 1]) + TimerOf(config, jobs[|jobs| - 1])
  }

  ghost function NetworkNames(services: map<string, ServiceDecl>, any: bool): set<string> {
    (set name | name in services :: CapabilityNetworkName(name)) + if any then {INTERNAL_NETWORK} else {}
  }

  ghost function AllVolumes(services: map<string, ServiceDecl>): seq<string> {
    var names := SortedSet(services.Keys);
    AllKnown(services);
    AllClaims(Volumes, services, names, |names|)
  }

  ghost function AllServiceContainers(services: map<string, ServiceDecl>): seq<ContainerModel> {
    var names := SortedSet(services.Keys);
    AllKnown(services);
    ServiceContainers(services, TunnelPorts(services), names, |names|)
  }

  ghost function JobNames(config: Config): (jobs: seq<string>)
    ensures forall j | 0 <= j < |jobs| :: jobs[j] in config.jobs
    ensures Distinct(jobs) && Elems(jobs) == config.jobs.Keys
  {
    var jobs := SortedSet(config.jobs.Keys);
    IncreasingDistinct(jobs);
    assert forall j | 0 <= j < |jobs| :: jobs[j] in Elems(jobs);
    jobs
  }

  ghost function AllContainers(config: Config): seq<ContainerModel> {
    AllServiceContainers(config.services) + JobContainers(config, JobNames(config))
  }

  /** The model of a configuration. Nothing in it depends on the order of a map. */
  ghost function Compile(config: Config): RuntimeModel {
    var containers := AllContainers(config);
    RuntimeModel(
      containers,
      SortedSet(NetworkNames(config.services, containers != [])),
      Sort(AllVolumes(config.services)),
      RoutesOf(containers),
      Timers(config, JobNames(config)),
      config.email)
  }

  // ------------------------------------------------------------------------------- the code

  function InsertRoute(r: Route, rs: seq<Route>): seq<Route> {
    if rs == [] then [r]
    else if Less(rs[0].host, r.host) then [rs[0]] + InsertRoute(r, rs[1..])
    else [r] + rs
  }

  /** sort.Slice by host. */
  function SortRoutes(rs: seq<Route>): seq<Route> {
    if rs == [] then [] else InsertRoute(rs[0], SortRoutes(rs[1..]))
  }

  ghost predicate HostsIncrease(rs: seq<Route>) {
    forall i, j | 0 <= i < j < |rs| :: Less(rs[i].host, rs[j].host)
  }

  lemma {:induction false} SortedAlready(rs: seq<Route>)
    requires HostsIncrease(rs)
    ensures SortRoutes(rs) == rs
  {
    if rs != [] {
      SortedAlready(rs[1..]);
      if |rs| > 1 {
        LessTotal(rs[0].host, rs[1].host);
      }
    }
  }

  /** Hosts are strictly increasing, so no host has two routes. */
  lemma RoutesIncrease(cs: seq<ContainerModel>)
    ensures HostsIncrease(RoutesOf(cs))
  {
    hide Hosts, Upstreams, Less;
  }

  /** build, for any iteration order of the services, the jobs and the upstream sets. */
  method Build(config: Config) returns (model: RuntimeModel)
    ensures model == Compile(config)
  {
    var devPorts := ComputeTunnelPorts(config.services);
    var containers, networks, volumes := BuildServices(config.services, devPorts);
    var timers;
    containers, timers := BuildJobs(config, containers);
    assert containers == AllContainers(config);
    ghost var services := networks;
    if |containers| > 0 && INTERNAL_NETWORK !in networks {
      networks := networks + [INTERNAL_NETWORK];
    }
    var routes := BuildRoutes(containers);
    RoutesIncrease(containers);
    SortedAlready(routes);
    routes := SortRoutes(routes);
    SortedNetworks(config.services, services, networks, containers != []);
    networks := Sort(networks);
    volumes := Sort(volumes);
    hide AllContainers, AllVolumes, NetworkNames, RoutesOf, Timers, Sort;
    model := RuntimeModel(containers, networks, volumes, routes, timers, config.email);
  }

  lemma SortedNetworks(services: map<string, ServiceDecl>, before: seq<string>, networks: seq<string>, any: bool)
    requires Distinct(before) && Elems(before) == NetworkNames(services, false)
    requires networks == before + if any && INTERNAL_NETWORK !in before then [INTERNAL_NETWORK] else []
    ensures Sort(networks) == SortedSet(NetworkNames(services, any))
  {
    var networkNames := NetworkNames(services, any);
    assert networkNames == NetworkNames(services, false) + if any then {INTERNAL_NETWORK} else {};
    hide NetworkNames, Sort;
    assert INTERNAL_NETWORK in before <==> INTERNAL_NETWORK in Elems(before);
    ElemsAppend(before, [INTERNAL_NETWORK]);
    assert Elems(networks) == networkNames;
    SortDistinct(networks);
    SortedSetIs(Sort(networks), networkNames);
  }

  /** The inner loop: every instance of one service, with its loopback port. */
  method BuildInstances(name: string, svc: ServiceDecl, devPorts: map<string, int>) returns (cs: seq<ContainerModel>)
    ensures cs == InstancesOf(name, svc, devPorts)
  {
    cs := [];
    var n := Natural(svc.ReplicaCount());
    hide Container;
    for i := 0 to n
      invariant cs == InstancesOf(name, svc, devPorts)[..i]
    {
      var c := BuildContainer(name, svc, i);
      c := c.(tunnelPort := PortIn(devPorts, c.name));
      cs := cs + [c];
    }
  }

  lemma SameNetworks(services: map<string, ServiceDecl>, names: seq<string>, nets: set<string>)
    requires names == SortedSet(services.Keys)
    requires nets == set j | 0 <= j < |names| :: CapabilityNetworkName(names[j])
    ensures nets == NetworkNames(services, false)
  {
    hide CapabilityNetworkName;
    forall name | name in services ensures CapabilityNetworkName(name) in nets {
      assert name in Elems(names);
      var j :| 0 <= j < |names| && names[j] == name;
      assert CapabilityNetworkName(names[j]) in nets;
    }
    forall net | net in nets ensures net in NetworkNames(services, false) {
      var j :| 0 <= j < |names| && CapabilityNetworkName(names[j]) == net;
      assert names[j] in Elems(names);
    }
  }

  lemma NoneYet(services: map<string, ServiceDecl>, ports: map<string, int>, names: seq<string>)
    requires Known(names, services)
    ensures ServiceContainers(services, ports, names, 0) == [] && AllClaims(Volumes, services, names, 0) == []
    ensures Distinct<string>([]) && Elems<string>([]) == {} == NetworksUpTo(names, 0)
  {
  }

  ghost function NetworksUpTo(names: seq<string>, k: nat): set<string>
    requires k <= |names|
  {
    set j | 0 <= j < k :: CapabilityNetworkName(names[j])
  }

  lemma NetworksStep(names: seq<string>, k: nat)
    requires k < |names|
    ensures NetworksUpTo(names, k + 1) == NetworksUpTo(names, k) + {CapabilityNetworkName(names[k])}
  {
    hide CapabilityNetworkName;
  }

  lemma BuiltAll(services: map<string, ServiceDecl>, ports: map<string, int>, names: seq<string>)
    requires names == SortedSet(services.Keys) && Known(names, services) && ports == TunnelPorts(services)
    ensures ServiceContainers(services, ports, names, |names|) == AllServiceContainers(services)
    ensures AllClaims(Volumes, services, names, |names|) == AllVolumes(services)
    ensures NetworksUpTo(names, |names|) == NetworkNames(services, false)
  {
    hide ServiceContainers, AllClaims, CapabilityNetworkName, TunnelPorts, SortedSet;
    SameNetworks(services, names, NetworksUpTo(names, |names|));
  }

  lemma ServiceContainersStep(services: map<string, ServiceDecl>, ports: map<string, int>, names: seq<string>, k: nat)
    requires Known(names, services) && k < |names| && names[k] in services
    ensures ServiceContainers(services, ports, names, k + 1)
      == ServiceContainers(services, ports, names, k) + InstancesOf(names[k], services[names[k]], ports)
  {
    hide InstancesOf;
  }

  /** Appends a network unless hasNetwork finds it. */
  method AddNetwork(networks: seq<string>, net: string) returns (now: seq<string>)
    requires Distinct(networks)
    ensures Distinct(now) && Elems(now) == Elems(networks) + {net}
  {
    now := networks;
    assert net in networks <==> net in Elems(networks);
    if net !in networks {
      ElemsAppend(networks, [net]);
      now := networks + [net];
    }
  }

  method BuildServices(services: map<string, ServiceDecl>, devPorts: map<string, int>)
    returns (containers: seq<ContainerModel>, networks: seq<string>, volumes: seq<string>)
    requires devPorts == TunnelPorts(services)
    ensures containers == AllServiceContainers(services)
    ensures Distinct(networks) && Elems(networks) == NetworkNames(services, false)
    ensures volumes == AllVolumes(services)
  {
    hide *;
    var serviceNames := SortedKeys(services);
    AllKnown(services);
    containers, networks, volumes := [], [], [];
    NoneYet(services, devPorts, serviceNames);
    for k := 0 to |serviceNames|
      invariant containers == ServiceContainers(services, devPorts, serviceNames, k)
      invariant Distinct(networks) && Elems(networks) == NetworksUpTo(serviceNames, k)
      invariant volumes == AllClaims(Volumes, services, serviceNames, k)
    {
      KnownAt(serviceNames, services, k);
      var name := serviceNames[k];
      var svc := services[name];
      var instances := BuildInstances(name, svc, devPorts);
      ServiceContainersStep(services, devPorts, serviceNames, k);
      containers := containers + instances;
      networks := AddNetwork(networks, CapabilityNetworkName(name));
      NetworksStep(serviceNames, k);
      var more := BuildVolumes(name, svc);
      VolumeClaims(name, svc);
      AllClaimsStep(Volumes, services, serviceNames, k);
      volumes := volumes + more;
    }
    BuiltAll(services, devPorts, serviceNames);
  }

  lemma VolumeClaims(name: string, svc: ServiceDecl)
    ensures Claims(Volumes, name, svc) == ExpandedVolumeNames(name, svc)
  {
  }

  method BuildJobs(config: Config, services: seq<ContainerModel>)
    returns (containers: seq<ContainerModel>, timers: seq<Timer>)
    ensures containers == services + JobContainers(config, JobNames(config))
    ensures timers == Timers(config, JobNames(config))
  {
    hide *;
    var jobNames := SortedKeys(config.jobs);
    NoJobYet(config, jobNames, services);
    containers, timers := services, [];
    for k := 0 to |jobNames|
      invariant containers == services + JobContainers(config, jobNames[..k])
      invariant timers == Timers(config, jobNames[..k])
    {
      var name := jobNames[k];
      JobStep(config, jobNames, k);
      var job := config.jobs[name];
      ghost var before := JobContainers(config, jobNames[..k]);
      if job.service !in config.services {
        Nothing(before, timers);
        continue;
      }
      var c := BuildJobContainer(name, job, config.services[job.service]);
      assert services + before + [c] == services + (before + [c]);
      containers := containers + [c];
      timers := timers + [Timer("ownbase-job-" + name, job.schedule, job.EffectivePersistent())];
    }
  }

  lemma NoJobYet(config: Config, jobs: seq<string>, services: seq<ContainerModel>)
    requires jobs == SortedSet(config.jobs.Keys)
    ensures jobs == JobNames(config)
    ensures jobs[..0] == [] && jobs[..|jobs|] == jobs
    ensures services + JobContainers(config, []) == services && Timers(config, []) == []
  {
  }

  lemma Nothing<S, T>(a: seq<S>, b: seq<T>)
    ensures a + [] == a && b + [] == b
  {
  }

  lemma JobStep(config: Config, jobs: seq<string>, k: nat)
    requires k < |jobs| && forall j | 0 <= j < |jobs| :: jobs[j] in config.jobs
    ensures JobContainers(config, jobs[..k + 1]) == JobContainers(config, jobs[..k]) + JobOf(config, jobs[k])
    ensures Timers(config, jobs[..k + 1]) == Timers(config, jobs[..k]) + TimerOf(config, jobs[k])
    ensures var name := jobs[k]; var job := config.jobs[name];
      if job.service in config.services then
        && JobOf(config, name) == [JobContainer(name, job, config.services[job.service])]
        && TimerOf(config, name) == [Timer("ownbase-job-" + name, job.schedule, job.EffectivePersistent())]
      else JobOf(config, name) == [] && TimerOf(config, name) == []
  {
    hide JobContainer;
    assert jobs[..k + 1][..k] == jobs[..k];
  }
}
