/** What holds of every compiled model: its containers are exactly the instances and the jobs, and the
    networks and volumes they refer to are the ones it declares. */
module Compiled {
  import opened Text
  import opened Order
  import opened Schema
  import opened Containers
  import opened Routes
  import opened Compiler

  // ------------------------------------------------------------------ which containers there are

  ghost predicate IsInstance(services: map<string, ServiceDecl>, c: ContainerModel, name: string, i: nat) {
    && name in services && i < services[name].ReplicaCount()
    && c == Instance(name, services[name], TunnelPorts(services), i)
  }

  lemma TheInstance(services: map<string, ServiceDecl>, name: string, i: nat) returns (c: ContainerModel)
    requires name in services && i < services[name].ReplicaCount()
    ensures IsInstance(services, c, name, i)
  {
    hide Instance;
    c := Instance(name, services[name], TunnelPorts(services), i);
  }

  ghost predicate IsJob(config: Config, c: ContainerModel, job: string) {
    IsCompiled(config, job)
    && c == JobContainer(job, config.jobs[job], config.services[config.jobs[job].service])
  }

  lemma {:induction false} Longer(services: map<string, ServiceDecl>, ports: map<string, int>, names: seq<string>,
                                  k: nat, l: nat)
    requires Known(names, services) && k <= l <= |names|
    ensures ServiceContainers(services, ports, names, k) <= ServiceContainers(services, ports, names, l)
    decreases l
  {
    hide *;
    if k < l {
      KnownAt(names, services, l - 1);
      Longer(services, ports, names, k, l - 1);
      ServiceContainersStep(services, ports, names, l - 1);
    }
  }

  /** The container at a position, by service and instance. */
  lemma {:induction false} At(services: map<string, ServiceDecl>, ports: map<string, int>, names: seq<string>,
                              upTo: nat, at: nat)
    returns (k: nat, i: nat)
    requires Known(names, services) && upTo <= |names| && at < |ServiceContainers(services, ports, names, upTo)|
    ensures k < upTo && names[k] in services && i < services[names[k]].ReplicaCount()
    ensures ServiceContainers(services, ports, names, upTo)[at] == Instance(names[k], services[names[k]], ports, i)
    ensures at == |ServiceContainers(services, ports, names, k)| + i
  {
    hide *;
    NoneYet(services, ports, names);
    KnownAt(names, services, upTo - 1);
    ServiceContainersStep(services, ports, names, upTo - 1);
    var before := ServiceContainers(services, ports, names, upTo - 1);
    if at < |before| {
      k, i := At(services, ports, names, upTo - 1, at);
    } else {
      k, i := upTo - 1, at - |before|;
      InstanceAt(names[k], services[names[k]], ports, i);
    }
  }

  lemma InstanceAt(name: string, svc: ServiceDecl, ports: map<string, int>, i: nat)
    ensures |InstancesOf(name, svc, ports)| == Natural(svc.ReplicaCount())
    ensures i < svc.ReplicaCount() <==> i < |InstancesOf(name, svc, ports)|
    ensures i < svc.ReplicaCount() ==> InstancesOf(name, svc, ports)[i] == Instance(name, svc, ports, i)
  {
    hide Instance;
  }

  lemma PositionOf(services: map<string, ServiceDecl>, ports: map<string, int>, names: seq<string>, k: nat, i: nat)
    returns (at: nat)
    requires Known(names, services) && k < |names| && names[k] in services && i < services[names[k]].ReplicaCount()
    ensures at == |ServiceContainers(services, ports, names, k)| + i
    ensures at < |ServiceContainers(services, ports, names, k + 1)|
    ensures |ServiceContainers(services, ports, names, k + 1)| <= |ServiceContainers(services, ports, names, |names|)|
    ensures ServiceContainers(services, ports, names, |names|)[at] == Instance(names[k], services[names[k]], ports, i)
  {
    hide *;
    at := |ServiceContainers(services, ports, names, k)| + i;
    ServiceContainersStep(services, ports, names, k);
    InstanceAt(names[k], services[names[k]], ports, i);
    Longer(services, ports, names, k + 1, |names|);
  }

  lemma IndexIn(s: set<string>, x: string) returns (k: nat)
    requires x in s
    ensures k < |SortedSet(s)| && SortedSet(s)[k] == x
  {
    assert x in Elems(SortedSet(s));
    k :| 0 <= k < |SortedSet(s)| && SortedSet(s)[k] == x;
  }

  lemma AllServices(services: map<string, ServiceDecl>)
    ensures var names := SortedSet(services.Keys);
      Known(names, services)
      && AllServiceContainers(services) == ServiceContainers(services, TunnelPorts(services), names, |names|)
  {
    hide ServiceContainers, TunnelPorts, SortedSet;
    AllKnown(services);
  }

  lemma ServiceContainerIs(services: map<string, ServiceDecl>, at: nat) returns (name: string, i: nat)
    requires at < |AllServiceContainers(services)|
    ensures IsInstance(services, AllServiceContainers(services)[at], name, i)
  {
    hide AllServiceContainers, ServiceContainers, TunnelPorts, SortedSet, Instance;
    var names := SortedSet(services.Keys);
    AllServices(services);
    var k;
    k, i := At(services, TunnelPorts(services), names, |names|, at);
    name := names[k];
  }

  lemma InstanceIsThere(services: map<string, ServiceDecl>, c: ContainerModel, name: string, i: nat)
    requires IsInstance(services, c, name, i)
    ensures c in AllServiceContainers(services)
  {
    hide AllServiceContainers, ServiceContainers, TunnelPorts, SortedSet, Instance, Known;
    var names := SortedSet(services.Keys);
    AllServices(services);
    var k := IndexIn(services.Keys, name);
    var at := PositionOf(services, TunnelPorts(services), names, k, i);
  }

  lemma {:induction false} JobContainerIs(config: Config, jobs: seq<string>, at: nat) returns (job: string)
    requires forall j | 0 <= j < |jobs| :: jobs[j] in config.jobs
    requires at < |JobContainers(config, jobs)|
    ensures job in jobs && IsJob(config, JobContainers(config, jobs)[at], job)
  {
    hide JobContainer;
    var front := jobs[..|jobs| - 1];
    if at < |JobContainers(config, front)| {
      job := JobContainerIs(config, front, at);
    } else {
      job := jobs[|jobs| - 1];
    }
  }

  lemma {:induction false} JobIsThere(config: Config, jobs: seq<string>, c: ContainerModel, job: string)
    requires forall j | 0 <= j < |jobs| :: jobs[j] in config.jobs
    requires job in jobs && IsJob(config, c, job)
    ensures c in JobContainers(config, jobs)
  {
    hide JobContainer;
    var front, last := jobs[..|jobs| - 1], jobs[|jobs| - 1];
    assert jobs == front + [last];
    if job == last {
      assert JobOf(config, last) == [c];
    } else {
      JobIsThere(config, front, c, job);
    }
  }

  /** The containers are exactly one per service instance and one per compiled job. */
  lemma ContainersAre(config: Config, c: ContainerModel)
    ensures c in AllContainers(config) <==>
      || (exists name, i: nat :: IsInstance(config.services, c, name, i))
      || (exists job :: IsJob(config, c, job))
  {
    var services, jobs := AllServiceContainers(config.services), JobContainers(config, JobNames(config));
    assert c in AllContainers(config) <==> c in services || c in jobs;
    hide AllContainers, AllServiceContainers, JobContainers, JobNames, IsInstance, IsJob;
    if c in services {
      var at :| 0 <= at < |services| && services[at] == c;
      var name, i := ServiceContainerIs(config.services, at);
    }
    if c in jobs {
      var at :| 0 <= at < |jobs| && jobs[at] == c;
      var job := JobContainerIs(config, JobNames(config), at);
    }
    if name, i: nat :| IsInstance(config.services, c, name, i) {
      InstanceIsThere(config.services, c, name, i);
    }
    if job :| IsJob(config, c, job) {
      JobListed(config, c, job);
      JobIsThere(config, JobNames(config), c, job);
    }
  }

  lemma JobListed(config: Config, c: ContainerModel, job: string)
    requires IsJob(config, c, job)
    ensures job in JobNames(config)
  {
    assert job in Elems(JobNames(config));
  }

  // ----------------------------------------------------------------------------- closure

  /** Part of Validate: every `requires:` entry names a service. */
  ghost predicate RequiresNameServices(services: map<string, ServiceDecl>) {
    forall name | name in services :: forall r | r in services[name].needs :: r in services
  }

  /** Every declared replica is compiled, and no more: one when the number is left out. */
  lemma EveryInstance(config: Config, name: string, i: nat)
    requires name in config.services
    ensures (exists c :: c in AllContainers(config) && IsInstance(config.services, c, name, i))
      <==> i < match config.services[name].replicas case None => 1 case Some(n) => n
  {
    hide AllContainers, Instance, TunnelPorts;
    if i < config.services[name].ReplicaCount() {
      var c := TheInstance(config.services, name, i);
      ContainersAre(config, c);
    }
  }

  /** And every job of a declared service. */
  lemma EveryJob(config: Config, job: string)
    ensures (exists c :: c in AllContainers(config) && IsJob(config, c, job))
      <==> job in config.jobs && config.jobs[job].service in config.services
  {
    hide AllContainers, JobContainer;
    if IsCompiled(config, job) {
      var c := JobContainer(job, config.jobs[job], config.services[config.jobs[job].service]);
      assert IsJob(config, c, job);
      ContainersAre(config, c);
    }
  }

  /** The services whose networks the containers of a service join. */
  predicate Joins(services: map<string, ServiceDecl>, name: string, other: string) {
    name in services && (other == name || other in services[name].needs)
  }

  /** Apart from the internal network, two service containers meet on a network exactly if both join that of
      one service, names that differ in case counting as one. */
  lemma MeetingPoints(services: map<string, ServiceDecl>, c: ContainerModel, a: string, i: nat,
                      d: ContainerModel, b: string, j: nat)
    requires IsInstance(services, c, a, i) && IsInstance(services, d, b, j)
    ensures (exists net :: net in c.networks && net in d.networks && net != INTERNAL_NETWORK) <==>
      exists x, y :: Joins(services, a, x) && Joins(services, b, y) && SameButCase(x, y)
  {
    hide TunnelPorts, Container, CapabilityNetworkName, SameButCase, INTERNAL_NETWORK;
    if net :| net in c.networks && net in d.networks && net != INTERNAL_NETWORK {
      ContainerNetworks(a, services[a], i, net);
      ContainerNetworks(b, services[b], j, net);
      var x :| Joins(services, a, x) && net == CapabilityNetworkName(x);
      var y :| Joins(services, b, y) && net == CapabilityNetworkName(y);
      OwnNetworks(x, y);
    }
    if x, y :| Joins(services, a, x) && Joins(services, b, y) && SameButCase(x, y) {
      OwnNetworks(x, y);
      ContainerNetworks(a, services[a], i, CapabilityNetworkName(x));
      ContainerNetworks(b, services[b], j, CapabilityNetworkName(x));
    }
  }

  /** Part of Validate: `replicas:` is at least 1 where it is set. */
  ghost predicate ReplicasInRange(services: map<string, ServiceDecl>) {
    forall name | name in services :: services[name].ReplicaCount() >= 1
  }

  /** The service whose networks a container joins. */
  lemma NetworksOf(config: Config, c: ContainerModel) returns (name: string, i: nat)
    requires c in AllContainers(config)
    ensures name in config.services && c.networks == Container(name, config.services[name], i).networks
  {
    hide Container, AllContainers;
    ContainersAre(config, c);
    if s, j: nat :| IsInstance(config.services, c, s, j) {
      name, i := s, j;
    } else {
      var job :| IsJob(config, c, job);
      name, i := config.jobs[job].service, 0;
    }
  }

  lemma NetworkNamesAre(services: map<string, ServiceDecl>, any: bool, net: string)
    ensures net in NetworkNames(services, any) <==>
      || (any && net == INTERNAL_NETWORK)
      || exists name :: name in services && net == CapabilityNetworkName(name)
  {
    hide CapabilityNetworkName;
  }

  lemma CompiledNetworks(config: Config)
    ensures Increasing(Compile(config).networks)
    ensures Elems(Compile(config).networks) == NetworkNames(config.services, AllContainers(config) != [])
    ensures Compile(config).containers == AllContainers(config)
  {
    hide AllContainers, NetworkNames, SortedSet, RoutesOf, Timers, AllVolumes, Sort;
  }

  /** A model declares exactly the networks its containers join, each once and in order. */
  lemma NetworksAreClosed(config: Config, net: string)
    requires RequiresNameServices(config.services) && ReplicasInRange(config.services)
    ensures net in Compile(config).networks <==>
      exists c :: c in Compile(config).containers && net in c.networks
    ensures Increasing(Compile(config).networks)
  {
    hide Compile, AllContainers, NetworkNames, Container, CapabilityNetworkName, Increasing;
    CompiledNetworks(config);
    var all := AllContainers(config);
    assert net in Compile(config).networks <==> net in Elems(Compile(config).networks);
    NetworkNamesAre(config.services, all != [], net);
    if c :| c in all && net in c.networks {
      var name, i := NetworksOf(config, c);
      ContainerNetworks(name, config.services[name], i, net);
      assert all != [];
    }
    if name :| name in config.services && net == CapabilityNetworkName(name) {
      JoinsNetworks(config, name, net);
    } else if all != [] && net == INTERNAL_NETWORK {
      var name, i := NetworksOf(config, all[0]);
      JoinsNetworks(config, name, net);
    }
  }

  lemma JoinsNetworks(config: Config, name: string, net: string)
    requires ReplicasInRange(config.services) && name in config.services
    requires net == CapabilityNetworkName(name) || net == INTERNAL_NETWORK
    ensures exists c :: c in AllContainers(config) && net in c.networks
  {
    hide AllContainers, Container, CapabilityNetworkName, TunnelPorts;
    var c := Instance(name, config.services[name], TunnelPorts(config.services), 0);
    assert IsInstance(config.services, c, name, 0);
    ContainersAre(config, c);
    ContainerNetworks(name, config.services[name], 0, net);
  }

  /** The named volumes a container mounts. */
  predicate MountsNamed(c: ContainerModel, vol: string) {
    exists vm :: vm in c.volumeMounts && vm.hostPath == "" && vm.volumeName == vol
  }

  lemma NamedOrHost(name: string, svc: ServiceDecl, i: nat, vm: VolumeMount)
    ensures vm in Mounts(name, svc, i) && vm.hostPath == "" <==> vm in NamedMounts(name, svc, i)
  {
    var named, host := NamedMounts(name, svc, i), VolumeMount("", API_SOCKET_CONTAINER_DIR, ApiSocketHostDir(name));
    assert forall m | m in named :: m.hostPath == "" by {
      hide VolumeName, DataVolumeName, DataMountPath;
    }
    hide NamedMounts;
    assert Mounts(name, svc, i) == if |svc.ownbaseAccess| > 0 then named + [host] else named;
  }

  lemma InstanceMounts(services: map<string, ServiceDecl>, name: string, i: nat, vol: string)
    requires name in services
    ensures MountsNamed(Instance(name, services[name], TunnelPorts(services), i), vol) <==>
      exists vm :: vm in NamedMounts(name, services[name], i) && vm.volumeName == vol
  {
    var svc := services[name];
    assert Instance(name, svc, TunnelPorts(services), i).volumeMounts == Mounts(name, svc, i);
    hide TunnelPorts, Container, Instance, Mounts, NamedMounts;
    forall vm ensures vm in Mounts(name, svc, i) && vm.hostPath == "" <==> vm in NamedMounts(name, svc, i) {
      NamedOrHost(name, svc, i, vm);
    }
  }

  lemma VolumesAre(services: map<string, ServiceDecl>, vol: string)
    ensures vol in Sort(AllVolumes(services)) <==>
      exists name :: name in services && vol in ExpandedVolumeNames(name, services[name])
  {
    var names := SortedSet(services.Keys);
    AllKnown(services);
    var all := AllClaims(Volumes, services, names, |names|);
    assert all == AllVolumes(services);
    hide SortedSet, AllVolumes, AllClaims, ExpandedVolumeNames, Less;
    SortSorts(all);
    assert vol in Sort(all) <==> vol in multiset(Sort(all));
    assert vol in all <==> vol in multiset(all);
    if vol in all {
      var at :| 0 <= at < |all| && all[at] == vol;
      var k := ClaimIs(Volumes, services, names, |names|, at);
      VolumeClaims(names[k], services[names[k]]);
    }
    if name :| name in services && vol in ExpandedVolumeNames(name, services[name]) {
      VolumeClaims(name, services[name]);
      var k := IndexIn(services.Keys, name);
      var j :| 0 <= j < |Claims(Volumes, name, services[name])| && Claims(Volumes, name, services[name])[j] == vol;
      var at := ClaimAt(Volumes, services, names, k, j);
    }
  }

  lemma {:induction false} ClaimIs(kind: Kind, services: map<string, ServiceDecl>, names: seq<string>, upTo: nat,
                                   at: nat)
    returns (k: nat)
    requires Known(names, services) && upTo <= |names| && at < |AllClaims(kind, services, names, upTo)|
    ensures k < upTo && names[k] in services
    ensures AllClaims(kind, services, names, upTo)[at] in Claims(kind, names[k], services[names[k]])
  {
    hide Claims;
    KnownAt(names, services, upTo - 1);
    AllClaimsStep(kind, services, names, upTo - 1);
    if at < |AllClaims(kind, services, names, upTo - 1)| {
      k := ClaimIs(kind, services, names, upTo - 1, at);
    } else {
      k := upTo - 1;
    }
  }

  lemma InstanceMountsCreated(services: map<string, ServiceDecl>, c: ContainerModel, name: string, i: nat, vol: string)
    requires IsInstance(services, c, name, i) && MountsNamed(c, vol)
    ensures vol in ExpandedVolumeNames(name, services[name])
  {
    hide TunnelPorts, Instance, MountsNamed, ExpandedVolumeNames, NamedMounts;
    InstanceMounts(services, name, i, vol);
    var vm :| vm in NamedMounts(name, services[name], i) && vm.volumeName == vol;
    MountsAreCreated(name, services[name], i, vm);
  }

  lemma CreatedHasMount(services: map<string, ServiceDecl>, name: string, vol: string)
    returns (c: ContainerModel, i: nat)
    requires ReplicasInRange(services) && name in services && vol in ExpandedVolumeNames(name, services[name])
    ensures IsInstance(services, c, name, i) && MountsNamed(c, vol)
  {
    hide TunnelPorts, Instance, MountsNamed, ExpandedVolumeNames, NamedMounts;
    var vm;
    i, vm := CreatedAreMounted(name, services[name], vol);
    c := Instance(name, services[name], TunnelPorts(services), i);
    InstanceMounts(services, name, i, vol);
  }

  /** A model declares exactly the named volumes its containers mount. */
  lemma VolumesAreClosed(config: Config, vol: string)
    requires ReplicasInRange(config.services)
    ensures vol in Compile(config).volumes <==>
      exists c :: c in Compile(config).containers && MountsNamed(c, vol)
  {
    hide *;
    var services := config.services;
    CompiledVolumes(config, vol);
    CompiledNetworks(config);
    if c :| c in AllContainers(config) && MountsNamed(c, vol) {
      ContainersAre(config, c);
      if name, i: nat :| IsInstance(services, c, name, i) {
        IsInstanceMeans(services, c, name, i);
        InstanceMountsCreated(services, c, name, i, vol);
      } else {
        var job :| IsJob(config, c, job);
        JobsMountNothing(config, c, job, vol);
      }
    }
    if name :| name in services && vol in ExpandedVolumeNames(name, services[name]) {
      var c, i := CreatedHasMount(services, name, vol);
      ContainersAre(config, c);
    }
  }

  lemma IsInstanceMeans(services: map<string, ServiceDecl>, c: ContainerModel, name: string, i: nat)
    requires IsInstance(services, c, name, i)
    ensures name in services && i < services[name].ReplicaCount()
    ensures c == Instance(name, services[name], TunnelPorts(services), i)
  {
    hide Instance, TunnelPorts;
  }

  lemma CompiledVolumes(config: Config, vol: string)
    ensures vol in Compile(config).volumes <==>
      exists name :: name in config.services && vol in ExpandedVolumeNames(name, config.services[name])
  {
    hide AllContainers, NetworkNames, SortedSet, RoutesOf, Timers, AllVolumes, Sort, ExpandedVolumeNames;
    VolumesAre(config.services, vol);
  }

  /** A job has a timer exactly if it is compiled: for its container, on its schedule, and catching up on
      missed runs unless it says not to. */
  lemma TimersAre(config: Config, t: Timer)
    ensures t in Compile(config).timers <==>
      exists job :: IsCompiled(config, job) && IsTimerOf(config, t, job)
    ensures Compile(config).acmeEmail == config.email
  {
    CompiledTimers(config);
    var jobs := JobNames(config);
    TimersOf(config, jobs, t);
    hide Timers, JobNames, TimerOf, IsCompiled;
    forall job | IsCompiled(config, job) && IsTimerOf(config, t, job) ensures job in jobs {
      CompiledIsNamed(config, job);
    }
  }

  ghost predicate IsTimerOf(config: Config, t: Timer, job: string) {
    && job in config.jobs && t.name == "ownbase-job-" + job && t.onCalendar == config.jobs[job].schedule
    && (t.persistent <==> config.jobs[job].persistent != Some(false))
  }

  lemma CompiledTimers(config: Config)
    ensures Compile(config).timers == Timers(config, JobNames(config)) && Compile(config).acmeEmail == config.email
  {
    hide AllContainers, NetworkNames, SortedSet, RoutesOf, Timers, AllVolumes, Sort, JobNames;
  }

  lemma CompiledIsNamed(config: Config, job: string)
    requires IsCompiled(config, job)
    ensures job in JobNames(config)
  {
    assert job in Elems(JobNames(config));
  }

  lemma {:induction false} TimersOf(config: Config, jobs: seq<string>, t: Timer)
    requires forall j | 0 <= j < |jobs| :: jobs[j] in config.jobs
    ensures t in Timers(config, jobs) <==>
      exists job :: job in jobs && IsCompiled(config, job) && IsTimerOf(config, t, job)
  {
    if jobs != [] {
      var front, last := jobs[..|jobs| - 1], jobs[|jobs| - 1];
      TimersOf(config, front, t);
      assert t in TimerOf(config, last) <==> IsCompiled(config, last) && IsTimerOf(config, t, last);
      assert jobs == front + [last];
      hide TimerOf, IsCompiled, IsTimerOf;
    }
  }

  lemma JobsMountNothing(config: Config, c: ContainerModel, job: string, vol: string)
    requires IsJob(config, c, job)
    ensures !MountsNamed(c, vol)
  {
    hide Container;
  }
}
