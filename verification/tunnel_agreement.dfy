/** The tunnel ends at the right container: what it reads off the Base for a discovered service is
    the port the compiler gave that service's primary container, or, when an older configuration is
    still applied, the one that configuration gave the container of the same name. */
module TunnelAgreement {
  import opened Text
  import opened Order
  import opened Schema
  import opened Containers
  import opened Compiler
  import opened Compiled
  import opened CompiledNames
  import opened Render
  import opened UnitText
  import opened Tunnel
  import opened Units

  /** A container whose unit every reader can make sense of. */
  ghost predicate Readable(c: ContainerModel, quote: string -> string) {
    LinesFree(ContainerLines(c, quote)) && c.tunnelPort <= MAX_INT64
  }

  function FileOf(c: ContainerModel, quote: string -> string): UnitFile {
    UnitFile(StemOfContainer(c), ContainerText(c, quote))
  }

  /** The units of all the containers are among the files on the Base, one file per name. There can
      be others, with anything in them. */
  ghost predicate Installed(files: seq<UnitFile>, cs: seq<ContainerModel>, quote: string -> string) {
    && StemsDistinct(files) && AllPlain(files)
    && forall c | c in cs :: FileOf(c, quote) in files && Readable(c, quote)
  }

  ghost function ParsedPorts(files: seq<UnitFile>): map<string, int> {
    Ports(Split(GrepOutput(files), '\n'))
  }

  lemma InstalledMeans(files: seq<UnitFile>, cs: seq<ContainerModel>, quote: string -> string, c: ContainerModel)
    requires Installed(files, cs, quote) && c in cs
    ensures FileOf(c, quote) in files && Readable(c, quote) && StemsDistinct(files) && AllPlain(files)
  {
    hide ContainerText, Readable, StemsDistinct;
  }

  lemma OneFilePerStem(files: seq<UnitFile>, f: UnitFile, g: UnitFile)
    requires StemsDistinct(files) && f in files && g in files && f.stem == g.stem
    ensures f == g
  {
    var i :| 0 <= i < |files| && files[i] == f;
    var j :| 0 <= j < |files| && files[j] == g;
    assert !(i < j) && !(j < i);
  }

  /** The port that a container's own file stands for. */
  lemma OwnFilePort(files: seq<UnitFile>, quote: string -> string, c: ContainerModel)
    requires StemsDistinct(files) && AllPlain(files) && FileOf(c, quote) in files && Readable(c, quote)
    ensures StemOfContainer(c) in ParsedPorts(files) <==> c.tunnelPort > 0
    ensures c.tunnelPort > 0 ==> ParsedPorts(files)[StemOfContainer(c)] == c.tunnelPort
  {
    var f := FileOf(c, quote);
    assert f.stem == StemOfContainer(c);
    ContainerFilePort(c, quote);
    assert ParsedPorts(files) == Ports(Split(GrepOutput(files), '\n'));
    hide *;
    PortsReadBack(files);
    PortMapOf(files, f.stem);
    if g :| g in files && g.stem == f.stem && FilePort(g).Some? {
      OneFilePerStem(files, f, g);
    }
  }

  /** For every applied container: its stem is known exactly when it publishes, with its own port. */
  lemma AppliedPort(files: seq<UnitFile>, cs: seq<ContainerModel>, quote: string -> string, c: ContainerModel)
    requires Installed(files, cs, quote) && c in cs
    ensures StemOfContainer(c) in ParsedPorts(files) <==> c.tunnelPort > 0
    ensures c.tunnelPort > 0 ==> ParsedPorts(files)[StemOfContainer(c)] == c.tunnelPort
  {
    hide *;
    InstalledMeans(files, cs, quote, c);
    OwnFilePort(files, quote, c);
  }

  // ------------------------------------------------------------------------------ targets

  lemma {:induction false} TargetIs(services: map<string, ServiceDecl>, names: seq<string>, t: Target)
    requires forall i | 0 <= i < |names| :: names[i] in services
    requires t in Targets(services, names)
    ensures t.service in services && t in TargetOf(services, t.service) && t.service in names
  {
    hide TunnelPorts, ServiceDecl.EffectiveDomains, PrimaryContainerName;
    var front, last := names[..|names| - 1], names[|names| - 1];
    if t in Targets(services, front) {
      TargetIs(services, front, t);
    }
  }

  /** The target of a service and its primary container: one name, one port. */
  lemma TargetMeets(services: map<string, ServiceDecl>, t: Target) returns (c: ContainerModel)
    requires t.service in services && t in TargetOf(services, t.service)
    requires services[t.service].ReplicaCount() >= 1
    ensures IsInstance(services, c, t.service, 0) && services[t.service].port != 0
    ensures c.name == PrimaryContainerName(t.service, services[t.service].replicas) == PREFIX + t.unitKey
    ensures StemOfContainer(c) == t.unitKey && c.tunnelPort == t.hostPort
  {
    hide TunnelPorts, ServiceDecl.EffectiveDomains;
    var svc := services[t.service];
    c := Instance(t.service, svc, TunnelPorts(services), 0);
    StemIsRest(t.service, svc.replicas);
  }

  lemma StemIsRest(service: string, replicas: Option<int>)
    ensures PREFIX + TrimPrefix(PrimaryContainerName(service, replicas), PREFIX)
      == PrimaryContainerName(service, replicas)
  {
  }

  lemma PrimaryHasPort(services: map<string, ServiceDecl>, name: string, c: ContainerModel)
    requires IsInstance(services, c, name, 0) && services[name].port != 0
    ensures c.tunnelPort > 0 && c.name in TunnelPorts(services) && c.tunnelPort == TunnelPorts(services)[c.name]
  {
    assert HasPort(services, name, 0, c.name);
    hide TunnelPorts, HasPort;
    PortsDomain(services, c.name);
  }

  /** The whole way round: compile a configuration, render it, read the units back, and look up what
      discovery makes of the same configuration. Every target is found, with the very port that
      discovery and the compiler assigned to the primary container of that service. */
  lemma TunnelAgrees(config: Config, files: seq<UnitFile>, quote: string -> string, t: Target)
    requires Installed(files, AllContainers(config), quote)
    requires t.service in config.services && t in TargetOf(config.services, t.service)
    requires config.services[t.service].ReplicaCount() >= 1
    ensures t.unitKey in ParsedPorts(files) && ParsedPorts(files)[t.unitKey] == t.hostPort > 0
    ensures var primary := PrimaryContainerName(t.service, config.services[t.service].replicas);
      primary in TunnelPorts(config.services) && TunnelPorts(config.services)[primary] == t.hostPort
  {
    hide *;
    var c := TargetMeets(config.services, t);
    PrimaryHasPort(config.services, t.service, c);
    ContainersAre(config, c);
    AppliedPort(files, AllContainers(config), quote, c);
  }

  function FilesOf(cs: seq<ContainerModel>, quote: string -> string): seq<UnitFile> {
    seq(|cs|, i requires 0 <= i < |cs| => FileOf(cs[i], quote))
  }

  /** The units of distinctly named containers, one file each, are an installation of them. */
  lemma FilesAreInstalled(cs: seq<ContainerModel>, quote: string -> string)
    requires NamesDistinct(cs)
    requires forall c | c in cs :: PREFIX <= c.name && IsPlainStem(StemOfContainer(c)) && Readable(c, quote)
    ensures Installed(FilesOf(cs, quote), cs, quote)
  {
    hide Readable, ContainerText, IsPlainStem;
    var files := FilesOf(cs, quote);
    forall i, j | 0 <= i < j < |files| ensures files[i].stem != files[j].stem {
      assert cs[i] in cs && cs[j] in cs;
      SameStem(cs[i].name, cs[j].name);
    }
    forall f | f in files ensures IsPlainStem(f.stem) {
      var i :| 0 <= i < |files| && files[i] == f;
      assert cs[i] in cs;
    }
    forall c | c in cs ensures FileOf(c, quote) in files {
      var i :| 0 <= i < |cs| && cs[i] == c;
      assert files[i] == FileOf(c, quote);
    }
  }

  lemma SameStem(a: string, b: string)
    requires PREFIX <= a && PREFIX <= b
    ensures TrimPrefix(a, PREFIX) == TrimPrefix(b, PREFIX) ==> a == b
  {
    assert a == PREFIX + a[|PREFIX|..] && b == PREFIX + b[|PREFIX|..];
  }

  lemma NamesArePrefixed(config: Config, c: ContainerModel)
    requires c in AllContainers(config)
    ensures PREFIX <= c.name
  {
    hide AllContainers, IsInstance, IsJob, ContainerName;
    ContainersAre(config, c);
    if name, i: nat :| IsInstance(config.services, c, name, i) {
      InstanceName(config.services, c, name, i);
      IsInstanceMeans(config.services, c, name, i);
      PrefixedName(name, config.services[name].replicas, i);
    } else {
      var job :| IsJob(config, c, job);
      JobName(config, c, job);
    }
  }

  lemma PrefixedName(service: string, replicas: Option<int>, i: nat)
    ensures PREFIX <= ContainerName(service, replicas, i)
  {
  }

  function FileName(stem: string): string {
    PREFIX + stem + ".container"
  }

  /** The container units of a directory that holds exactly these files, in any order. */
  ghost predicate IsListing(files: seq<UnitFile>, units: map<string, string>) {
    && StemsDistinct(files)
    && forall f: UnitFile :: f in files <==> FileName(f.stem) in units && units[FileName(f.stem)] == f.content
  }

  lemma SameFileName(a: string, b: string)
    requires FileName(a) == FileName(b)
    ensures a == b
  {
    assert (PREFIX + a)[|PREFIX|..] == a && (PREFIX + b)[|PREFIX|..] == b;
    SameUnitName(PREFIX + a, PREFIX + b);
  }

  /** Every directory has one. */
  lemma ListingExists(units: map<string, string>) returns (files: seq<UnitFile>)
    ensures IsListing(files, units)
  {
    hide FileName;
    files := [];
    var rest := units.Keys;
    while rest != {}
      invariant rest <= units.Keys && StemsDistinct(files)
      invariant forall f: UnitFile :: f in files <==>
        (FileName(f.stem) in units && FileName(f.stem) !in rest && units[FileName(f.stem)] == f.content)
    {
      var name :| name in rest;
      if stem :| FileName(stem) == name {
        forall other | FileName(other) == name ensures other == stem {
          SameFileName(other, stem);
        }
        files := files + [UnitFile(stem, units[name])];
      }
      rest := rest - {name};
    }
  }

  lemma ListedArePlain(config: Config, quote: string -> string, files: seq<UnitFile>)
    requires IsListing(files, Units.Units(Compile(config), quote))
    requires forall c | c in AllContainers(config) :: PREFIX <= c.name && IsPlainStem(StemOfContainer(c))
    ensures AllPlain(files)
  {
    hide Units.Units, Compile, AllContainers, IsPlainStem;
    CompiledNetworks(config);
    forall f | f in files ensures IsPlainStem(f.stem) {
      var c := UnitOfContainer(Compile(config), quote, PREFIX + f.stem);
      assert (PREFIX + f.stem)[|PREFIX|..] == f.stem;
      assert StemOfContainer(c) == f.stem;
    }
  }

  /** A container that no later one shares its name with has its file. */
  lemma WinnerIsListed(config: Config, quote: string -> string, files: seq<UnitFile>, i: nat)
    requires IsListing(files, Units.Units(Compile(config), quote))
    requires var cs := AllContainers(config);
      i < |cs| && PREFIX <= cs[i].name && forall j | i < j < |cs| :: cs[j].name != cs[i].name
    ensures FileOf(AllContainers(config)[i], quote) in files
  {
    hide *;
    CompiledNetworks(config);
    LastHoldsFile(Compile(config), quote, i);
    ListedFile(files, Units.Units(Compile(config), quote), AllContainers(config)[i], quote);
  }

  lemma ListedFile(files: seq<UnitFile>, units: map<string, string>, c: ContainerModel, quote: string -> string)
    requires IsListing(files, units) && PREFIX <= c.name
    requires UnitName(c) in units && units[UnitName(c)] == ContainerText(c, quote)
    ensures FileOf(c, quote) in files
  {
    hide ContainerText, StemsDistinct;
    assert c.name == PREFIX + c.name[|PREFIX|..];
    assert UnitName(c) == FileName(StemOfContainer(c));
  }

  /** Which of the containers with the name of a service's first instance comes last: that instance, or,
      if the service is called "job" and replicated, a job called "0". */
  lemma LastOfPrimary(config: Config, name: string, c: ContainerModel) returns (i: nat)
    requires NoCollision(Kind.Containers, config.services) && NoJobPrefix(config.services)
    requires IsInstance(config.services, c, name, 0)
    ensures var cs := AllContainers(config);
      && i < |cs| && cs[i].name == c.name && (forall j | i < j < |cs| :: cs[j].name != c.name)
      && (if name == "job" && JobTakesReplica(config, 0) then cs[i].isJob else cs[i] == c)
  {
    hide *;
    var all, services, jobs := AllContainers(config), AllServiceContainers(config.services),
      JobContainers(config, JobNames(config));
    Parts(config);
    InstanceName(config.services, c, name, 0);
    IsInstanceMeans(config.services, c, name, 0);
    if name == "job" && JobTakesReplica(config, 0) {
      var d := TakingJob(config, c);
      var k :| 0 <= k < |jobs| && jobs[k] == d;
      i := |services| + k;
      JobsDistinct(config, JobNames(config));
      forall j | i < j < |all| ensures all[j].name != c.name {
        assert all[j] == jobs[j - |services|];
        DistinctAt(jobs, k, j - |services|);
      }
    } else {
      ServiceContainerExists(config.services, c, name);
      i :| 0 <= i < |services| && services[i] == c;
      forall j | i < j < |all| ensures all[j].name != c.name {
        if j < |services| {
          if services[j].name == c.name {
            ServicesDistinct(config.services, i, j);
          }
        } else {
          assert all[j] == jobs[j - |services|];
          if jobs[j - |services|].name == c.name {
            PrimaryClash(config, c, name, j - |services|);
          }
        }
      }
    }
  }

  lemma DistinctAt(cs: seq<ContainerModel>, i: nat, j: nat)
    requires NamesDistinct(cs) && i < j < |cs|
    ensures cs[i].name != cs[j].name
  {
  }

  lemma ServiceContainerExists(services: map<string, ServiceDecl>, c: ContainerModel, name: string)
    requires IsInstance(services, c, name, 0)
    ensures c in AllServiceContainers(services)
  {
    hide *;
    IsInstanceMeans(services, c, name, 0);
    var names, ports := SortedSet(services.Keys), TunnelPorts(services);
    AllServices(services);
    var k := IndexIn(services.Keys, name);
    var at := PositionOf(services, ports, names, k, 0);
    IsTheInstance(services, c, name);
  }

  lemma IsTheInstance(services: map<string, ServiceDecl>, c: ContainerModel, name: string)
    requires IsInstance(services, c, name, 0)
    ensures name in services && c == Instance(name, services[name], TunnelPorts(services), 0)
  {
  }

  /** The job that takes the name of the first replica of a service "job". */
  lemma TakingJob(config: Config, c: ContainerModel) returns (d: ContainerModel)
    requires JobTakesReplica(config, 0) && IsInstance(config.services, c, "job", 0)
    ensures d in JobContainers(config, JobNames(config)) && d.name == c.name && d.isJob
  {
    hide *;
    var job;
    d, job := JobOfReplica(config);
    JobName(config, d, job);
    InstanceName(config.services, c, "job", 0);
    ContainersAre(config, d);
    Parts(config);
    NotAService(config.services, d);
  }

  lemma JobOfReplica(config: Config) returns (d: ContainerModel, job: string)
    requires JobTakesReplica(config, 0)
    ensures IsJob(config, d, job) && "job" in config.services
    ensures "ownbase-job-" + job == ContainerName("job", config.services["job"].replicas, 0)
  {
    hide JobContainer;
    job := Dec(0);
    d := JobContainer(job, config.jobs[job], config.services[config.jobs[job].service]);
    assert "ownbase-" + "job" + "-" + job == "ownbase-job-" + job;
  }

  lemma NotAService(services: map<string, ServiceDecl>, d: ContainerModel)
    requires d.isJob
    ensures d !in AllServiceContainers(services)
  {
    hide *;
    if d in AllServiceContainers(services) {
      var at :| 0 <= at < |AllServiceContainers(services)| && AllServiceContainers(services)[at] == d;
      var name, i := ServiceContainerIs(services, at);
      InstanceName(services, d, name, i);
    }
  }

  lemma PrimaryClash(config: Config, c: ContainerModel, name: string, j: nat)
    requires NoJobPrefix(config.services) && IsInstance(config.services, c, name, 0)
    requires j < |JobContainers(config, JobNames(config))|
    requires JobContainers(config, JobNames(config))[j].name == c.name
    ensures name == "job" && JobTakesReplica(config, 0)
  {
    hide AllServiceContainers, JobContainers, JobNames, TunnelPorts, Instance, JobContainer, ContainerName;
    var job := JobContainerIs(config, JobNames(config), j);
    InstanceName(config.services, c, name, 0);
    JobName(config, JobContainers(config, JobNames(config))[j], job);
    ServiceOrJob(name, config.services[name].replicas, 0, job);
  }

  /** In one piece, from what validation accepts: the unit files of a configuration are written, listed in
      any order, read back and looked up. A target that discovery makes of the configuration is found, and
      then with the very port it was assigned, if and only if it is not the replicated service "job" beside
      a job "0", whose unit has replaced that of its first replica. */
  lemma RoundTrip(config: Config, quote: string -> string, files: seq<UnitFile>, t: Target)
    requires Accepted(config) && IsListing(files, Units.Units(Compile(config), quote))
    requires forall c | c in AllContainers(config) :: IsPlainStem(StemOfContainer(c)) && Readable(c, quote)
    requires t in AllTargets(config.services)
    ensures var ports := ParsedPorts(files);
      && (t.unitKey in ports <==> !(t.service == "job" && JobTakesReplica(config, 0)))
      && (t.unitKey in ports ==> ports[t.unitKey] == t.hostPort > 0)
  {
    hide *;
    var cs := AllContainers(config);
    AcceptedMeans(config);
    forall c | c in cs ensures PREFIX <= c.name {
      NamesArePrefixed(config, c);
    }
    ListedArePlain(config, quote, files);
    ListedDistinct(files, Units.Units(Compile(config), quote));
    AllTargetsAre(config.services);
    TargetIs(config.services, SortedSet(config.services.Keys), t);
    var c := TargetMeets(config.services, t);
    PrimaryHasPort(config.services, t.service, c);
    var i := LastOfPrimary(config, t.service, c);
    WinnerIsListed(config, quote, files, i);
    OwnFilePort(files, quote, cs[i]);
    StemByName(c, cs[i]);
    if cs[i].isJob {
      JobHasNoPort(config, cs[i]);
    }
  }

  lemma StemByName(c: ContainerModel, d: ContainerModel)
    requires c.name == d.name
    ensures StemOfContainer(c) == StemOfContainer(d)
  {
  }

  lemma ListedDistinct(files: seq<UnitFile>, units: map<string, string>)
    requires IsListing(files, units)
    ensures StemsDistinct(files)
  {
  }

  lemma JobHasNoPort(config: Config, c: ContainerModel)
    requires c in AllContainers(config) && c.isJob
    ensures c.tunnelPort == 0
  {
    hide *;
    ContainersAre(config, c);
    if name, i: nat :| IsInstance(config.services, c, name, i) {
      InstanceName(config.services, c, name, i);
    } else {
      var job :| IsJob(config, c, job);
      JobPort(config, c, job);
    }
  }

  lemma JobPort(config: Config, c: ContainerModel, job: string)
    requires IsJob(config, c, job)
    ensures c.tunnelPort == 0
  {
    hide Container;
  }

  lemma AcceptedMeans(config: Config)
    requires Accepted(config)
    ensures NoJobPrefix(config.services) && NoCollision(Kind.Containers, config.services)
    ensures forall name | name in config.services :: config.services[name].ReplicaCount() >= 1
  {
    hide NoCollision, NoJobPrefix;
  }

  /** While an older configuration is applied, a target of the newer one is looked up under its unit
      key, and what is found is the port of the applied container of exactly that name: the one it
      is published on now, not the one the newer configuration will give it. */
  lemma OlderConfigurationApplies(current: Config, applied: Config, files: seq<UnitFile>, quote: string -> string,
                                  t: Target, c: ContainerModel)
    requires Installed(files, AllContainers(applied), quote)
    requires t.service in current.services && t in TargetOf(current.services, t.service)
    requires c in AllContainers(applied) && c.name == PREFIX + t.unitKey
    ensures t.unitKey in ParsedPorts(files) <==> c.tunnelPort > 0
    ensures c.tunnelPort > 0 ==> ParsedPorts(files)[t.unitKey] == c.tunnelPort
  {
    assert (PREFIX + t.unitKey)[|PREFIX|..] == t.unitKey;
    assert StemOfContainer(c) == t.unitKey;
    hide *;
    AppliedPort(files, AllContainers(applied), quote, c);
  }

  /** And a target that no applied unit is named after is not looked up to anything. */
  lemma UnknownIsSkipped(files: seq<UnitFile>, t: Target)
    requires StemsDistinct(files) && AllPlain(files)
    requires forall f | f in files :: f.stem != t.unitKey
    ensures t.unitKey !in ParsedPorts(files)
  {
    assert ParsedPorts(files) == Ports(Split(GrepOutput(files), '\n'));
    hide *;
    PortsReadBack(files);
    PortMapOf(files, t.unitKey);
  }

  // ----------------------------------------------------------------------------- hostnames

  function LocalHostnames(t: Target): seq<string> {
    seq(|t.domains|, i requires 0 <= i < |t.domains| => t.domains[i] + ".localhost")
  }

  ghost function AllHostnames(targets: seq<Target>): set<string> {
    set t, h | t in targets && h in LocalHostnames(t) :: h
  }

  /** AllLocalHostnames: each hostname of any target once, in order. */
  method AllLocalHostnames(targets: seq<Target>) returns (all: seq<string>)
    ensures all == SortedSet(AllHostnames(targets))
  {
    var seen: set<string> := {};
    all := [];
    for i := 0 to |targets|
      invariant Distinct(all) && Elems(all) == seen == AllHostnames(targets[..i])
    {
      var names := LocalHostnames(targets[i]);
      ghost var before := seen;
      for j := 0 to |names|
        invariant Distinct(all) && Elems(all) == seen == before + Elems(names[..j])
      {
        var h := names[j];
        assert names[..j + 1] == names[..j] + [h];
        ElemsAppend(names[..j], [h]);
        assert h in all <==> h in Elems(all);
        if h !in seen {
          ElemsAppend(all, [h]);
          seen := seen + {h};
          all := all + [h];
        }
      }
      assert names[..|names|] == names;
      HostnamesStep(targets, i);
    }
    assert targets[..|targets|] == targets;
    SortDistinct(all);
    all := Sort(all);
    SortedSetIs(all, AllHostnames(targets));
  }

  lemma HostnamesStep(targets: seq<Target>, i: nat)
    requires i < |targets|
    ensures AllHostnames(targets[..i + 1]) == AllHostnames(targets[..i]) + Elems(LocalHostnames(targets[i]))
  {
    hide LocalHostnames;
    assert targets[..i + 1] == targets[..i] + [targets[i]];
  }

  // ---------------------------------------------------------------------------- the bridge

  datatype Plan =
    | Conflict(host: string, owner: string, other: string)
    | OpenFailed(service: string, port: int)
    | NothingPublished
    | Bridge(routes: map<string, int>, bridged: seq<Target>)

  /** A hostname, the service it is to lead to, and the host port that service is published on. */
  datatype HostClaim = HostClaim(host: string, service: string, port: int)

  /** UnitKey, or the service's own name when there is none. */
  function LookupKey(t: Target): string {
    if t.unitKey == "" then t.service else t.unitKey
  }

  predicate IsPublished(t: Target, actual: map<string, int>) {
    LookupKey(t) in actual
  }

  function ClaimsFor(t: Target, hosts: seq<string>, actual: map<string, int>): set<HostClaim> {
    if IsPublished(t, actual) then set h | h in hosts :: HostClaim(h, t.service, actual[LookupKey(t)]) else {}
  }

  /** The claims of all the published targets. */
  ghost function HostClaims(targets: seq<Target>, actual: map<string, int>): set<HostClaim> {
    set t, a | t in targets && a in ClaimsFor(t, LocalHostnames(t), actual) :: a
  }

  lemma HostClaimsStep(done: seq<Target>, t: Target, actual: map<string, int>)
    ensures HostClaims(done + [t], actual) == HostClaims(done, actual) + ClaimsFor(t, LocalHostnames(t), actual)
  {
    hide ClaimsFor, LocalHostnames;
    assert forall u :: u in done + [t] <==> u in done || u == t;
  }

  lemma ClaimsForStep(t: Target, hosts: seq<string>, actual: map<string, int>, j: nat)
    requires j < |hosts| && IsPublished(t, actual)
    ensures ClaimsFor(t, hosts[..j + 1], actual)
      == ClaimsFor(t, hosts[..j], actual) + {HostClaim(hosts[j], t.service, actual[LookupKey(t)])}
  {
    assert hosts[..j + 1] == hosts[..j] + [hosts[j]];
  }

  ghost predicate Clash(claims: set<HostClaim>) {
    exists a, b :: a in claims && b in claims && a.host == b.host && a.service != b.service
  }

  /** The two maps say of each claimed hostname, and of no other, whose it is and where it leads. */
  ghost predicate Agree(claims: set<HostClaim>, routes: map<string, int>, routeOwner: map<string, string>) {
    && routes.Keys == routeOwner.Keys
    && (forall a | a in claims :: a.host in routes && routeOwner[a.host] == a.service && routes[a.host] == a.port)
    && (forall h | h in routes :: HostClaim(h, routeOwner[h], routes[h]) in claims)
  }

  /** Every claimed hostname, and no other, leads to the port it is claimed for. */
  ghost predicate RoutesAre(routes: map<string, int>, claims: set<HostClaim>) {
    && (forall a | a in claims :: a.host in routes && routes[a.host] == a.port)
    && (forall h | h in routes :: exists a :: a in claims && a.host == h)
  }

  /** Claims of one service name one port. */
  ghost predicate OnePortEach(claims: set<HostClaim>) {
    forall a, b | a in claims && b in claims && a.service == b.service :: a.port == b.port
  }

  /** Each target is a service of its own. */
  ghost predicate ServicesDiffer(targets: seq<Target>) {
    forall i, j | 0 <= i < j < |targets| :: targets[i].service != targets[j].service
  }

  lemma OnePort(targets: seq<Target>, actual: map<string, int>)
    requires ServicesDiffer(targets)
    ensures OnePortEach(HostClaims(targets, actual))
  {
  }

  lemma FewerClaims(claims: set<HostClaim>, more: set<HostClaim>)
    requires claims <= more
    ensures Clash(claims) ==> Clash(more)
    ensures OnePortEach(more) ==> OnePortEach(claims)
  {
  }

  /** One more claim, when no other service has the hostname. */
  lemma OneClaimMore(claims: set<HostClaim>, routes: map<string, int>, routeOwner: map<string, string>, a: HostClaim)
    requires Agree(claims, routes, routeOwner) && OnePortEach(claims + {a})
    requires a.host in routeOwner ==> routeOwner[a.host] == a.service
    ensures Agree(claims + {a}, routes[a.host := a.port], routeOwner[a.host := a.service])
  {
  }

  lemma AgreeMeansNoClash(claims: set<HostClaim>, routes: map<string, int>, routeOwner: map<string, string>)
    requires Agree(claims, routes, routeOwner)
    ensures !Clash(claims) && RoutesAre(routes, claims)
  {
    forall h | h in routes ensures exists a :: a in claims && a.host == h {
      assert HostClaim(h, routeOwner[h], routes[h]) in claims;
    }
  }

  lemma NoneAgree(actual: map<string, int>)
    ensures Agree(HostClaims([], actual), map[], map[])
  {
  }

  lemma SomeTargets(done: seq<Target>, targets: seq<Target>, actual: map<string, int>)
    requires done <= targets
    ensures HostClaims(done, actual) <= HostClaims(targets, actual)
  {
    hide ClaimsFor, LocalHostnames;
    assert forall t | t in done :: t in targets;
  }

  lemma NoClaims(t: Target, actual: map<string, int>)
    requires !IsPublished(t, actual)
    ensures ClaimsFor(t, LocalHostnames(t), actual) == {}
  {
  }

  /** The inner loop: the hostnames of one published target. */
  method ClaimHosts(target: Target, actual: map<string, int>, routes: map<string, int>, routeOwner: map<string, string>,
                    ghost claims: set<HostClaim>, ghost all: set<HostClaim>)
    returns (conflict: Option<string>, routes': map<string, int>, routeOwner': map<string, string>)
    requires Agree(claims, routes, routeOwner) && IsPublished(target, actual)
    requires claims + ClaimsFor(target, LocalHostnames(target), actual) <= all && OnePortEach(all)
    ensures conflict.None? ==> Agree(claims + ClaimsFor(target, LocalHostnames(target), actual), routes', routeOwner')
    ensures conflict.Some? ==> Clash(all) && conflict.value in routeOwner'
  {
    var hostPort := actual[LookupKey(target)];
    var hosts := LocalHostnames(target);
    routes', routeOwner' := routes, routeOwner;
    NoHostYet(target, actual);
    assert claims + {} == claims;
    hide LocalHostnames, ClaimsFor, OnePortEach, Agree, Clash;
    for j := 0 to |hosts|
      invariant Agree(claims + ClaimsFor(target, hosts[..j], actual), routes', routeOwner')
    {
      var h := hosts[j];
      ghost var so, a := claims + ClaimsFor(target, hosts[..j], actual), HostClaim(h, target.service, hostPort);
      ClaimsForStep(target, hosts, actual, j);
      assert claims + ClaimsFor(target, hosts[..j + 1], actual) == so + {a};
      ClaimsOfSome(target, hosts, actual, j + 1);
      if h in routeOwner' && routeOwner'[h] != target.service {
        Overlap(so, routes', routeOwner', a, all);
        return Some(h), routes', routeOwner';
      }
      FewerClaims(so + {a}, all);
      OneClaimMore(so, routes', routeOwner', a);
      routeOwner' := routeOwner'[h := target.service];
      routes' := routes'[h := hostPort];
    }
    assert hosts[..|hosts|] == hosts;
    conflict := None;
  }

  lemma NoHostYet(t: Target, actual: map<string, int>)
    ensures ClaimsFor(t, LocalHostnames(t)[..0], actual) == {}
  {
  }

  lemma ClaimsOfSome(t: Target, hosts: seq<string>, actual: map<string, int>, j: nat)
    requires j <= |hosts|
    ensures ClaimsFor(t, hosts[..j], actual) <= ClaimsFor(t, hosts, actual)
  {
  }

  lemma Overlap(claims: set<HostClaim>, routes: map<string, int>, routeOwner: map<string, string>,
                a: HostClaim, all: set<HostClaim>)
    requires Agree(claims, routes, routeOwner) && claims + {a} <= all
    requires a.host in routeOwner && routeOwner[a.host] != a.service
    ensures Clash(all)
  {
    var b := HostClaim(a.host, routeOwner[a.host], routes[a.host]);
    assert b in all && a in all;
  }

  /** Exactly the published targets are bridged. */
  ghost predicate BridgedAre(bridged: seq<Target>, targets: seq<Target>, actual: map<string, int>) {
    forall t :: t in bridged <==> t in targets && IsPublished(t, actual)
  }

  lemma NoneBridged(actual: map<string, int>)
    ensures BridgedAre([], [], actual)
  {
  }

  lemma BridgedStep(bridged: seq<Target>, targets: seq<Target>, t: Target, actual: map<string, int>)
    requires BridgedAre(bridged, targets, actual)
    ensures IsPublished(t, actual) ==> BridgedAre(bridged + [t], targets + [t], actual)
    ensures !IsPublished(t, actual) ==> BridgedAre(bridged, targets + [t], actual)
  {
    hide IsPublished;
  }

  lemma BridgedMeans(bridged: seq<Target>, targets: seq<Target>, actual: map<string, int>)
    requires BridgedAre(bridged, targets, actual)
    ensures bridged == [] <==> forall t | t in targets :: !IsPublished(t, actual)
  {
    hide IsPublished;
    if bridged != [] {
      assert bridged[0] in bridged;
    }
  }

  lemma LookupMeans(t: Target, actual: map<string, int>)
    ensures LookupKey(t) == if t.unitKey == "" then t.service else t.unitKey
    ensures IsPublished(t, actual) <==> LookupKey(t) in actual
  {
  }

  /** How many targets come before the first published one whose tunnel does not open. */
  function Reached(targets: seq<Target>, actual: map<string, int>, opens: Target -> bool): (n: nat)
    ensures n <= |targets|
    ensures forall i | 0 <= i < n :: IsPublished(targets[i], actual) ==> opens(targets[i])
    ensures n < |targets| ==> IsPublished(targets[n], actual) && !opens(targets[n])
  {
    if targets == [] || (IsPublished(targets[0], actual) && !opens(targets[0])) then 0
    else 1 + Reached(targets[1..], actual, opens)
  }

  /** The loop of runTunnel, with the host port an SSH tunnel leads to standing for the tunnel, and
      `opens` for whether it can be opened. Up to the first tunnel that fails it bridges exactly the
      published targets, and reports a conflict exactly when two of their services claim one hostname.
      If all open and none conflict, every hostname leads to the port published for the one service
      that claims it. */
  method PlanBridge(targets: seq<Target>, actual: map<string, int>, opens: Target -> bool) returns (plan: Plan)
    requires ServicesDiffer(targets)
    ensures var n := Reached(targets, actual, opens);
      && (plan.Conflict? <==> Clash(HostClaims(targets[..n], actual)))
      && (plan.OpenFailed? <==> n < |targets| && !Clash(HostClaims(targets[..n], actual)))
      && (plan.OpenFailed? ==> plan == OpenFailed(targets[n].service, actual[LookupKey(targets[n])]))
    ensures plan.NothingPublished? <==> forall t | t in targets :: !IsPublished(t, actual)
    ensures plan.Bridge? ==>
      BridgedAre(plan.bridged, targets, actual) && RoutesAre(plan.routes, HostClaims(targets, actual))
  {
    hide *;
    var routes: map<string, int> := map[];
    var routeOwner: map<string, string> := map[];
    var bridged: seq<Target> := [];
    ghost var n := Reached(targets, actual, opens);
    ghost var reached, done := targets[..n], [];
    OnePort(targets, actual);
    SomeTargets(reached, targets, actual);
    FewerClaims(HostClaims(reached, actual), HostClaims(targets, actual));
    NoneAgree(actual);
    NoneBridged(actual);
    for i := 0 to |targets|
      invariant i <= n && done == targets[..i]
      invariant Agree(HostClaims(done, actual), routes, routeOwner)
      invariant BridgedAre(bridged, done, actual)
    {
      var target := targets[i];
      var lookup := target.unitKey;
      if lookup == "" {
        lookup := target.service;
      }
      LookupMeans(target, actual);
      if lookup in actual && !opens(target) {
        AgreeMeansNoClash(HostClaims(done, actual), routes, routeOwner);
        return OpenFailed(target.service, actual[lookup]);
      }
      ghost var before := HostClaims(done, actual);
      HostClaimsStep(done, target, actual);
      BridgedStep(bridged, done, target, actual);
      done := done + [target];
      if lookup !in actual {
        NoClaims(target, actual);
        assert before + {} == before;
        continue;
      }
      bridged := bridged + [target];
      assert done <= reached;
      SomeTargets(done, reached, actual);
      var conflict;
      conflict, routes, routeOwner :=
        ClaimHosts(target, actual, routes, routeOwner, before, HostClaims(reached, actual));
      if conflict.Some? {
        return Conflict(conflict.value, routeOwner[conflict.value], target.service);
      }
    }
    assert done == targets;
    AgreeMeansNoClash(HostClaims(targets, actual), routes, routeOwner);
    BridgedMeans(bridged, targets, actual);
    if |bridged| == 0 {
      return NothingPublished;
    }
    return Bridge(routes, bridged);
  }
}
