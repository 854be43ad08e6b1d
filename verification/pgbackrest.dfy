/** Finding the Postgres service that can be restored, its volumes, and everything that has to stop
    for a restore (internal/backup/pgbackrest.go), against what the compiler makes of the same
    configuration. */
module PGBackRestLookup {
  import opened Text
  import opened Order
  import opened Schema
  import opened Containers
  import opened Compiler
  import opened Compiled
  import opened CompiledNames
  import Restore

  datatype Found = Found(
    service: string, replicas: Option<int>, stanza: string, superUser: string, database: string,
    repoVolume: string, dataVolume: string, dataDir: string,
    dependants: seq<string>, dependantUnits: seq<string>)
  {
    /** Container: always the primary one. */
    function Container(): string {
      PrimaryContainerName(service, replicas)
    }

    /** The part of it a production restore acts on. */
    function ForRestore(): Restore.PGBackRest {
      Restore.PGBackRest(service, Container(), dataVolume, dependants, dependantUnits)
    }
  }

  datatype Error = NoRepositoryService(service: string, host: string) | NoRepositoryVolume(service: string) | NoPostgres

  datatype Result = Ok(found: Found) | Err(error: Error)

  // --------------------------------------------------------------------------- environment

  /** envValue: the value of the first variable of that name. */
  function EnvValue(env: seq<string>, key: string): string {
    if env == [] then ""
    else if HasPrefix(env[0], key + "=") then TrimSpace(TrimPrefix(env[0], key + "="))
    else EnvValue(env[1..], key)
  }

  /** strings.TrimRight(s, "/"). */
  function TrimRightSlashes(s: string): string {
    if s != "" && s[|s| - 1] == '/' then TrimRightSlashes(s[..|s| - 1]) else s
  }

  const REPO_MOUNT: string := "/var/lib/pgbackrest"

  const DEFAULT_DATA_DIR: string := "/var/lib/postgresql/data"

  function PostgresDataDir(svc: ServiceDecl): string {
    if EnvValue(svc.env, "PGBACKREST_PG1_PATH") != "" then TrimRightSlashes(EnvValue(svc.env, "PGBACKREST_PG1_PATH"))
    else if EnvValue(svc.env, "PGDATA") != "" then TrimRightSlashes(EnvValue(svc.env, "PGDATA"))
    else DEFAULT_DATA_DIR
  }

  // -------------------------------------------------------------------------------- mounts

  /** serviceVolumeMounts: the compiler's mounts of the primary container, the implicit data volume
      included. */
  method ServiceVolumeMounts(name: string, svc: ServiceDecl) returns (out: seq<VolumeMount>)
    ensures out == NamedMounts(name, svc, 0)
    ensures forall vm | vm in out :: vm in Instance(name, svc, map[], 0).volumeMounts
  {
    if |svc.volumes| == 0 {
      var mount := svc.dataPath;
      if mount == "" {
        mount := "/data";
      }
      out := [VolumeMount(DataVolumeName(name, svc.replicas, 0, svc.DataPathIsPerReplica()), mount, "")];
    } else {
      out := [];
      for k := 0 to |svc.volumes|
        invariant out == NamedMounts(name, svc, 0)[..k]
      {
        var v := svc.volumes[k];
        out := out + [VolumeMount(VolumeName(name, v.name, svc.replicas, 0, svc.VolumeIsPerReplica(v)), v.mount, "")];
      }
    }
    assert out == NamedMounts(name, svc, 0);
    NamedAreMounted(name, svc, 0);
  }

  lemma NamedAreMounted(name: string, svc: ServiceDecl, i: nat)
    ensures forall vm | vm in NamedMounts(name, svc, i) :: vm in Instance(name, svc, map[], i).volumeMounts
  {
    hide NamedMounts;
  }

  /** The volume of the first mount at the data directory, or none. */
  function DataVolumeAt(mounts: seq<VolumeMount>, dir: string): string {
    if mounts == [] then ""
    else if TrimRightSlashes(mounts[0].mountPath) == dir then mounts[0].volumeName
    else DataVolumeAt(mounts[1..], dir)
  }

  /** The position of the declaration mounted where a repository is kept. */
  function RepoDecl(volumes: seq<VolumeDecl>): Option<nat> {
    if volumes == [] then None
    else if volumes[0].mount == REPO_MOUNT then Some(0)
    else match RepoDecl(volumes[1..]) case None => None case Some(k) => Some(k + 1)
  }

  lemma {:induction false} RepoDeclMeans(volumes: seq<VolumeDecl>)
    ensures RepoDecl(volumes).None? <==> forall v | v in volumes :: v.mount != REPO_MOUNT
    ensures RepoDecl(volumes).Some? ==>
      var k := RepoDecl(volumes).value; k < |volumes| && volumes[k].mount == REPO_MOUNT
  {
    if volumes != [] {
      RepoDeclMeans(volumes[1..]);
    }
  }

  function RepoVolumeName(service: string, v: VolumeDecl): string {
    "ownbase-" + service + "-" + v.name
  }

  /** The repository volume that is looked up is the one the repository host mounts exactly when the
      declaration is not per replica: the name it is given leaves the replica out. */
  lemma RepoVolumeIsMounted(service: string, svc: ServiceDecl, k: nat)
    requires k < |svc.volumes|
    ensures RepoVolumeName(service, svc.volumes[k]) == NamedMounts(service, svc, 0)[k].volumeName
      <==> !svc.VolumeIsPerReplica(svc.volumes[k])
  {
    var v := svc.volumes[k];
    assert NamedMounts(service, svc, 0)[k] == DeclaredMount(service, svc, v, 0);
    var base := "ownbase-" + service + "-" + v.name;
    assert |base + "-" + Dec(0)| > |base|;
  }

  // ---------------------------------------------------------------------------- dependants

  function UnitsOf(service: string, svc: ServiceDecl): seq<string> {
    seq(Instances(svc.replicas), i requires 0 <= i => ContainerName(service, svc.replicas, i) + ".service")
  }

  predicate DependsOn(services: map<string, ServiceDecl>, dep: string, name: string)
    requires dep in services
  {
    dep != name && name in services[dep].needs
  }

  ghost function Dependants(services: map<string, ServiceDecl>, names: seq<string>, name: string,
                            upTo: nat): seq<string>
    requires Known(names, services) && upTo <= |names|
  {
    if upTo == 0 then []
    else
      Dependants(services, names, name, upTo - 1)
      + if DependsOn(services, names[upTo - 1], name) then [names[upTo - 1]] else []
  }

  ghost function DependantUnits(services: map<string, ServiceDecl>, names: seq<string>, name: string,
                                upTo: nat): seq<string>
    requires Known(names, services) && upTo <= |names|
  {
    if upTo == 0 then []
    else
      var dep := names[upTo - 1];
      DependantUnits(services, names, name, upTo - 1)
      + if DependsOn(services, dep, name) then UnitsOf(dep, services[dep]) else []
  }

  lemma DependantsStep(services: map<string, ServiceDecl>, names: seq<string>, name: string, k: nat)
    requires Known(names, services) && k < |names| && names[k] in services
    ensures Dependants(services, names, name, 0) == DependantUnits(services, names, name, 0) == []
    ensures Dependants(services, names, name, k + 1)
      == Dependants(services, names, name, k) + if DependsOn(services, names[k], name) then [names[k]] else []
    ensures DependantUnits(services, names, name, k + 1)
      == DependantUnits(services, names, name, k)
           + if DependsOn(services, names[k], name) then UnitsOf(names[k], services[names[k]]) else []
  {
    hide UnitsOf, DependsOn;
  }

  /** The loop over the services that may depend on the database. */
  method CollectDependants(services: map<string, ServiceDecl>, names: seq<string>, name: string)
    returns (dependants: seq<string>, units: seq<string>)
    requires Known(names, services)
    ensures dependants == Dependants(services, names, name, |names|)
    ensures units == DependantUnits(services, names, name, |names|)
  {
    dependants, units := [], [];
    hide Dependants, DependantUnits, UnitsOf, ContainerName, Instances;
    if |names| == 0 {
      NoDependants(services, names, name);
      return;
    }
    DependantsStep(services, names, name, 0);
    for k := 0 to |names|
      invariant dependants == Dependants(services, names, name, k)
      invariant units == DependantUnits(services, names, name, k)
    {
      var dep := names[k];
      DependantsStep(services, names, name, k);
      assert dependants + [] == dependants && units + [] == units;
      if dep == name {
        continue;
      }
      for r := 0 to |services[dep].needs|
        invariant name !in services[dep].needs[..r]
        invariant dependants == Dependants(services, names, name, k)
        invariant units == DependantUnits(services, names, name, k)
      {
        if services[dep].needs[r] == name {
          var more := UnitNames(dep, services[dep]);
          dependants := dependants + [dep];
          units := units + more;
          break;
        }
      }
      assert services[dep].needs[..|services[dep].needs|] == services[dep].needs;
    }
  }

  lemma NoDependants(services: map<string, ServiceDecl>, names: seq<string>, name: string)
    requires Known(names, services)
    ensures Dependants(services, names, name, 0) == DependantUnits(services, names, name, 0) == []
  {
  }

  method UnitNames(service: string, svc: ServiceDecl) returns (units: seq<string>)
    ensures units == UnitsOf(service, svc)
  {
    var names := ContainerNames(service, svc.replicas);
    hide ContainerName;
    units := [];
    for i := 0 to |names|
      invariant units == UnitsOf(service, svc)[..i]
    {
      units := units + [names[i] + ".service"];
    }
  }

  lemma {:induction false} InDependantUnits(services: map<string, ServiceDecl>, names: seq<string>, name: string,
                                            upTo: nat, unit: string)
    requires Known(names, services) && upTo <= |names|
    ensures unit in DependantUnits(services, names, name, upTo) <==>
      exists k :: 0 <= k < upTo && DependsOn(services, names[k], name) && unit in UnitsOf(names[k], services[names[k]])
  {
    hide UnitsOf, DependsOn;
    if upTo > 0 {
      InDependantUnits(services, names, name, upTo - 1, unit);
      DependantsStep(services, names, name, upTo - 1);
    }
  }

  // ---------------------------------------------------------------------------- the lookup

  predicate Archives(svc: ServiceDecl) {
    EnvValue(svc.env, "PGBACKREST_HOST") != ""
  }

  function OrElse(s: string, fallback: string): string {
    if s == "" then fallback else s
  }

  /** What the lookup reports once it has settled on a service. */
  ghost function FoundAt(services: map<string, ServiceDecl>, name: string): Result
    requires name in services
  {
    var svc := services[name];
    var host := EnvValue(svc.env, "PGBACKREST_HOST");
    var repo := TrimPrefix(host, "ownbase-");
    var names := SortedSet(services.Keys);
    AllKnown(services);
    if repo !in services then Err(NoRepositoryService(name, host))
    else if RepoDecl(services[repo].volumes).None? then Err(NoRepositoryVolume(repo))
    else
      RepoDeclMeans(services[repo].volumes);
      var v := services[repo].volumes[RepoDecl(services[repo].volumes).value];
      Ok(Found(
        name, svc.replicas,
        OrElse(EnvValue(svc.env, "PGBACKREST_STANZA"), "main"),
        OrElse(EnvValue(svc.env, "POSTGRES_USER"), "postgres"),
        EnvValue(svc.env, "POSTGRES_DB"),
        RepoVolumeName(repo, v),
        DataVolumeAt(NamedMounts(name, svc, 0), PostgresDataDir(svc)),
        PostgresDataDir(svc),
        Dependants(services, names, name, |names|),
        DependantUnits(services, names, name, |names|)))
  }

  method FindDataVolume(mounts: seq<VolumeMount>, dir: string) returns (volume: string)
    ensures volume == DataVolumeAt(mounts, dir)
  {
    volume := "";
    hide TrimRightSlashes;
    for i := 0 to |mounts|
      invariant DataVolumeAt(mounts[i..], dir) == DataVolumeAt(mounts, dir)
    {
      assert mounts[i..][0] == mounts[i] && mounts[i..][1..] == mounts[i + 1..];
      if TrimRightSlashes(mounts[i].mountPath) == dir {
        return mounts[i].volumeName;
      }
    }
  }

  method FindRepoVolume(volumes: seq<VolumeDecl>, service: string) returns (volume: string)
    ensures RepoDecl(volumes).None? ==> volume == ""
    ensures RepoDecl(volumes).Some? ==>
      (RepoDecl(volumes).value < |volumes|
       && volume == RepoVolumeName(service, volumes[RepoDecl(volumes).value]))
  {
    volume := "";
    for i := 0 to |volumes|
      invariant RepoDecl(volumes) ==
        match RepoDecl(volumes[i..]) case None => None case Some(k) => Some(i + k)
    {
      assert volumes[i..][0] == volumes[i] && volumes[i..][1..] == volumes[i + 1..];
      if volumes[i].mount == REPO_MOUNT {
        return "ownbase-" + service + "-" + volumes[i].name;
      }
    }
  }

  /** The body of the loop, for a service that archives. */
  method Locate(services: map<string, ServiceDecl>, names: seq<string>, name: string) returns (r: Result)
    requires names == SortedSet(services.Keys) && Known(names, services) && name in services
    ensures r == FoundAt(services, name)
  {
    var svc := services[name];
    var host := EnvValue(svc.env, "PGBACKREST_HOST");
    var stanza, superUser := EnvValue(svc.env, "PGBACKREST_STANZA"), EnvValue(svc.env, "POSTGRES_USER");
    if stanza == "" {
      stanza := "main";
    }
    if superUser == "" {
      superUser := "postgres";
    }
    var repoService := TrimPrefix(host, "ownbase-");
    if repoService !in services {
      return Err(NoRepositoryService(name, host));
    }
    var repoVolume := FindRepoVolume(services[repoService].volumes, repoService);
    if repoVolume == "" {
      return Err(NoRepositoryVolume(repoService));
    }
    var dataDir := PostgresDataDir(svc);
    var mounts := ServiceVolumeMounts(name, svc);
    var dataVolume := FindDataVolume(mounts, dataDir);
    var dependants, units := CollectDependants(services, names, name);
    hide SortedSet, Dependants, DependantUnits, NamedMounts, DataVolumeAt, PostgresDataDir, EnvValue;
    return Ok(Found(name, svc.replicas, stanza, superUser, EnvValue(svc.env, "POSTGRES_DB"),
                    repoVolume, dataVolume, dataDir, dependants, units));
  }

  /** The least-named service that archives. */
  ghost predicate IsFirstArchiver(services: map<string, ServiceDecl>, name: string) {
    && name in services && Archives(services[name])
    && forall other | other in services && Archives(services[other]) :: !Less(other, name)
  }

  lemma FirstArchiver(services: map<string, ServiceDecl>, names: seq<string>, k: nat, name: string)
    requires names == SortedSet(services.Keys) && Known(names, services) && k < |names|
    requires Archives(services[names[k]]) && forall j | 0 <= j < k :: !Archives(services[names[j]])
    requires IsFirstArchiver(services, name)
    ensures name == names[k]
  {
    hide Archives, Less, SortedSet;
    var i := IndexIn(services.Keys, name);
    LaterIsGreater(names, k);
  }

  lemma LaterIsGreater(s: seq<string>, k: nat)
    requires Increasing(s) && k < |s|
    ensures forall i | k < i < |s| :: Less(s[k], s[i])
  {
  }

  /** FindPGBackRest: the first service in name order that archives anywhere decides. */
  method FindPGBackRest(config: Config) returns (r: Result)
    ensures (forall name | name in config.services :: !Archives(config.services[name])) ==> r == Err(NoPostgres)
    ensures forall name | name in config.services && IsFirstArchiver(config.services, name) ::
      r == FoundAt(config.services, name)
  {
    var names := SortedKeys(config.services);
    AllKnown(config.services);
    assert forall x :: x in names <==> x in Elems(names);
    hide FoundAt, Less, SortedSet, EnvValue, IsFirstArchiver;
    for k := 0 to |names|
      invariant forall j | 0 <= j < k :: !Archives(config.services[names[j]])
    {
      if EnvValue(config.services[names[k]].env, "PGBACKREST_HOST") == "" {
        continue;
      }
      r := Locate(config.services, names, names[k]);
      forall name | name in config.services && IsFirstArchiver(config.services, name) ensures name == names[k] {
        FirstArchiver(config.services, names, k, name);
      }
      return;
    }
    r := Err(NoPostgres);
  }

  // ------------------------------------------------------------ what a restore can rely on

  lemma InUnitsOf(service: string, svc: ServiceDecl, unit: string)
    ensures unit in UnitsOf(service, svc) <==>
      exists i: nat :: i < Instances(svc.replicas) && unit == ContainerName(service, svc.replicas, i) + ".service"
  {
    hide ContainerName;
    if i: nat :| i < Instances(svc.replicas) && unit == ContainerName(service, svc.replicas, i) + ".service" {
      assert UnitsOf(service, svc)[i] == unit;
    }
  }

  lemma SameUnit(a: string, b: string)
    requires a + ".service" == b + ".service"
    ensures a == b
  {
    assert (a + ".service")[..|a|] == a && (b + ".service")[..|b|] == b;
  }

  /** The units to be stopped are those of the instances of the services that require the database. */
  lemma DependantUnitsAre(services: map<string, ServiceDecl>, name: string, unit: string)
    ensures var names := SortedSet(services.Keys);
      Known(names, services)
      && (unit in DependantUnits(services, names, name, |names|) <==>
            exists dep, i: nat :: IsDependantUnit(services, name, unit, dep, i))
  {
    var names := SortedSet(services.Keys);
    AllKnown(services);
    hide UnitsOf, DependantUnits, SortedSet, ContainerName;
    InDependantUnits(services, names, name, |names|, unit);
    if k :| 0 <= k < |names| && DependsOn(services, names[k], name) && unit in UnitsOf(names[k], services[names[k]]) {
      InUnitsOf(names[k], services[names[k]], unit);
      var i: nat :| i < Instances(services[names[k]].replicas)
        && unit == ContainerName(names[k], services[names[k]].replicas, i) + ".service";
      assert IsDependantUnit(services, name, unit, names[k], i);
    }
    if dep, i: nat :| IsDependantUnit(services, name, unit, dep, i) {
      var k := IndexIn(services.Keys, dep);
      InUnitsOf(dep, services[dep], unit);
    }
  }

  ghost predicate IsDependantUnit(services: map<string, ServiceDecl>, name: string, unit: string, dep: string, i: nat) {
    && dep in services && DependsOn(services, dep, name)
    && i < Instances(services[dep].replicas) && unit == ContainerName(dep, services[dep].replicas, i) + ".service"
  }

  lemma InstanceNeeds(services: map<string, ServiceDecl>, c: ContainerModel, dep: string, i: nat, name: string)
    requires IsInstance(services, c, dep, i)
    ensures name in c.needs <==> name in services[dep].needs
    ensures c.serviceName == dep && !c.isJob
  {
    hide TunnelPorts, Less;
    var needs := services[dep].needs;
    SortSorts(needs);
    assert name in Sort(needs) <==> name in multiset(Sort(needs));
    assert name in needs <==> name in multiset(needs);
  }

  /** A service container is stopped before the data directory is touched exactly when its service
      requires the database: every replica of every such service, and no other. */
  lemma ReplicasAreStopped(config: Config, name: string, c: ContainerModel, dep: string, i: nat)
    requires NoCollision(Kind.Containers, config.services) && IsInstance(config.services, c, dep, i)
    ensures var names := SortedSet(config.services.Keys);
      Known(names, config.services)
      && (c.name + ".service" in DependantUnits(config.services, names, name, |names|)
          <==> c.serviceName != name && name in c.needs)
  {
    var services := config.services;
    InstanceName(services, c, dep, i);
    InstanceNeeds(services, c, dep, i, name);
    DependantUnitsAre(services, name, c.name + ".service");
    hide DependantUnits, SortedSet, ContainerName, IsInstance, NoCollision, Known, Instances;
    if other, j: nat :| IsDependantUnit(services, name, c.name + ".service", other, j) {
      SameUnit(c.name, ContainerName(other, services[other].replicas, j));
      ContainerClaims(other, services[other], j);
      ContainerClaims(dep, services[dep], i);
      ClaimedOnce(Kind.Containers, services, other, j, dep, i);
    }
    if dep != name && name in services[dep].needs {
      assert IsDependantUnit(services, name, c.name + ".service", dep, i);
    }
  }

  lemma ContainerClaims(service: string, svc: ServiceDecl, i: nat)
    requires i < Instances(svc.replicas)
    ensures i < |Claims(Kind.Containers, service, svc)|
    ensures Claims(Kind.Containers, service, svc)[i] == ContainerName(service, svc.replicas, i)
  {
    hide ContainerName;
  }

  /** A job is never stopped, although it runs in a service that may require the database and has
      that service's networks: if it is running, it keeps its connection. */
  lemma JobsAreNotStopped(config: Config, name: string, c: ContainerModel, job: string)
    requires NoJobPrefix(config.services) && !exists i :: JobTakesReplica(config, i)
    requires ReplicasInRange(config.services) && IsJob(config, c, job)
    ensures var names := SortedSet(config.services.Keys);
      Known(names, config.services)
      && c.name + ".service" !in DependantUnits(config.services, names, name, |names|)
  {
    hide *;
    DependantUnitsAre(config.services, name, c.name + ".service");
    if dep, j: nat :| IsDependantUnit(config.services, name, c.name + ".service", dep, j) {
      JobUnitClash(config, name, c, job, dep, j);
      assert false;
    }
  }

  lemma JobUnitClash(config: Config, name: string, c: ContainerModel, job: string, dep: string, j: nat)
    requires NoJobPrefix(config.services) && ReplicasInRange(config.services)
    requires IsJob(config, c, job) && IsDependantUnit(config.services, name, c.name + ".service", dep, j)
    ensures JobTakesReplica(config, j)
  {
    var services := config.services;
    JobName(config, c, job);
    JobCompiled(config, c, job);
    hide ContainerName, IsJob, IsCompiled;
    SameUnit(c.name, ContainerName(dep, services[dep].replicas, j));
    ServiceOrJob(dep, services[dep].replicas, j, job);
  }

  lemma JobCompiled(config: Config, c: ContainerModel, job: string)
    requires IsJob(config, c, job)
    ensures IsCompiled(config, job)
  {
    hide JobContainer;
  }

  /** The restore stops exactly these units: its fallback for an empty list never adds any. */
  lemma RestoreStopsThem(services: map<string, ServiceDecl>, name: string)
    requires name in services && FoundAt(services, name).Ok?
    ensures var names := SortedSet(services.Keys);
      Known(names, services)
      && FoundAt(services, name).found.ForRestore().Units() == DependantUnits(services, names, name, |names|)
  {
    var names := SortedSet(services.Keys);
    AllKnown(services);
    hide SortedSet, EnvValue, RepoDecl, NamedMounts, DataVolumeAt, Dependants, DependantUnits;
    NoUnitsNoDependants(services, names, name, |names|);
  }

  /** The database's own unit is never among them, which is what the order of a restore rests on. */
  lemma DatabaseIsNoDependant(services: map<string, ServiceDecl>, name: string)
    requires NoCollision(Kind.Containers, services) && name in services && FoundAt(services, name).Ok?
    ensures var pb := FoundAt(services, name).found.ForRestore(); pb.Unit() !in pb.Units()
  {
    hide *;
    RestoreStopsThem(services, name);
    DatabaseUnit(services, name);
    var unit := FoundAt(services, name).found.ForRestore().Unit();
    DependantUnitsAre(services, name, unit);
    if dep, i: nat :| IsDependantUnit(services, name, unit, dep, i) {
      OtherUnit(services, name, dep, i);
    }
  }

  /** From the configuration to the restore: what is found in it is restored, and before the data directory is
      replaced, the unit of every instance of every service that requires the database, and the database's
      own, has been stopped and has not been started again. */
  method RestoreDatabase(config: Config, repoResolves: bool, dataResolves: bool,
                         feed: Restore.Feed, start: int, described: bool, ghost changes: nat)
    returns (r: Result, out: Restore.Outcome, log: seq<Restore.Event>, ghost steps: seq<Restore.Event>)
    requires NoCollision(Kind.Containers, config.services)
    requires Restore.Ticks(feed, start) && forall k: nat :: Restore.Changes(feed, start, k) <= changes
    ensures (forall name | name in config.services :: !Archives(config.services[name])) ==> r == Err(NoPostgres)
    ensures forall name | name in config.services && IsFirstArchiver(config.services, name) ::
      r == FoundAt(config.services, name)
    ensures r.Err? ==> log == [] && out.Failed?
    ensures r.Ok? ==> r.found.service in config.services && r == FoundAt(config.services, r.found.service)
    ensures r.Ok? ==> forall c, dep, i: nat, at: nat |
        && IsInstance(config.services, c, dep, i) && IsStoppedFor(config.services, r.found, dep, i)
        && at < |log| && log[at].Replaced? ::
      StaysStopped(log, at, c.name + ".service")
    ensures r.Ok? && (r.found.dataVolume == "" || !repoResolves || !dataResolves) ==> log == [] && out.Failed?
    ensures r.Ok? && r.found.dataVolume != "" && repoResolves && dataResolves ==>
      var pb := r.found.ForRestore();
      && Restore.StepsAre(pb, feed, start, described, steps, out) && Restore.CleanedUp(pb, log)
      && if out.Succeeded? then log == steps
         else Restore.BroughtBack(pb, steps, log, Restore.LeavesItDown(pb, steps))
  {
    hide *;
    r := FindPGBackRest(config);
    out, log, steps := Restore.Failed, [], [];
    FoundSomewhere(config, r);
    if r.Err? {
      return;
    }
    var pb := r.found.ForRestore();
    DatabaseIsNoDependant(config.services, r.found.service);
    var host;
    assert pb.dataVolume == r.found.dataVolume by {
      ForRestoreVolume(r.found);
    }
    out, host, steps := Restore.RestoreIntoProduction(pb, repoResolves, dataResolves, feed, start, described, changes);
    log := host.log;
    forall c, dep, i: nat, at: nat |
        && IsInstance(config.services, c, dep, i) && IsStoppedFor(config.services, r.found, dep, i)
        && at < |log| && log[at].Replaced?
      ensures StaysStopped(log, at, c.name + ".service")
    {
      InstanceStaysStopped(config, r.found, log, c, dep, i, at);
    }
  }

  lemma ForRestoreVolume(found: Found)
    ensures found.ForRestore().dataVolume == found.dataVolume
  {
  }

  /** The database itself, and every instance of a service that requires it. */
  predicate IsStoppedFor(services: map<string, ServiceDecl>, found: Found, dep: string, i: nat) {
    dep in services && ((dep == found.service && i == 0) || DependsOn(services, dep, found.service))
  }

  ghost predicate StaysStopped(log: seq<Restore.Event>, at: nat, unit: string) {
    exists k :: (
      0 <= k < at && k < |log| && log[k] == Restore.Stopped(unit, true) && Restore.NotStarted(log, k, at, unit))
  }

  /** The lookup settles on a service or fails. */
  lemma FoundSomewhere(config: Config, r: Result)
    requires (forall name | name in config.services :: !Archives(config.services[name])) ==> r == Err(NoPostgres)
    requires forall name | name in config.services && IsFirstArchiver(config.services, name) ::
      r == FoundAt(config.services, name)
    ensures r.Ok? ==> r.found.service in config.services && r == FoundAt(config.services, r.found.service)
  {
    hide *;
    if name :| name in config.services && Archives(config.services[name]) {
      var first := SomeFirst(config.services);
      FoundIsNamed(config.services, first);
    }
  }

  lemma FoundIsNamed(services: map<string, ServiceDecl>, name: string)
    requires name in services
    ensures FoundAt(services, name).Ok? ==> FoundAt(services, name).found.service == name
  {
    hide SortedSet, EnvValue, RepoDecl, NamedMounts, DataVolumeAt, Dependants, DependantUnits;
  }

  /** The first variable of that name. */
  ghost predicate IsFirstVariable(env: seq<string>, key: string, i: nat) {
    i < |env| && key + "=" <= env[i] && forall j | 0 <= j < i :: !(key + "=" <= env[j])
  }

  lemma {:induction false} EnvValueMeans(env: seq<string>, key: string)
    ensures if exists i: nat :: IsFirstVariable(env, key, i)
            then exists i: nat :: IsFirstVariable(env, key, i) && EnvValue(env, key) == TrimSpace(env[i][|key| + 1..])
            else EnvValue(env, key) == ""
  {
    if env != [] {
      if key + "=" <= env[0] {
        assert IsFirstVariable(env, key, 0);
      } else {
        var rest := env[1..];
        EnvValueMeans(rest, key);
        if i: nat :| IsFirstVariable(env, key, i) {
          assert IsFirstVariable(rest, key, i - 1);
        }
        if i: nat :| IsFirstVariable(rest, key, i) && EnvValue(rest, key) == TrimSpace(rest[i][|key| + 1..]) {
          assert IsFirstVariable(env, key, i + 1);
        }
      }
    }
  }

  /** A service archives if the first variable that names a repository host is not blank. */
  lemma ArchivesMeans(svc: ServiceDecl)
    ensures Archives(svc) <==>
      exists i: nat :: IsFirstVariable(svc.env, "PGBACKREST_HOST", i) && TrimSpace(svc.env[i][16..]) != ""
  {
    assert |"PGBACKREST_HOST"| + 1 == 16;
    EnvValueMeans(svc.env, "PGBACKREST_HOST");
    hide EnvValue, TrimSpace;
    forall i: nat, j: nat |
        IsFirstVariable(svc.env, "PGBACKREST_HOST", i) && IsFirstVariable(svc.env, "PGBACKREST_HOST", j)
      ensures i == j {
    }
  }

  lemma {:induction false} InDependants(services: map<string, ServiceDecl>, names: seq<string>, name: string,
                                        upTo: nat, dep: string)
    requires Known(names, services) && upTo <= |names|
    ensures dep in Dependants(services, names, name, upTo) <==>
      dep in names[..upTo] && dep in services && dep != name && name in services[dep].needs
  {
    if upTo > 0 {
      InDependants(services, names, name, upTo - 1, dep);
      KnownAt(names, services, upTo - 1);
      assert names[..upTo] == names[..upTo - 1] + [names[upTo - 1]];
      hide Known;
    }
  }

  /** And which services depend on it. */
  lemma FoundDependants(services: map<string, ServiceDecl>, name: string, dep: string)
    requires name in services && FoundAt(services, name).Ok?
    ensures dep in FoundAt(services, name).found.dependants <==>
      dep in services && dep != name && name in services[dep].needs
  {
    var names := SortedSet(services.Keys);
    AllKnown(services);
    InDependants(services, names, name, |names|, dep);
    assert names[..|names|] == names && (dep in names <==> dep in Elems(names));
    hide SortedSet, EnvValue, RepoDecl, NamedMounts, DataVolumeAt, Dependants, DependantUnits;
  }

  /** What is found says where the database is and how to log in: each from its own variable, or the
      default if that is unset or blank. */
  lemma FoundFields(services: map<string, ServiceDecl>, name: string)
    requires name in services && FoundAt(services, name).Ok?
    ensures var found, svc := FoundAt(services, name).found, services[name];
      var env := svc.env;
      && found.service == name && found.replicas == svc.replicas
      && found.stanza
           == (if EnvValue(env, "PGBACKREST_STANZA") != "" then EnvValue(env, "PGBACKREST_STANZA") else "main")
      && found.superUser
           == (if EnvValue(env, "POSTGRES_USER") != "" then EnvValue(env, "POSTGRES_USER") else "postgres")
      && found.database == EnvValue(env, "POSTGRES_DB")
      && (if EnvValue(env, "PGBACKREST_PG1_PATH") != ""
          then found.dataDir == TrimRightSlashes(EnvValue(env, "PGBACKREST_PG1_PATH"))
          else if EnvValue(env, "PGDATA") != "" then found.dataDir == TrimRightSlashes(EnvValue(env, "PGDATA"))
          else found.dataDir == "/var/lib/postgresql/data")
      && TrimPrefix(EnvValue(env, "PGBACKREST_HOST"), "ownbase-") in services
  {
    hide SortedSet, EnvValue, RepoDecl, NamedMounts, DataVolumeAt, Dependants, DependantUnits, TrimRightSlashes;
  }

  /** The first declaration that is mounted where a repository is kept. */
  ghost predicate IsFirstRepo(volumes: seq<VolumeDecl>, k: nat) {
    && k < |volumes| && volumes[k].mount == "/var/lib/pgbackrest"
    && forall j | 0 <= j < k :: volumes[j].mount != "/var/lib/pgbackrest"
  }

  /** The first mount at a directory, trailing slashes aside. */
  ghost predicate IsFirstMount(mounts: seq<VolumeMount>, dir: string, k: nat) {
    && k < |mounts| && TrimRightSlashes(mounts[k].mountPath) == dir
    && forall j | 0 <= j < k :: TrimRightSlashes(mounts[j].mountPath) != dir
  }

  lemma {:induction false} RepoDeclFirst(volumes: seq<VolumeDecl>)
    ensures RepoDecl(volumes).None? <==> forall v | v in volumes :: v.mount != "/var/lib/pgbackrest"
    ensures RepoDecl(volumes).Some? ==> IsFirstRepo(volumes, RepoDecl(volumes).value)
  {
    if volumes != [] {
      RepoDeclFirst(volumes[1..]);
    }
  }

  lemma {:induction false} DataVolumeFirst(mounts: seq<VolumeMount>, dir: string)
    ensures if exists k: nat :: IsFirstMount(mounts, dir, k)
            then exists k: nat :: IsFirstMount(mounts, dir, k) && DataVolumeAt(mounts, dir) == mounts[k].volumeName
            else DataVolumeAt(mounts, dir) == ""
  {
    hide TrimRightSlashes;
    if mounts != [] {
      if TrimRightSlashes(mounts[0].mountPath) == dir {
        assert IsFirstMount(mounts, dir, 0);
      } else {
        var rest := mounts[1..];
        DataVolumeFirst(rest, dir);
        if k: nat :| IsFirstMount(mounts, dir, k) {
          assert IsFirstMount(rest, dir, k - 1);
        }
        if k: nat :| IsFirstMount(rest, dir, k) && DataVolumeAt(rest, dir) == rest[k].volumeName {
          assert IsFirstMount(mounts, dir, k + 1);
        }
      }
    }
  }

  /** The volumes are those of the first declaration of the repository service at the repository's path, and of
      the first mount of the database's own container at its data directory. */
  lemma FoundVolumes(services: map<string, ServiceDecl>, name: string)
    requires name in services && FoundAt(services, name).Ok?
    ensures var found, repo := FoundAt(services, name).found,
        TrimPrefix(EnvValue(services[name].env, "PGBACKREST_HOST"), "ownbase-");
      && repo in services
      && (exists k: nat :: (
            IsFirstRepo(services[repo].volumes, k)
            && found.repoVolume == "ownbase-" + repo + "-" + services[repo].volumes[k].name))
    ensures var found, mounts := FoundAt(services, name).found, NamedMounts(name, services[name], 0);
      if exists k: nat :: IsFirstMount(mounts, found.dataDir, k)
      then exists k: nat :: IsFirstMount(mounts, found.dataDir, k) && found.dataVolume == mounts[k].volumeName
      else found.dataVolume == ""
  {
    var repo := TrimPrefix(EnvValue(services[name].env, "PGBACKREST_HOST"), "ownbase-");
    hide SortedSet, EnvValue, RepoDecl, NamedMounts, DataVolumeAt, Dependants, DependantUnits, TrimRightSlashes;
    RepoDeclFirst(services[repo].volumes);
    DataVolumeFirst(NamedMounts(name, services[name], 0), PostgresDataDir(services[name]));
  }

  /** The lookup of a service that archives fails for one of two reasons, and says which. */
  lemma FoundFails(services: map<string, ServiceDecl>, name: string)
    requires name in services
    ensures var host := EnvValue(services[name].env, "PGBACKREST_HOST");
      var repo := TrimPrefix(host, "ownbase-");
      if repo !in services then FoundAt(services, name) == Err(NoRepositoryService(name, host))
      else if forall v | v in services[repo].volumes :: v.mount != "/var/lib/pgbackrest"
           then FoundAt(services, name) == Err(NoRepositoryVolume(repo))
      else FoundAt(services, name).Ok?
  {
    var repo := TrimPrefix(EnvValue(services[name].env, "PGBACKREST_HOST"), "ownbase-");
    hide SortedSet, EnvValue, RepoDecl, NamedMounts, DataVolumeAt, Dependants, DependantUnits, TrimRightSlashes;
    if repo in services {
      RepoDeclFirst(services[repo].volumes);
    }
  }

  lemma SomeFirst(services: map<string, ServiceDecl>) returns (name: string)
    requires exists n :: n in services && Archives(services[n])
    ensures name in services && IsFirstArchiver(services, name)
  {
    hide Archives, Less, SortedSet;
    var names := SortedSet(services.Keys);
    var any :| any in services && Archives(services[any]);
    var at := IndexIn(services.Keys, any);
    var k := 0;
    AllKnown(services);
    while !Archives(services[names[k]])
      invariant 0 <= k <= at && forall j | 0 <= j < k :: !Archives(services[names[j]])
      decreases at - k
    {
      k := k + 1;
    }
    name := names[k];
    forall other | other in services && Archives(services[other]) ensures !Less(other, name) {
      var j := IndexIn(services.Keys, other);
      LaterIsGreater(names, k);
      LessTotal(other, name);
    }
  }

  lemma InstanceStaysStopped(config: Config, found: Found, log: seq<Restore.Event>, c: ContainerModel,
                             dep: string, i: nat, at: nat)
    requires NoCollision(Kind.Containers, config.services)
    requires found.service in config.services && FoundAt(config.services, found.service) == Ok(found)
    requires Restore.Safe(found.ForRestore(), log) && at < |log| && log[at].Replaced?
    requires IsInstance(config.services, c, dep, i) && IsStoppedFor(config.services, found, dep, i)
    ensures StaysStopped(log, at, c.name + ".service")
  {
    hide *;
    var services, name := config.services, found.service;
    StoppedForMeans(services, found, dep, i);
    RestoreStopsThem(services, name);
    InstanceName(services, c, dep, i);
    DatabaseUnit(services, name);
    InstanceNeeds(services, c, dep, i, name);
    ReplicasAreStopped(config, name, c, dep, i);
    Restore.ReplacedMeans(found.ForRestore(), log, at, c.name + ".service");
    StopsStay(log, at, c.name + ".service");
  }

  lemma StoppedForMeans(services: map<string, ServiceDecl>, found: Found, dep: string, i: nat)
    requires IsStoppedFor(services, found, dep, i)
    ensures dep in services
    ensures (dep == found.service && i == 0) || (dep != found.service && found.service in services[dep].needs)
  {
  }

  lemma StopsStay(log: seq<Restore.Event>, at: nat, unit: string)
    requires at < |log|
    requires exists k :: 0 <= k < at && log[k] == Restore.Stopped(unit, true) && Restore.NotStarted(log, k, at, unit)
    ensures StaysStopped(log, at, unit)
  {
  }

  lemma DatabaseUnit(services: map<string, ServiceDecl>, name: string)
    requires name in services && FoundAt(services, name).Ok?
    ensures FoundAt(services, name).found.ForRestore().Unit()
      == ContainerName(name, services[name].replicas, 0) + ".service"
  {
    hide SortedSet, EnvValue, RepoDecl, NamedMounts, DataVolumeAt, Dependants, DependantUnits;
  }

  lemma OtherUnit(services: map<string, ServiceDecl>, name: string, dep: string, i: nat)
    requires NoCollision(Kind.Containers, services) && name in services
    ensures !IsDependantUnit(services, name, ContainerName(name, services[name].replicas, 0) + ".service", dep, i)
  {
    var unit := ContainerName(name, services[name].replicas, 0) + ".service";
    hide ContainerName, NoCollision, Instances;
    if IsDependantUnit(services, name, unit, dep, i) {
      SameUnit(ContainerName(name, services[name].replicas, 0), ContainerName(dep, services[dep].replicas, i));
      ContainerClaims(dep, services[dep], i);
      OneInstance(services[name].replicas);
      ContainerClaims(name, services[name], 0);
      ClaimedOnce(Kind.Containers, services, name, 0, dep, i);
    }
  }

  lemma OneInstance(replicas: Option<int>)
    ensures Instances(replicas) >= 1
  {
  }

  lemma {:induction false} NoUnitsNoDependants(services: map<string, ServiceDecl>, names: seq<string>, name: string,
                                               upTo: nat)
    requires Known(names, services) && upTo <= |names|
    ensures DependantUnits(services, names, name, upTo) == [] ==> Dependants(services, names, name, upTo) == []
  {
    hide DependsOn, ContainerName;
    if upTo > 0 {
      NoUnitsNoDependants(services, names, name, upTo - 1);
    }
  }

  /** A data volume that is found is mounted at the data directory by the primary container, and is
      among the volumes the compiler declares. */
  lemma DataVolumeIsMounted(config: Config, name: string)
    requires name in config.services && FoundAt(config.services, name).Ok?
    requires FoundAt(config.services, name).found.dataVolume != "" && config.services[name].ReplicaCount() >= 1
    ensures var found := FoundAt(config.services, name).found;
      && (exists vm :: vm in NamedMounts(name, config.services[name], 0) && vm.volumeName == found.dataVolume
            && TrimRightSlashes(vm.mountPath) == found.dataDir)
      && found.dataVolume in Compile(config).volumes
  {
    var found := FoundAt(config.services, name).found;
    var svc := config.services[name];
    assert found.dataVolume == DataVolumeAt(NamedMounts(name, svc, 0), found.dataDir);
    hide FoundAt, NamedMounts, Compile, ExpandedVolumeNames, TrimRightSlashes;
    var k := DataVolumeAtMeans(NamedMounts(name, svc, 0), found.dataDir);
    var vm := NamedMounts(name, svc, 0)[k];
    MountsAreCreated(name, svc, 0, vm);
    CompiledVolumes(config, found.dataVolume);
  }

  lemma {:induction false} DataVolumeAtMeans(mounts: seq<VolumeMount>, dir: string) returns (k: nat)
    requires DataVolumeAt(mounts, dir) != ""
    ensures k < |mounts| && mounts[k].volumeName == DataVolumeAt(mounts, dir)
    ensures TrimRightSlashes(mounts[k].mountPath) == dir
  {
    hide TrimRightSlashes;
    if TrimRightSlashes(mounts[0].mountPath) == dir {
      k := 0;
    } else {
      k := DataVolumeAtMeans(mounts[1..], dir);
      k := k + 1;
    }
  }

  // -------------------------------------------------- a repository volume nobody has

  /** A replicated database that keeps its own repository. */
  function OwnRepository(): ServiceDecl {
    Plain(Some(1)).(env := ["PGBACKREST_HOST=ownbase-r"], volumes := [VolumeDecl("b", REPO_MOUNT, [], None)])
  }

  /** It is accepted, and the repository volume the lookup reports for it is none that the compiler
      declares: that one carries the index of the replica. */
  lemma AcceptedRepository(config: Config)
    requires config.services == map["r" := OwnRepository()] && config.jobs == map[]
    ensures Accepted(config) && IsFirstArchiver(config.services, "r") && FoundAt(config.services, "r").Ok?
    ensures FoundAt(config.services, "r").found.repoVolume !in Compile(config).volumes
  {
    var services := config.services;
    OwnRepositoryIsFound(services);
    var repo := FoundAt(services, "r").found.repoVolume;
    CompiledVolumes(config, repo);
    OneRepositoryVolume();
    hide FoundAt, Compile, OwnRepository, IsFirstArchiver, Claims, Accepted, ExpandedVolumeNames, Distinct;
    OwnRepositoryIsPlain();
    AcceptedAlone(config, "r", OwnRepository());
  }

  lemma OneRepositoryVolume()
    ensures ExpandedVolumeNames("r", OwnRepository()) == ["ownbase-r-b-0"]
    ensures Distinct(Claims(Kind.Volumes, "r", OwnRepository()))
  {
    var svc := OwnRepository();
    assert VolumesOfDecls("r", svc, svc.volumes[..0]) == [];
    assert Dec(0) == "0";
    assert VolumeName("r", "b", Some(1), 0, true) == "ownbase-r-b-0";
    assert VolumeInstances("r", svc, svc.volumes[0]) == ["ownbase-r-b-0"];
  }

  lemma OwnRepositoryIsPlain()
    ensures OwnRepository().port == 0 && OwnRepository().ReplicaCount() == 1 && OwnRepository().needs == []
    ensures !HasPrefix("r", "job-")
  {
  }

  lemma OwnHost()
    ensures EnvValue(OwnRepository().env, "PGBACKREST_HOST") == "ownbase-r"
    ensures TrimPrefix("ownbase-r", "ownbase-") == "r"
  {
    var key := "PGBACKREST_HOST" + "=";
    var kv := "PGBACKREST_HOST=ownbase-r";
    assert kv[..|key|] == key && kv[|key|..] == "ownbase-r";
    assert TrimSpace("ownbase-r") == "ownbase-r";
  }

  lemma OwnRepositoryIsFound(services: map<string, ServiceDecl>)
    requires services == map["r" := OwnRepository()]
    ensures IsFirstArchiver(services, "r") && FoundAt(services, "r").Ok?
    ensures FoundAt(services, "r").found.repoVolume == "ownbase-r-b"
  {
    OwnHost();
    LessTotal("r", "r");
    hide EnvValue, Less, SortedSet, Dependants, DependantUnits, NamedMounts, PostgresDataDir, DataVolumeAt;
    assert RepoDecl(OwnRepository().volumes) == Some(0);
    assert OwnRepository().volumes[0].name == "b";
  }
}
