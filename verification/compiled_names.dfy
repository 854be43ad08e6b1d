/** When every container has a name, and so a unit file, of its own. */
module CompiledNames {
  import opened Text
  import opened Order
  import opened Schema
  import opened Containers
  import opened Compiler
  import opened Compiled

  ghost predicate NamesDistinct(cs: seq<ContainerModel>) {
    forall i, j | 0 <= i < j < |cs| :: cs[i].name != cs[j].name
  }

  /** Part of Validate: the prefix of jobs is kept free of services. */
  ghost predicate NoJobPrefix(services: map<string, ServiceDecl>) {
    forall name | name in services :: !HasPrefix(name, "job-")
  }

  /** Part of Validate: each hostname belongs to one service. */
  ghost predicate DomainsUnique(services: map<string, ServiceDecl>) {
    forall a, b | a in services && b in services && a != b ::
      Elems(services[a].EffectiveDomains()) !! Elems(services[b].EffectiveDomains())
  }

  /** What Validate (internal/schema/config.go) checks of names, references and ranges. */
  ghost predicate Accepted(config: Config) {
    && (forall name | name in config.services ::
          0 <= config.services[name].port <= 65535 && config.services[name].ReplicaCount() <= MAX_REPLICAS)
    && DomainsUnique(config.services)
    && NoJobPrefix(config.services)
    && RequiresNameServices(config.services)
    && ReplicasInRange(config.services)
    && NoCollision(Kind.Containers, config.services)
    && NoCollision(Kind.Volumes, config.services)
    && forall j | j in config.jobs ::
         && j !in config.services && config.jobs[j].service in config.services
         && TrimSpace(config.jobs[j].service) != ""
         && config.jobs[j].command != [] && TrimSpace(config.jobs[j].schedule) != ""
  }

  /** A replica of a service called "job" has the name of a job called by its index. */
  ghost predicate JobTakesReplica(config: Config, i: nat) {
    && "job" in config.services && config.services["job"].IsReplicated()
    && i < config.services["job"].ReplicaCount() && IsCompiled(config, Dec(i))
  }

  lemma JobNameInjective(a: string, b: string)
    requires "ownbase-job-" + a == "ownbase-job-" + b
    ensures a == b
  {
    assert ("ownbase-job-" + a)[12..] == a && ("ownbase-job-" + b)[12..] == b;
  }

  /** A service that keeps clear of the prefix can clash with a job in this way only. */
  lemma ServiceOrJob(name: string, replicas: Option<int>, i: nat, job: string)
    requires !HasPrefix(name, "job-") && ContainerName(name, replicas, i) == "ownbase-job-" + job
    ensures name == "job" && replicas.Some? && job == Dec(i)
  {
    var c := ContainerName(name, replicas, i);
    var rest := if replicas.None? then name else name + ("-" + Dec(i));
    assert c == "ownbase-" + rest;
    assert "ownbase-job-" + job == "ownbase-" + ("job-" + job);
    assert rest == c[8..] == "job-" + job;
    assert rest[..4] == "job-";
    assert forall m | 0 <= m < |name| :: rest[m] == name[m];
    assert replicas.Some? ==> rest[|name|] == '-';
    assert rest[0] == 'j' && rest[1] == 'o' && rest[2] == 'b' && rest[3] == '-';
    if |name| >= 4 {
      assert false;
    } else if |name| < 3 {
      assert false;
    } else {
      assert name == rest[..3] == "job";
      assert Dec(i) == rest[4..] == job;
    }
  }

  lemma InstanceName(services: map<string, ServiceDecl>, c: ContainerModel, name: string, i: nat)
    requires IsInstance(services, c, name, i)
    ensures c.name == ContainerName(name, services[name].replicas, i) && !c.isJob
    ensures i < Instances(services[name].replicas)
  {
    hide TunnelPorts;
  }

  lemma JobName(config: Config, c: ContainerModel, job: string)
    requires IsJob(config, c, job)
    ensures c.name == "ownbase-job-" + job && c.isJob
  {
    hide Container;
  }

  lemma ServicesDistinct(services: map<string, ServiceDecl>, a: nat, b: nat)
    requires NoCollision(Kind.Containers, services) && a < |AllServiceContainers(services)|
    requires b < |AllServiceContainers(services)|
    requires AllServiceContainers(services)[a].name == AllServiceContainers(services)[b].name
    ensures a == b
  {
    hide *;
    var names, ports := SortedSet(services.Keys), TunnelPorts(services);
    AllServices(services);
    var k, i := At(services, ports, names, |names|, a);
    var l, j := At(services, ports, names, |names|, b);
    InstanceClaims(names[k], services[names[k]], ports, i);
    InstanceClaims(names[l], services[names[l]], ports, j);
    ClaimedOnce(Kind.Containers, services, names[k], i, names[l], j);
    SameIndex(services.Keys, k, l);
  }

  lemma InstanceClaims(name: string, svc: ServiceDecl, ports: map<string, int>, i: nat)
    requires i < svc.ReplicaCount()
    ensures var own := Claims(Kind.Containers, name, svc);
      i < |own| && own[i] == Instance(name, svc, ports, i).name == ContainerName(name, svc.replicas, i)
  {
  }

  lemma SameIndex(s: set<string>, k: nat, l: nat)
    requires k < |SortedSet(s)| && l < |SortedSet(s)| && SortedSet(s)[k] == SortedSet(s)[l]
    ensures k == l
  {
    IncreasingDistinct(SortedSet(s));
  }

  lemma {:induction false} JobsDistinct(config: Config, jobs: seq<string>)
    requires Distinct(jobs) && forall j | 0 <= j < |jobs| :: jobs[j] in config.jobs
    ensures NamesDistinct(JobContainers(config, jobs))
  {
    hide JobContainer;
    if jobs != [] {
      var front, last := jobs[..|jobs| - 1], jobs[|jobs| - 1];
      var before := JobContainers(config, front);
      JobsDistinct(config, front);
      if IsCompiled(config, last) {
        var c := JobOf(config, last)[0];
        JobName(config, c, last);
        forall i | 0 <= i < |before| ensures before[i].name != c.name {
          var job := JobContainerIs(config, front, i);
          JobName(config, before[i], job);
          if before[i].name == c.name {
            JobNameInjective(job, last);
          }
        }
      }
    }
  }

  lemma Appended(a: seq<ContainerModel>, b: seq<ContainerModel>)
    requires NamesDistinct(a) && NamesDistinct(b)
    requires forall i, j | 0 <= i < |a| && 0 <= j < |b| :: a[i].name != b[j].name
    ensures NamesDistinct(a + b)
  {
  }

  lemma TwoOfOneName(cs: seq<ContainerModel>, c: ContainerModel, d: ContainerModel)
    requires c in cs && d in cs && c != d && c.name == d.name
    ensures !NamesDistinct(cs)
  {
    var i :| 0 <= i < |cs| && cs[i] == c;
    var j :| 0 <= j < |cs| && cs[j] == d;
    assert i < j || j < i;
  }

  lemma Parts(config: Config)
    ensures AllContainers(config) == AllServiceContainers(config.services) + JobContainers(config, JobNames(config))
    ensures Distinct(JobNames(config))
  {
  }

  /** Validation leaves one way for two containers to share a name; without it all are distinct. */
  lemma NamesAreDistinct(config: Config)
    requires NoCollision(Kind.Containers, config.services) && NoJobPrefix(config.services)
    ensures NamesDistinct(AllContainers(config)) <==> !exists i :: JobTakesReplica(config, i)
  {
    hide *;
    if i :| JobTakesReplica(config, i) {
      var c, d := Clash(config, i);
      TwoOfOneName(AllContainers(config), c, d);
    } else {
      NoClash(config);
    }
  }

  lemma Clash(config: Config, i: nat) returns (c: ContainerModel, d: ContainerModel)
    requires JobTakesReplica(config, i)
    ensures c in AllContainers(config) && d in AllContainers(config) && c != d && c.name == d.name
  {
    hide AllContainers, TunnelPorts, Instance, JobContainer;
    var svc := config.services["job"];
    c := Instance("job", svc, TunnelPorts(config.services), i);
    assert IsInstance(config.services, c, "job", i);
    InstanceName(config.services, c, "job", i);
    ContainersAre(config, c);
    var job := Dec(i);
    d := JobContainer(job, config.jobs[job], config.services[config.jobs[job].service]);
    assert IsJob(config, d, job);
    JobName(config, d, job);
    ContainersAre(config, d);
    assert "ownbase-" + "job" + "-" + job == "ownbase-job-" + job;
  }

  lemma NoClash(config: Config)
    requires NoCollision(Kind.Containers, config.services) && NoJobPrefix(config.services)
    requires !exists i :: JobTakesReplica(config, i)
    ensures NamesDistinct(AllContainers(config))
  {
    var a, b := AllServiceContainers(config.services), JobContainers(config, JobNames(config));
    Parts(config);
    hide AllContainers, AllServiceContainers, JobContainers, JobNames, Distinct, IsInstance, IsJob,
      NoCollision, JobTakesReplica, ContainerName, NoJobPrefix;
    forall i, j | 0 <= i < j < |a| ensures a[i].name != a[j].name {
      if a[i].name == a[j].name {
        ServicesDistinct(config.services, i, j);
      }
    }
    JobsDistinct(config, JobNames(config));
    forall i, j | 0 <= i < |a| && 0 <= j < |b| ensures a[i].name != b[j].name {
      if a[i].name == b[j].name {
        NoSuchClash(config, i, j);
      }
    }
    Appended(a, b);
  }

  lemma NoSuchClash(config: Config, i: nat, j: nat)
    requires NoJobPrefix(config.services)
    requires i < |AllServiceContainers(config.services)| && j < |JobContainers(config, JobNames(config))|
    requires AllServiceContainers(config.services)[i].name == JobContainers(config, JobNames(config))[j].name
    ensures exists r :: JobTakesReplica(config, r)
  {
    hide AllServiceContainers, JobContainers, JobNames, TunnelPorts, Instance, JobContainer, ContainerName;
    var name, r := ServiceContainerIs(config.services, i);
    var job := JobContainerIs(config, JobNames(config), j);
    InstanceName(config.services, AllServiceContainers(config.services)[i], name, r);
    JobName(config, JobContainers(config, JobNames(config))[j], job);
    ServiceOrJob(name, config.services[name].replicas, r, job);
    assert JobTakesReplica(config, r);
  }

  /** A service that says nothing but how often it runs. */
  function Plain(replicas: Option<int>): ServiceDecl {
    ServiceDecl("", "", "", 0, "", [], false, [], None, "", [], [], "", [], [], None, replicas, [])
  }

  lemma OneServiceClaims(kind: Kind, services: map<string, ServiceDecl>, name: string)
    requires services.Keys == {name} && Distinct(Claims(kind, name, services[name]))
    ensures NoCollision(kind, services)
  {
    hide Claims, SortedSet, AllClaims;
    assert Elems([name]) == {name};
    SortedSetIs([name], {name});
    AllKnown(services);
    OneClaim(kind, services, [name]);
  }

  lemma OneClaim(kind: Kind, services: map<string, ServiceDecl>, names: seq<string>)
    requires Known(names, services) && |names| == 1 && names[0] in services
    ensures AllClaims(kind, services, names, 1) == Claims(kind, names[0], services[names[0]])
  {
    hide Claims;
    assert AllClaims(kind, services, names, 0) == [];
  }

  /** A service by itself whose replicas and volumes have distinct names is accepted. */
  lemma AcceptedAlone(config: Config, name: string, svc: ServiceDecl)
    requires config.services == map[name := svc] && config.jobs == map[]
    requires 0 <= svc.port <= 65535 && 1 <= svc.ReplicaCount() <= MAX_REPLICAS
    requires !HasPrefix(name, "job-") && svc.needs == []
    requires Distinct(Claims(Kind.Volumes, name, svc))
    ensures Accepted(config)
  {
    hide NoCollision, ServiceDecl.EffectiveDomains, Claims, HasPrefix;
    ContainerClaimsDistinct(name, svc);
    OneServiceClaims(Kind.Containers, config.services, name);
    OneServiceClaims(Kind.Volumes, config.services, name);
  }

  lemma ContainerClaimsDistinct(name: string, svc: ServiceDecl)
    ensures Distinct(Claims(Kind.Containers, name, svc))
  {
    hide ContainerName;
    var own := Claims(Kind.Containers, name, svc);
    forall i, j | 0 <= i < j < |own| ensures own[i] != own[j] {
      if own[i] == own[j] {
        ContainerNamesDistinct(name, svc.replicas, i, j);
      }
    }
  }

  /** The data volumes of a service that declares none have distinct names. */
  lemma DataClaimsDistinct(name: string, svc: ServiceDecl)
    requires svc.volumes == []
    ensures Distinct(Claims(Kind.Volumes, name, svc))
  {
    var own, base := Claims(Kind.Volumes, name, svc), PREFIX + name + "-data-";
    forall i, j | 0 <= i < j < |own| ensures own[i] != own[j] {
      assert own[i] == base + Dec(i) && own[j] == base + Dec(j);
      assert own[i][|base|..] == Dec(i) && own[j][|base|..] == Dec(j);
      if own[i] == own[j] {
        DecInjective(i, j);
      }
    }
  }

  /** The one way is open: a replicated service "job" and a job "0" are accepted, and both become
      a container called "ownbase-job-0". */
  lemma AcceptedClash(config: Config)
    requires config.services == map["job" := Plain(Some(1))]
    requires config.jobs == map["0" := JobDecl("job", ["run"], "daily", [], None)]
    ensures Accepted(config) && !NamesDistinct(AllContainers(config))
  {
    AcceptedExample(config);
    hide AllContainers, NoCollision, NamesDistinct, JobTakesReplica;
    Takes(config);
    NamesAreDistinct(config);
  }

  lemma AcceptedExample(config: Config)
    requires config.services == map["job" := Plain(Some(1))]
    requires config.jobs == map["0" := JobDecl("job", ["run"], "daily", [], None)]
    ensures Accepted(config)
  {
    hide NoCollision, TrimSpace, ServiceDecl.EffectiveDomains, Claims, HasPrefix;
    TrimmedWords();
    ContainerClaimsDistinct("job", Plain(Some(1)));
    DataClaimsDistinct("job", Plain(Some(1)));
    OneServiceClaims(Kind.Containers, config.services, "job");
    OneServiceClaims(Kind.Volumes, config.services, "job");
  }

  lemma TrimmedWords()
    ensures TrimSpace("daily") == "daily" && TrimSpace("job") == "job" && !HasPrefix("job", "job-")
  {
  }

  lemma Takes(config: Config)
    requires config.services == map["job" := Plain(Some(1))]
    requires config.jobs == map["0" := JobDecl("job", ["run"], "daily", [], None)]
    ensures JobTakesReplica(config, 0)
  {
    assert Dec(0) == "0";
  }
}
