/** The runtime model (internal/compiler/model.go) and how one service instance or one job becomes
    a container in it (buildContainer, buildJobContainer and buildVolumes of internal/compiler/build.go). */
module Containers {
  import opened Text
  import opened Order
  import opened Schema

  /** A named volume at a path, or a host directory when `hostPath` is set. */
  datatype VolumeMount = VolumeMount(volumeName: string, mountPath: string, hostPath: string)

  datatype ContainerModel = ContainerModel(
    name: string, serviceName: string, replicaIndex: int, replicaCount: int,
    image: string, digest: string, isImageBundled: bool,
    buildSource: string, buildRef: string, buildDockerfile: string, buildContext: string,
    tunnelOnly: bool, publicDomains: seq<string>, publicPort: int, tunnelPort: int,
    networks: seq<string>, volumeMounts: seq<VolumeMount>, env: seq<string>,
    healthProbe: Option<string>, needs: seq<string>,
    user: string, addCapabilities: seq<string>, securityOpts: seq<string>,
    memoryLimit: string, cpuLimit: string,
    isJob: bool, jobService: string, command: seq<string>)

  // ------------------------------------------------------------------------------ networks

  const INTERNAL_NETWORK: string := "ownbase-internal"

  function LowerChar(c: char): char {
    if 'A' <= c <= 'Z' then (c as int + 32) as char else c
  }

  /** strings.ToLower on ASCII letters. */
  function ToLower(s: string): (t: string)
    ensures |t| == |s|
  {
    seq(|s|, i requires 0 <= i < |s| => LowerChar(s[i]))
  }

  function CapabilityNetworkName(service: string): string {
    "ownbase-" + ToLower(service) + "-net"
  }

  function CapabilityNetworks(services: seq<string>): seq<string> {
    seq(|services|, i requires 0 <= i < |services| => CapabilityNetworkName(services[i]))
  }

  /** The networks a container of `name` has a reason to join, in the order they are considered. */
  function NetworksWanted(name: string, needs: seq<string>): seq<string> {
    [CapabilityNetworkName(name)] + CapabilityNetworks(needs) + [INTERNAL_NETWORK]
  }

  // ------------------------------------------------------------------------------- volumes

  const API_SOCKET_CONTAINER_DIR: string := "/run/ownbase"

  function ApiSocketHostDir(service: string): string {
    "/run/ownbase/svc/" + service
  }

  function DataMountPath(svc: ServiceDecl): string {
    if svc.dataPath == "" then "/data" else svc.dataPath
  }

  function DeclaredMount(name: string, svc: ServiceDecl, v: VolumeDecl, index: nat): VolumeMount {
    VolumeMount(VolumeName(name, v.name, svc.replicas, index, svc.VolumeIsPerReplica(v)), v.mount, "")
  }

  function NamedMounts(name: string, svc: ServiceDecl, index: nat): seq<VolumeMount> {
    if |svc.volumes| > 0 then
      seq(|svc.volumes|, k requires 0 <= k < |svc.volumes| => DeclaredMount(name, svc, svc.volumes[k], index))
    else
      [VolumeMount(DataVolumeName(name, svc.replicas, index, svc.DataPathIsPerReplica()), DataMountPath(svc), "")]
  }

  function Mounts(name: string, svc: ServiceDecl, index: nat): seq<VolumeMount> {
    NamedMounts(name, svc, index)
    + if |svc.ownbaseAccess| > 0 then [VolumeMount("", API_SOCKET_CONTAINER_DIR, ApiSocketHostDir(name))] else []
  }

  // ---------------------------------------------------------------------------- containers

  function ReplicaEnv(svc: ServiceDecl, index: nat): seq<string> {
    if svc.IsReplicated() then
      ["OWNBASE_REPLICA_INDEX=" + Dec(index), "OWNBASE_REPLICA_COUNT=" + DecInt(svc.ReplicaCount())]
    else []
  }

  /** The container of one service instance, before its loopback port is assigned. */
  function Container(name: string, svc: ServiceDecl, index: nat): ContainerModel {
    ContainerModel(
      name := ContainerName(name, svc.replicas, index),
      serviceName := name,
      replicaIndex := if svc.IsReplicated() then index else -1,
      replicaCount := if svc.IsReplicated() then svc.ReplicaCount() else 1,
      image := "localhost/ownbase-" + name + ":local",
      digest := "",
      isImageBundled := false,
      buildSource := name,
      buildRef := svc.ref,
      buildDockerfile := svc.dockerfile,
      buildContext := svc.context,
      tunnelOnly := svc.tunnelOnly,
      publicDomains := if svc.tunnelOnly then [] else svc.EffectiveDomains(),
      publicPort := svc.port,
      tunnelPort := 0,
      networks := Sort(Dedup(NetworksWanted(name, svc.needs))),
      volumeMounts := Mounts(name, svc, index),
      env := svc.env + ReplicaEnv(svc, index),
      healthProbe := if svc.healthProbe.Some? && svc.healthProbe.value != "" then svc.healthProbe else None,
      needs := Sort(svc.needs),
      user := svc.user,
      addCapabilities := svc.addCapabilities,
      securityOpts := svc.securityOpt,
      memoryLimit := if svc.resources.Some? then svc.resources.value.memory else "",
      cpuLimit := if svc.resources.Some? then svc.resources.value.cpus else "",
      isJob := false,
      jobService := "",
      command := [])
  }

  /** The container of a job: its service's image, networks, environment and hardening, without
      routing, probe, volumes, build provenance or replica identity. */
  function JobContainer(name: string, job: JobDecl, svc: ServiceDecl): ContainerModel {
    Container(job.service, svc, 0).(
      name := "ownbase-job-" + name,
      serviceName := "",
      replicaIndex := -1,
      replicaCount := 1,
      isJob := true,
      jobService := job.service,
      command := job.command,
      publicDomains := [],
      publicPort := 0,
      tunnelPort := 0,
      healthProbe := None,
      volumeMounts := [],
      buildSource := "",
      buildRef := "",
      buildDockerfile := "",
      buildContext := "",
      env := svc.env + job.env)
  }

  method BuildNetworks(name: string, needs: seq<string>) returns (networks: seq<string>)
    ensures networks == Sort(Dedup(NetworksWanted(name, needs)))
  {
    var ownNet := CapabilityNetworkName(name);
    networks := [];
    ghost var wanted := NetworksWanted(name, needs);
    assert wanted[..0] == [];
    DedupStep(wanted, 0);
    if ownNet !in networks {
      networks := networks + [ownNet];
    }
    for i := 0 to |needs|
      invariant networks == Dedup(wanted[..i + 1])
    {
      var capNet := CapabilityNetworkName(needs[i]);
      DedupStep(wanted, i + 1);
      if capNet !in networks {
        networks := networks + [capNet];
      }
    }
    DedupStep(wanted, |needs| + 1);
    if INTERNAL_NETWORK !in networks {
      networks := networks + [INTERNAL_NETWORK];
    }
    assert wanted[..|needs| + 2] == wanted;
    networks := Sort(networks);
  }

  method BuildMounts(name: string, svc: ServiceDecl, index: nat) returns (mounts: seq<VolumeMount>)
    ensures mounts == Mounts(name, svc, index)
  {
    mounts := [];
    if |svc.volumes| > 0 {
      for k := 0 to |svc.volumes|
        invariant mounts == NamedMounts(name, svc, index)[..k]
      {
        var v := svc.volumes[k];
        var volName := VolumeName(name, v.name, svc.replicas, index, svc.VolumeIsPerReplica(v));
        mounts := mounts + [VolumeMount(volName, v.mount, "")];
      }
    } else {
      var dataPath := svc.dataPath;
      if dataPath == "" {
        dataPath := "/data";
      }
      var volName := DataVolumeName(name, svc.replicas, index, svc.DataPathIsPerReplica());
      mounts := [VolumeMount(volName, dataPath, "")];
    }
    assert mounts == NamedMounts(name, svc, index);
    if |svc.ownbaseAccess| > 0 {
      mounts := mounts + [VolumeMount("", API_SOCKET_CONTAINER_DIR, ApiSocketHostDir(name))];
    }
  }

  /** buildContainer. */
  method BuildContainer(name: string, svc: ServiceDecl, index: nat) returns (c: ContainerModel)
    ensures c == Container(name, svc, index)
  {
    var publicDomains := [];
    if !svc.tunnelOnly {
      publicDomains := EffectiveDomains(svc);
    }
    var replicaIndex: int, replicaCount := -1, 1;
    if svc.IsReplicated() {
      replicaIndex, replicaCount := index, svc.ReplicaCount();
    }
    var mounts := BuildMounts(name, svc, index);
    var env := svc.env;
    if svc.IsReplicated() {
      env := env + ["OWNBASE_REPLICA_INDEX=" + Dec(index), "OWNBASE_REPLICA_COUNT=" + DecInt(svc.ReplicaCount())];
    }
    var probe: Option<string> := None;
    if svc.healthProbe.Some? && svc.healthProbe.value != "" {
      probe := svc.healthProbe;
    }
    var needs := [];
    if |svc.needs| > 0 {
      needs := Sort(svc.needs);
    }
    var networks := BuildNetworks(name, svc.needs);
    var memory, cpus := "", "";
    if svc.resources.Some? {
      memory, cpus := svc.resources.value.memory, svc.resources.value.cpus;
    }
    c := ContainerModel(
      ContainerName(name, svc.replicas, index), name, replicaIndex, replicaCount,
      "localhost/ownbase-" + name + ":local", "", false,
      name, svc.ref, svc.dockerfile, svc.context,
      svc.tunnelOnly, publicDomains, svc.port, 0,
      networks, mounts, env, probe, needs,
      svc.user, svc.addCapabilities, svc.securityOpt, memory, cpus,
      false, "", []);
    assert env == svc.env + ReplicaEnv(svc, index);
  }

  /** buildJobContainer. */
  method BuildJobContainer(name: string, job: JobDecl, svc: ServiceDecl) returns (c: ContainerModel)
    ensures c == JobContainer(name, job, svc)
  {
    var base := BuildContainer(job.service, svc, 0);
    c := base;
    c := c.(name := "ownbase-job-" + name, serviceName := "", replicaIndex := -1, replicaCount := 1);
    c := c.(isJob := true, jobService := job.service, command := job.command);
    c := c.(publicDomains := [], publicPort := 0, tunnelPort := 0, healthProbe := None, volumeMounts := []);
    c := c.(buildSource := "", buildRef := "", buildDockerfile := "", buildContext := "");
    c := c.(env := svc.env + job.env);
  }

  lemma NoDeclsYet(name: string, svc: ServiceDecl)
    ensures svc.volumes[..0] == [] && VolumesOfDecls(name, svc, []) == []
  {
  }

  lemma DeclStep(name: string, svc: ServiceDecl, k: nat)
    requires k < |svc.volumes|
    ensures VolumesOfDecls(name, svc, svc.volumes[..k + 1])
      == VolumesOfDecls(name, svc, svc.volumes[..k]) + VolumeInstances(name, svc, svc.volumes[k])
  {
    hide VolumeInstances;
    assert svc.volumes[..k + 1][..k] == svc.volumes[..k];
  }

  /** buildVolumes: the volumes one service creates. */
  method BuildVolumes(name: string, svc: ServiceDecl) returns (out: seq<string>)
    ensures out == ExpandedVolumeNames(name, svc)
  {
    hide VolumeName, DataVolumeName, VolumesOfDecls, ServiceDecl.VolumeIsPerReplica;
    out := [];
    NoDeclsYet(name, svc);
    if |svc.volumes| > 0 {
      for k := 0 to |svc.volumes|
        invariant out == VolumesOfDecls(name, svc, svc.volumes[..k])
      {
        var v := svc.volumes[k];
        ghost var before := out;
        DeclStep(name, svc, k);
        if svc.VolumeIsPerReplica(v) {
          var n := Natural(svc.ReplicaCount());
          for i := 0 to n
            invariant out == before + VolumeInstances(name, svc, v)[..i]
          {
            out := out + [VolumeName(name, v.name, svc.replicas, i, true)];
          }
        } else {
          out := out + [VolumeName(name, v.name, svc.replicas, 0, false)];
        }
        assert out == before + VolumeInstances(name, svc, v);
      }
      assert svc.volumes[..|svc.volumes|] == svc.volumes;
      return;
    }
    if svc.DataPathIsPerReplica() {
      var n := Natural(svc.ReplicaCount());
      for i := 0 to n
        invariant out == DataVolumeInstances(name, svc)[..i]
      {
        out := out + [DataVolumeName(name, svc.replicas, i, true)];
      }
    } else {
      out := out + [DataVolumeName(name, svc.replicas, 0, false)];
    }
  }

  // ----------------------------------------------------------------- what they refer to

  /** The two cases of one letter. */
  predicate IsCaseOf(a: char, b: char) {
    'A' <= a <= 'Z' && 'a' <= b <= 'z' && a as int - 'A' as int == b as int - 'a' as int
  }

  predicate SameButCase(a: string, b: string) {
    |a| == |b| && forall i | 0 <= i < |a| :: a[i] == b[i] || IsCaseOf(a[i], b[i]) || IsCaseOf(b[i], a[i])
  }

  lemma LowerMeans(a: string, b: string)
    ensures ToLower(a) == ToLower(b) <==> SameButCase(a, b)
  {
    if ToLower(a) == ToLower(b) {
      assert |a| == |ToLower(a)| == |b|;
      forall i | 0 <= i < |a| ensures a[i] == b[i] || IsCaseOf(a[i], b[i]) || IsCaseOf(b[i], a[i]) {
        assert ToLower(a)[i] == ToLower(b)[i];
      }
    }
    if SameButCase(a, b) {
      forall i | 0 <= i < |a| ensures ToLower(a)[i] == ToLower(b)[i] {}
    }
  }

  /** Two services have one network of their own only if their names differ in nothing but case, and none has
      the internal one. */
  lemma OwnNetworks(a: string, b: string)
    ensures CapabilityNetworkName(a) == CapabilityNetworkName(b) <==> SameButCase(a, b)
    ensures CapabilityNetworkName(a) != INTERNAL_NETWORK
  {
    var x, y := CapabilityNetworkName(a), CapabilityNetworkName(b);
    LowerMeans(a, b);
    hide ToLower, SameButCase;
    assert |x| == 8 + |ToLower(a)| + 4 && |y| == 8 + |ToLower(b)| + 4;
    assert x[8..|x| - 4] == ToLower(a) && y[8..|y| - 4] == ToLower(b);
    assert x[|x| - 1] == 't' && INTERNAL_NETWORK[|INTERNAL_NETWORK| - 1] == 'l';
  }

  /** The networks a container joins: its own, those of what it requires, and the internal one. */
  lemma ContainerNetworks(name: string, svc: ServiceDecl, index: nat, net: string)
    ensures net in Container(name, svc, index).networks <==>
      || net == CapabilityNetworkName(name)
      || net == INTERNAL_NETWORK
      || exists r :: r in svc.needs && net == CapabilityNetworkName(r)
    ensures Increasing(Container(name, svc, index).networks)
  {
    var wanted := NetworksWanted(name, svc.needs);
    var caps := CapabilityNetworks(svc.needs);
    hide CapabilityNetworkName, Mounts, ReplicaEnv, ContainerName;
    DedupMeans(wanted);
    SortDistinct(Dedup(wanted));
    assert net in Sort(Dedup(wanted)) <==> net in Elems(Sort(Dedup(wanted)));
    assert net in wanted <==> net in Elems(wanted);
    assert net in wanted <==> net == CapabilityNetworkName(name) || net in caps || net == INTERNAL_NETWORK;
    if r :| r in svc.needs && net == CapabilityNetworkName(r) {
      var i :| 0 <= i < |svc.needs| && svc.needs[i] == r;
      assert caps[i] == net;
    }
  }

  lemma {:induction false} InVolumesOfDecls(service: string, s: ServiceDecl, decls: seq<VolumeDecl>, vol: string)
    ensures vol in VolumesOfDecls(service, s, decls) <==>
      exists k :: 0 <= k < |decls| && vol in VolumeInstances(service, s, decls[k])
  {
    hide VolumeInstances;
    if decls != [] {
      var front, last := decls[..|decls| - 1], decls[|decls| - 1];
      InVolumesOfDecls(service, s, front, vol);
      if k :| 0 <= k < |decls| && vol in VolumeInstances(service, s, decls[k]) {
        assert k < |front| ==> front[k] == decls[k];
      }
    }
  }

  /** The named volumes instance `index` mounts are ones its service creates. */
  lemma MountsAreCreated(name: string, svc: ServiceDecl, index: nat, vm: VolumeMount)
    requires index < svc.ReplicaCount() && vm in NamedMounts(name, svc, index)
    ensures vm.volumeName in ExpandedVolumeNames(name, svc)
  {
    hide VolumeName, DataVolumeName;
    if |svc.volumes| > 0 {
      var k :| 0 <= k < |svc.volumes| && vm == DeclaredMount(name, svc, svc.volumes[k], index);
      var v := svc.volumes[k];
      MountIsInstance(name, svc, v, index);
      InVolumesOfDecls(name, svc, svc.volumes, vm.volumeName);
    } else if svc.DataPathIsPerReplica() {
      assert DataVolumeInstances(name, svc)[index] == vm.volumeName;
    } else {
      assert DataVolumeInstances(name, svc)[0] == vm.volumeName;
    }
  }

  lemma MountIsInstance(name: string, svc: ServiceDecl, v: VolumeDecl, index: nat)
    requires index < svc.ReplicaCount()
    ensures DeclaredMount(name, svc, v, index).volumeName in VolumeInstances(name, svc, v)
  {
    if svc.VolumeIsPerReplica(v) {
      assert VolumeInstances(name, svc, v)[index] == DeclaredMount(name, svc, v, index).volumeName;
    } else {
      SharedVolume(name, v.name, svc.replicas, index);
      assert VolumeInstances(name, svc, v)[0] == DeclaredMount(name, svc, v, index).volumeName;
    }
  }

  /** A shared volume's name ignores which replica asks for it. */
  lemma SharedVolume(service: string, vol: string, replicas: Option<int>, index: nat)
    ensures VolumeName(service, vol, replicas, index, false) == VolumeName(service, vol, replicas, 0, false)
  {
  }

  /** And every volume a service creates is mounted by one of its instances, if it has any. */
  lemma CreatedAreMounted(name: string, svc: ServiceDecl, vol: string) returns (index: nat, vm: VolumeMount)
    requires svc.ReplicaCount() >= 1 && vol in ExpandedVolumeNames(name, svc)
    ensures index < svc.ReplicaCount() && vm in NamedMounts(name, svc, index) && vm.volumeName == vol
  {
    hide VolumeName, DataVolumeName;
    if |svc.volumes| > 0 {
      InVolumesOfDecls(name, svc, svc.volumes, vol);
      var k :| 0 <= k < |svc.volumes| && vol in VolumeInstances(name, svc, svc.volumes[k]);
      var v := svc.volumes[k];
      index :| 0 <= index < |VolumeInstances(name, svc, v)| && VolumeInstances(name, svc, v)[index] == vol;
      vm := DeclaredMount(name, svc, v, index);
      assert NamedMounts(name, svc, index)[k] == vm;
    } else {
      index :| 0 <= index < |DataVolumeInstances(name, svc)| && DataVolumeInstances(name, svc)[index] == vol;
      vm := VolumeMount(vol, DataMountPath(svc), "");
      assert NamedMounts(name, svc, index)[0] == vm;
    }
  }
}
