/** ownbase.yaml as it is after parsing (internal/schema/config.go): the declarations, the names
    given to containers and volumes, and the loopback ports containers are published on. */
module Schema {
  import opened Text
  import opened Order

  datatype VolumeDecl = VolumeDecl(name: string, mount: string, backup: seq<string>, perReplica: Option<bool>)

  datatype ResourcesDecl = ResourcesDecl(memory: string, cpus: string)

  datatype ServiceDecl = ServiceDecl(
    ref: string, dockerfile: string, context: string,
    port: int, domain: string, domains: seq<string>, tunnelOnly: bool,
    needs: seq<string>, healthProbe: Option<string>,
    dataPath: string, volumes: seq<VolumeDecl>,
    env: seq<string>, user: string, addCapabilities: seq<string>, securityOpt: seq<string>,
    resources: Option<ResourcesDecl>, replicas: Option<int>, ownbaseAccess: seq<string>)
  {
    /** Whether `replicas:` is set, even to 1. */
    predicate IsReplicated() {
      replicas.Some?
    }

    function ReplicaCount(): int {
      if replicas.None? then 1 else replicas.value
    }

    predicate VolumeIsPerReplica(v: VolumeDecl) {
      IsReplicated() && (v.perReplica.None? || v.perReplica.value)
    }

    predicate DataPathIsPerReplica() {
      IsReplicated()
    }

    /** Every hostname the service should be reachable at. */
    function EffectiveDomains(): seq<string> {
      Dedup(Cleaned([domain] + domains))
    }
  }

  datatype JobDecl = JobDecl(
    service: string, command: seq<string>, schedule: string, env: seq<string>, persistent: Option<bool>)
  {
    predicate EffectivePersistent() {
      persistent.None? || persistent.value
    }
  }

  datatype Config = Config(services: map<string, ServiceDecl>, jobs: map<string, JobDecl>, email: string)

  // ------------------------------------------------------------------------------- domains

  /** The entries without surrounding blanks, and without those that are nothing else. */
  function Cleaned(ds: seq<string>): seq<string> {
    if ds == [] then []
    else
      var d := TrimSpace(ds[|ds| - 1]);
      Cleaned(ds[..|ds| - 1]) + if d == "" then [] else [d]
  }

  /** EffectiveDomains as it is written: one pass with a set of those seen. */
  method EffectiveDomains(s: ServiceDecl) returns (out: seq<string>)
    ensures out == s.EffectiveDomains()
  {
    var seen: set<string> := {};
    var all := [s.domain] + s.domains;
    out := [];
    for i := 0 to |all|
      invariant out == Dedup(Cleaned(all[..i]))
      invariant forall d :: d in seen <==> d in out
    {
      var d := TrimSpace(all[i]);
      ghost var before := Cleaned(all[..i]);
      assert all[..i + 1][..i] == all[..i];
      assert Cleaned(all[..i + 1]) == before + if d == "" then [] else [d];
      if d != "" {
        DedupStep(before + [d], |before|);
        assert (before + [d])[..|before|] == before;
        assert (before + [d])[..|before| + 1] == before + [d];
        if d !in seen {
          seen := seen + {d};
          out := out + [d];
        }
      } else {
        assert before + [] == before;
      }
    }
    assert all[..|all|] == all;
  }

  /** It is the set of the non-blank entries, each once. */
  lemma EffectiveDomainsMeans(s: ServiceDecl)
    ensures Distinct(s.EffectiveDomains())
    ensures forall d :: d in s.EffectiveDomains() <==>
      d != "" && (d == TrimSpace(s.domain) || exists e :: e in s.domains && d == TrimSpace(e))
  {
    var all := [s.domain] + s.domains;
    DedupMeans(Cleaned(all));
    forall d ensures d in s.EffectiveDomains() <==>
      d != "" && (d == TrimSpace(s.domain) || exists e :: e in s.domains && d == TrimSpace(e))
    {
      CleanedMeans(all, d);
      assert d in s.EffectiveDomains() <==> d in Elems(s.EffectiveDomains());
      assert d in Cleaned(all) <==> d in Elems(Cleaned(all));
      assert s.domain in all;
      assert forall e :: e in all <==> e == s.domain || e in s.domains;
    }
  }

  lemma {:induction false} CleanedMeans(ds: seq<string>, d: string)
    ensures d in Cleaned(ds) <==> d != "" && exists e :: e in ds && d == TrimSpace(e)
  {
    if ds != [] {
      var front, last := ds[..|ds| - 1], ds[|ds| - 1];
      CleanedMeans(front, d);
      assert forall e :: e in ds <==> e in front || e == last;
    }
  }

  /** `p` is where the hostname comes up first. */
  ghost predicate ComesUpAt(ds: seq<string>, d: string, p: nat) {
    p < |ds| && TrimSpace(ds[p]) == d && forall q | 0 <= q < p :: TrimSpace(ds[q]) != d
  }

  /** And in the order in which they first come up: the one of `domain` before those of `domains`. */
  lemma EffectiveDomainsInOrder(s: ServiceDecl, i: nat, j: nat, p: nat, q: nat)
    requires i < j < |s.EffectiveDomains()|
    requires ComesUpAt([s.domain] + s.domains, s.EffectiveDomains()[i], p)
    requires ComesUpAt([s.domain] + s.domains, s.EffectiveDomains()[j], q)
    ensures p < q
  {
    CleanedInOrder([s.domain] + s.domains, i, j, p, q);
  }

  lemma {:induction false} CleanedInOrder(ds: seq<string>, i: nat, j: nat, p: nat, q: nat)
    requires i < j < |Dedup(Cleaned(ds))|
    requires ComesUpAt(ds, Dedup(Cleaned(ds))[i], p) && ComesUpAt(ds, Dedup(Cleaned(ds))[j], q)
    ensures p < q
  {
    var n := |ds| - 1;
    var front, d := ds[..n], TrimSpace(ds[n]);
    var known, all := Dedup(Cleaned(front)), Dedup(Cleaned(ds));
    assert all == known || (all == known + [d] && d != "" && d !in known) by {
      DedupLast(Cleaned(front), d);
      assert Cleaned(front) + [] == Cleaned(front);
    }
    ComeUp(front, all[i]);
    ComeUp(front, all[j]);
    hide Dedup, Cleaned, TrimSpace, ComesUpAt;
    ComesUpInFront(ds, all[i], p);
    ComesUpInFront(ds, all[j], q);
    if j < |known| {
      CleanedInOrder(front, i, j, p, q);
    }
  }

  lemma ComeUp(ds: seq<string>, d: string)
    ensures d in Dedup(Cleaned(ds)) <==> d != "" && exists e :: e in ds && TrimSpace(e) == d
  {
    hide TrimSpace;
    CleanedMeans(ds, d);
    DedupMeans(Cleaned(ds));
    assert d in Dedup(Cleaned(ds)) <==> d in Elems(Dedup(Cleaned(ds)));
    assert d in Cleaned(ds) <==> d in Elems(Cleaned(ds));
  }

  lemma DedupLast(known: seq<string>, d: string)
    ensures Dedup(known + [d]) == if d in Dedup(known) then Dedup(known) else Dedup(known) + [d]
  {
    assert (known + [d])[..|known|] == known;
  }

  lemma ComesUpInFront(ds: seq<string>, d: string, p: nat)
    requires ds != [] && ComesUpAt(ds, d, p)
    ensures p < |ds|
    ensures (exists e :: e in ds[..|ds| - 1] && TrimSpace(e) == d) <==> p < |ds| - 1
    ensures p < |ds| - 1 ==> ComesUpAt(ds[..|ds| - 1], d, p)
  {
    hide TrimSpace;
    var front := ds[..|ds| - 1];
    if e :| e in front && TrimSpace(e) == d {
      var k :| 0 <= k < |front| && front[k] == e;
      assert ds[k] == e;
    }
    if p < |front| {
      assert front[p] in front && TrimSpace(front[p]) == d;
    }
  }

  // --------------------------------------------------------------------------------- names

  const PREFIX: string := "ownbase-"

  const MAX_REPLICAS: int := 64

  function ContainerName(service: string, replicas: Option<int>, index: nat): string {
    if replicas.None? then PREFIX + service else PREFIX + service + "-" + Dec(index)
  }

  /** How many containers ContainerNames names: at least one. */
  function Instances(replicas: Option<int>): nat {
    if replicas.None? || replicas.value < 1 then 1 else replicas.value
  }

  function ContainerNames(service: string, replicas: Option<int>): (names: seq<string>)
    ensures |names| == Instances(replicas)
    ensures forall i | 0 <= i < |names| :: names[i] == ContainerName(service, replicas, i)
  {
    seq(Instances(replicas), i requires 0 <= i => ContainerName(service, replicas, i))
  }

  function PrimaryContainerName(service: string, replicas: Option<int>): string {
    ContainerName(service, replicas, 0)
  }

  function VolumeName(service: string, vol: string, replicas: Option<int>, index: nat, perReplica: bool): string {
    var base := PREFIX + service + "-" + vol;
    if replicas.None? || !perReplica then base else base + "-" + Dec(index)
  }

  function DataVolumeName(service: string, replicas: Option<int>, index: nat, perReplica: bool): string {
    VolumeName(service, "data", replicas, index, perReplica)
  }

  /** Two instances of one service have two names. */
  lemma ContainerNamesDistinct(service: string, replicas: Option<int>, i: nat, j: nat)
    requires replicas.Some? && ContainerName(service, replicas, i) == ContainerName(service, replicas, j)
    ensures i == j
  {
    var base := PREFIX + service + "-";
    assert (base + Dec(i))[|base|..] == Dec(i) && (base + Dec(j))[|base|..] == Dec(j);
    DecInjective(i, j);
  }

  // ------------------------------------------------------------------------- tunnel ports

  const TUNNEL_BASE_PORT: int := 41000

  ghost function PortedNames(services: map<string, ServiceDecl>): (names: seq<string>)
    ensures forall n :: n in names <==> n in services && services[n].port != 0
    ensures Distinct(names)
  {
    var ported := set n | n in services && services[n].port != 0;
    var names := SortedSet(ported);
    IncreasingDistinct(names);
    assert forall n :: n in names <==> n in Elems(names);
    names
  }

  /** The port of instance `j` of the `i`th of `n` services that have one. */
  function PortAt(i: int, j: int, n: int): int {
    TUNNEL_BASE_PORT + i + j * n
  }

  ghost function ServicePorts(service: string, replicas: Option<int>, i: nat, n: nat, upTo: nat): map<string, int> {
    if upTo == 0 then map[]
    else ServicePorts(service, replicas, i, n, upTo - 1)[
        ContainerName(service, replicas, upTo - 1) := PortAt(i, upTo - 1, n)]
  }

  ghost function PortsUpTo(services: map<string, ServiceDecl>, names: seq<string>, upTo: nat): map<string, int>
    requires upTo <= |names| && forall n | n in names :: n in services
  {
    if upTo == 0 then map[]
    else
      var r := services[names[upTo - 1]].replicas;
      PortsUpTo(services, names, upTo - 1)
      + ServicePorts(names[upTo - 1], r, upTo - 1, |names|, Instances(r))
  }

  ghost function TunnelPorts(services: map<string, ServiceDecl>): map<string, int> {
    var names := PortedNames(services);
    PortsUpTo(services, names, |names|)
  }

  /** The first half of TunnelPorts: the services with a port, for any iteration order. */
  method CollectPorted(services: map<string, ServiceDecl>) returns (names: seq<string>)
    ensures names == PortedNames(services)
  {
    names := [];
    var rest := services.Keys;
    while rest != {}
      invariant rest <= services.Keys && Distinct(names)
      invariant forall n :: n in names <==> n in services && n !in rest && services[n].port != 0
    {
      var name :| name in rest;
      if services[name].port != 0 {
        names := names + [name];
      }
      rest := rest - {name};
    }
    SortDistinct(names);
    assert forall n :: n in names <==> n in Elems(names);
    names := Sort(names);
    SortedSetIs(names, set n | n in services && services[n].port != 0);
  }

  /** The inner loop: the ports of every instance of one service. */
  method PublishInstances(ports: map<string, int>, name: string, replicas: Option<int>, i: nat, n: nat)
    returns (now: map<string, int>)
    ensures now == ports + ServicePorts(name, replicas, i, n, Instances(replicas))
  {
    var containers := ContainerNames(name, replicas);
    hide ContainerName, Instances;
    now := ports;
    for j := 0 to |containers|
      invariant now == ports + ServicePorts(name, replicas, i, n, j)
    {
      now := now[containers[j] := TUNNEL_BASE_PORT + i + j * n];
    }
  }

  /** OwnbaseConfig.TunnelPorts. */
  method ComputeTunnelPorts(services: map<string, ServiceDecl>) returns (ports: map<string, int>)
    ensures ports == TunnelPorts(services)
  {
    var names := CollectPorted(services);
    ports := map[];
    hide PortedNames, ServicePorts, ContainerName, Instances;
    for i := 0 to |names|
      invariant ports == PortsUpTo(services, names, i)
    {
      ports := PublishInstances(ports, names[i], services[names[i]].replicas, i, |names|);
    }
  }

  /** Where an entry of the map comes from. */
  ghost predicate Slot(services: map<string, ServiceDecl>, names: seq<string>, container: string, i: nat, j: nat) {
    && i < |names| && names[i] in services
    && j < Instances(services[names[i]].replicas)
    && container == ContainerName(names[i], services[names[i]].replicas, j)
  }

  lemma {:induction false} ServicePortsAre(service: string, replicas: Option<int>, i: nat, n: nat, upTo: nat, c: string)
    returns (j: nat)
    requires c in ServicePorts(service, replicas, i, n, upTo)
    ensures j < upTo && c == ContainerName(service, replicas, j)
    ensures ServicePorts(service, replicas, i, n, upTo)[c] == PortAt(i, j, n)
  {
    hide ContainerName, PortAt;
    if c == ContainerName(service, replicas, upTo - 1) {
      j := upTo - 1;
    } else {
      j := ServicePortsAre(service, replicas, i, n, upTo - 1, c);
    }
  }

  lemma {:induction false} ServicePortsHave(service: string, replicas: Option<int>, i: nat, n: nat, upTo: nat, j: nat)
    requires j < upTo
    ensures ContainerName(service, replicas, j) in ServicePorts(service, replicas, i, n, upTo)
  {
    if j < upTo - 1 {
      ServicePortsHave(service, replicas, i, n, upTo - 1, j);
    }
  }

  lemma {:induction false} PortsAre(services: map<string, ServiceDecl>, names: seq<string>, upTo: nat, c: string)
    returns (i: nat, j: nat)
    requires upTo <= |names| && forall n | n in names :: n in services
    requires c in PortsUpTo(services, names, upTo)
    ensures i < upTo && Slot(services, names, c, i, j)
    ensures PortsUpTo(services, names, upTo)[c] == PortAt(i, j, |names|)
  {
    hide ContainerName, PortAt, ServicePorts, Instances;
    var name := names[upTo - 1];
    var r := services[name].replicas;
    if c in ServicePorts(name, r, upTo - 1, |names|, Instances(r)) {
      i := upTo - 1;
      j := ServicePortsAre(name, r, i, |names|, Instances(r), c);
    } else {
      i, j := PortsAre(services, names, upTo - 1, c);
    }
  }

  lemma {:induction false} PortsHave(services: map<string, ServiceDecl>, names: seq<string>, upTo: nat, c: string,
                                     i: nat, j: nat)
    requires upTo <= |names| && forall n | n in names :: n in services
    requires i < upTo && Slot(services, names, c, i, j)
    ensures c in PortsUpTo(services, names, upTo)
  {
    if i < upTo - 1 {
      PortsHave(services, names, upTo - 1, c, i, j);
    } else {
      var r := services[names[i]].replicas;
      ServicePortsHave(names[i], r, i, |names|, Instances(r), j);
    }
  }

  lemma {:induction false} NextBand(j: nat, l: nat, n: nat)
    requires j < l
    ensures l * n >= j * n + n
    decreases l
  {
    assert l * n == (l - 1) * n + n;
    if j < l - 1 {
      NextBand(j, l - 1, n);
    }
  }

  lemma PortAtInjective(i: nat, j: nat, k: nat, l: nat, n: nat)
    requires i < n && k < n && PortAt(i, j, n) == PortAt(k, l, n)
    ensures i == k && j == l
  {
    if j < l {
      NextBand(j, l, n);
    } else if l < j {
      NextBand(l, j, n);
    }
  }

  /** No two containers are given the same loopback port, whatever the configuration. */
  lemma PortsInjective(services: map<string, ServiceDecl>, c: string, d: string)
    requires c in TunnelPorts(services) && d in TunnelPorts(services)
    requires TunnelPorts(services)[c] == TunnelPorts(services)[d]
    ensures c == d
  {
    var names := PortedNames(services);
    var i, j := PortsAre(services, names, |names|, c);
    var k, l := PortsAre(services, names, |names|, d);
    PortAtInjective(i, j, k, l, |names|);
  }

  ghost predicate HasPort(services: map<string, ServiceDecl>, name: string, j: nat, c: string) {
    && name in services && services[name].port != 0
    && j < Instances(services[name].replicas) && c == ContainerName(name, services[name].replicas, j)
  }

  lemma {:induction false} PortAtPositive(i: nat, j: nat, n: nat)
    ensures PortAt(i, j, n) >= TUNNEL_BASE_PORT
  {
    if j > 0 {
      assert j * n == (j - 1) * n + n;
      PortAtPositive(i, j - 1, n);
    }
  }

  /** Exactly the containers of services with a port have one, and it is positive. */
  lemma PortsDomain(services: map<string, ServiceDecl>, c: string)
    ensures c in TunnelPorts(services) <==> exists name, j: nat :: HasPort(services, name, j, c)
    ensures c in TunnelPorts(services) ==> TunnelPorts(services)[c] >= TUNNEL_BASE_PORT
  {
    var names := PortedNames(services);
    hide ContainerName, PortAt, Instances, PortsUpTo;
    if c in TunnelPorts(services) {
      var i, j := PortsAre(services, names, |names|, c);
      assert names[i] in names;
      assert HasPort(services, names[i], j, c);
      PortAtPositive(i, j, |names|);
    }
    if name, j: nat :| HasPort(services, name, j, c) {
      assert name in names;
      var i :| 0 <= i < |names| && names[i] == name;
      PortsHave(services, names, |names|, c, i, j);
    }
  }

  // ------------------------------------------------------------------- colliding names

  /** What validateReplicaNameCollisions claims names of. */
  datatype Kind = Containers | Volumes

  /** Every volume a declaration creates. */
  function VolumeInstances(service: string, s: ServiceDecl, v: VolumeDecl): seq<string> {
    if s.VolumeIsPerReplica(v) then
      seq(Natural(s.ReplicaCount()), i requires 0 <= i => VolumeName(service, v.name, s.replicas, i, true))
    else [VolumeName(service, v.name, s.replicas, 0, false)]
  }

  /** How often `for i := 0; i < n; i++` goes round. */
  function Natural(n: int): nat {
    if n < 0 then 0 else n
  }

  function DataVolumeInstances(service: string, s: ServiceDecl): seq<string> {
    if s.DataPathIsPerReplica() then
      seq(Natural(s.ReplicaCount()), i requires 0 <= i => DataVolumeName(service, s.replicas, i, true))
    else [DataVolumeName(service, s.replicas, 0, false)]
  }

  function VolumesOfDecls(service: string, s: ServiceDecl, decls: seq<VolumeDecl>): seq<string> {
    if decls == [] then []
    else VolumesOfDecls(service, s, decls[..|decls| - 1]) + VolumeInstances(service, s, decls[|decls| - 1])
  }

  /** expandedVolumeNames: every volume a service creates. */
  function ExpandedVolumeNames(service: string, s: ServiceDecl): seq<string> {
    if |s.volumes| > 0 then VolumesOfDecls(service, s, s.volumes) else DataVolumeInstances(service, s)
  }

  function Claims(kind: Kind, service: string, s: ServiceDecl): seq<string> {
    if kind.Containers? then ContainerNames(service, s.replicas) else ExpandedVolumeNames(service, s)
  }

  ghost predicate Known(names: seq<string>, services: map<string, ServiceDecl>) {
    forall i | 0 <= i < |names| :: names[i] in services
  }

  lemma KnownAt(names: seq<string>, services: map<string, ServiceDecl>, i: nat)
    requires Known(names, services) && i < |names|
    ensures names[i] in services
  {
  }

  lemma AllKnown(services: map<string, ServiceDecl>)
    ensures Known(SortedSet(services.Keys), services)
  {
    var names := SortedSet(services.Keys);
    assert forall i | 0 <= i < |names| :: names[i] in Elems(names);
  }

  /** The names claimed by the first `upTo` of the services `names`. */
  ghost function AllClaims(kind: Kind, services: map<string, ServiceDecl>, names: seq<string>, upTo: nat): seq<string>
    requires upTo <= |names| && Known(names, services)
  {
    if upTo == 0 then []
    else
      AllClaims(kind, services, names, upTo - 1) + Claims(kind, names[upTo - 1], services[names[upTo - 1]])
  }

  /** No name is claimed twice. */
  ghost predicate NoCollision(kind: Kind, services: map<string, ServiceDecl>) {
    var names := SortedSet(services.Keys);
    AllKnown(services);
    Distinct(AllClaims(kind, services, names, |names|))
  }

  lemma PrefixOfPrefix<T>(a: seq<T>, b: seq<T>, c: seq<T>)
    requires a + b <= c
    ensures a <= c
  {
  }

  lemma AllClaimsStep(kind: Kind, services: map<string, ServiceDecl>, names: seq<string>, i: nat)
    requires Known(names, services) && i < |names| && names[i] in services
    ensures AllClaims(kind, services, names, i + 1)
      == AllClaims(kind, services, names, i) + Claims(kind, names[i], services[names[i]])
  {
    hide Claims;
  }

  lemma {:induction false} AllClaimsPrefix(kind: Kind, services: map<string, ServiceDecl>, names: seq<string>, i: nat)
    requires Known(names, services) && i <= |names|
    ensures AllClaims(kind, services, names, i) <= AllClaims(kind, services, names, |names|)
    decreases |names| - i
  {
    hide *;
    if i < |names| {
      KnownAt(names, services, i);
      AllClaimsPrefix(kind, services, names, i + 1);
      AllClaimsStep(kind, services, names, i);
      PrefixOfPrefix(AllClaims(kind, services, names, i), Claims(kind, names[i], services[names[i]]),
                     AllClaims(kind, services, names, |names|));
    }
  }

  lemma DistinctPrefix<T>(a: seq<T>, b: seq<T>)
    requires a <= b && Distinct(b)
    ensures Distinct(a)
  {
    forall i, j | 0 <= i < j < |a| ensures a[i] != a[j] {
      assert b[i] == a[i] && b[j] == a[j];
    }
  }

  /** One of the two inner loops: claims a service's names, until one is taken. */
  method Claim(owner: string, own: seq<string>, claimed: map<string, string>, ghost before: seq<string>)
    returns (now: map<string, string>, ok: bool)
    requires claimed.Keys == Elems(before) && Distinct(before)
    ensures ok <==> Distinct(before + own)
    ensures ok ==> now.Keys == Elems(before + own)
  {
    now := claimed;
    assert before + own[..0] == before;
    for j := 0 to |own|
      invariant now.Keys == Elems(before + own[..j]) && Distinct(before + own[..j])
    {
      ghost var so := before + own[..j];
      assert before + own[..j + 1] == so + [own[j]];
      assert own[j] in now <==> own[j] in so by { assert own[j] in Elems(so) <==> own[j] in so; }
      ElemsAppend(so, [own[j]]);
      if own[j] in now {
        ghost var k :| 0 <= k < |so| && so[k] == own[j];
        assert (before + own)[k] == so[k] && (before + own)[|so|] == own[j];
        return now, false;
      }
      now := now[own[j] := owner];
    }
    assert own[..|own|] == own;
    ok := true;
  }

  lemma NextClaims(kind: Kind, services: map<string, ServiceDecl>, names: seq<string>, i: nat)
    requires Known(names, services) && i < |names| && names[i] in services
    ensures AllClaims(kind, services, names, i + 1)
      == AllClaims(kind, services, names, i) + Claims(kind, names[i], services[names[i]])
    ensures !Distinct(AllClaims(kind, services, names, i + 1)) ==> !Distinct(AllClaims(kind, services, names, |names|))
  {
    hide *;
    AllClaimsStep(kind, services, names, i);
    AllClaimsPrefix(kind, services, names, i + 1);
    if Distinct(AllClaims(kind, services, names, |names|)) {
      DistinctPrefix(AllClaims(kind, services, names, i + 1), AllClaims(kind, services, names, |names|));
    }
  }

  /** validateReplicaNameCollisions: accepts exactly the configurations in which no container and no
      volume name is claimed twice, within a service or across services. */
  method ValidateReplicaNameCollisions(services: map<string, ServiceDecl>) returns (ok: bool)
    ensures ok <==> NoCollision(Containers, services) && NoCollision(Volumes, services)
  {
    var claimed: map<string, string> := map[];
    var volClaimed: map<string, string> := map[];
    var names := SortedKeys(services);
    AllKnown(services);
    assert NoCollision(Containers, services) <==> Distinct(AllClaims(Containers, services, names, |names|));
    assert NoCollision(Volumes, services) <==> Distinct(AllClaims(Volumes, services, names, |names|));
    assert AllClaims(Containers, services, names, 0) == AllClaims(Volumes, services, names, 0) == [];
    assert forall i | 0 <= i < |names| :: names[i] in services;
    hide *;
    for i := 0 to |names|
      invariant claimed.Keys == Elems(AllClaims(Containers, services, names, i))
      invariant volClaimed.Keys == Elems(AllClaims(Volumes, services, names, i))
      invariant Distinct(AllClaims(Containers, services, names, i))
      invariant Distinct(AllClaims(Volumes, services, names, i))
    {
      var name := names[i];
      NextClaims(Containers, services, names, i);
      NextClaims(Volumes, services, names, i);
      ghost var claims := AllClaims(Containers, services, names, i);
      claimed, ok := Claim(name, Claims(Containers, name, services[name]), claimed, claims);
      if !ok {
        assert !NoCollision(Containers, services);
        return;
      }
      claims := AllClaims(Volumes, services, names, i);
      volClaimed, ok := Claim(name, Claims(Volumes, name, services[name]), volClaimed, claims);
      if !ok {
        assert !NoCollision(Volumes, services);
        return;
      }
    }
    ok := true;
  }

  // ------------------------------------------------------- what distinct names give

  lemma ClaimAt(kind: Kind, services: map<string, ServiceDecl>, names: seq<string>, k: nat, i: nat) returns (at: nat)
    requires Known(names, services) && k < |names| && names[k] in services
    requires i < |Claims(kind, names[k], services[names[k]])|
    ensures at == |AllClaims(kind, services, names, k)| + i
    ensures at < |AllClaims(kind, services, names, k + 1)| <= |AllClaims(kind, services, names, |names|)|
    ensures AllClaims(kind, services, names, |names|)[at] == Claims(kind, names[k], services[names[k]])[i]
  {
    hide *;
    at := |AllClaims(kind, services, names, k)| + i;
    AllClaimsStep(kind, services, names, k);
    AllClaimsPrefix(kind, services, names, k + 1);
  }

  lemma ClaimBefore(kind: Kind, services: map<string, ServiceDecl>, names: seq<string>, k: nat, i: nat, l: nat, j: nat)
    requires Known(names, services) && k < l < |names| && names[k] in services && names[l] in services
    requires i < |Claims(kind, names[k], services[names[k]])| && j < |Claims(kind, names[l], services[names[l]])|
    requires Distinct(AllClaims(kind, services, names, |names|))
    ensures Claims(kind, names[k], services[names[k]])[i] != Claims(kind, names[l], services[names[l]])[j]
  {
    hide *;
    var x := ClaimAt(kind, services, names, k, i);
    var y := ClaimAt(kind, services, names, l, j);
    AllClaimsShorter(kind, services, names, k + 1, l);
    DistinctAt(AllClaims(kind, services, names, |names|), x, y);
  }

  lemma DistinctAt<T>(s: seq<T>, x: nat, y: nat)
    requires Distinct(s) && x < y < |s|
    ensures s[x] != s[y]
  {
  }

  /** When nothing collides, a name says which service it belongs to, and which of its instances. */
  lemma ClaimedOnce(kind: Kind, services: map<string, ServiceDecl>, a: string, i: nat, b: string, j: nat)
    requires NoCollision(kind, services) && a in services && b in services
    requires i < |Claims(kind, a, services[a])| && j < |Claims(kind, b, services[b])|
    requires Claims(kind, a, services[a])[i] == Claims(kind, b, services[b])[j]
    ensures a == b && i == j
  {
    hide Claims, AllClaims;
    var names := SortedSet(services.Keys);
    AllKnown(services);
    assert a in Elems(names) && b in Elems(names);
    var k :| 0 <= k < |names| && names[k] == a;
    var l :| 0 <= l < |names| && names[l] == b;
    if k < l {
      ClaimBefore(kind, services, names, k, i, l, j);
    } else if l < k {
      ClaimBefore(kind, services, names, l, j, k, i);
    } else {
      var x := ClaimAt(kind, services, names, k, i);
      var y := ClaimAt(kind, services, names, k, j);
    }
  }

  lemma {:induction false} AllClaimsShorter(kind: Kind, services: map<string, ServiceDecl>, names: seq<string>, k: nat,
                                            l: nat)
    requires k <= l <= |names| && Known(names, services)
    ensures |AllClaims(kind, services, names, k)| <= |AllClaims(kind, services, names, l)|
  {
    hide *;
    if k < l {
      KnownAt(names, services, l - 1);
      AllClaimsShorter(kind, services, names, k, l - 1);
      AllClaimsStep(kind, services, names, l - 1);
    }
  }

  /** The position of a service among those with a port. */
  ghost function Rank(services: map<string, ServiceDecl>, name: string): (i: nat)
    requires name in services && services[name].port != 0
    ensures i < |PortedNames(services)| && PortedNames(services)[i] == name
  {
    var i :| 0 <= i < |PortedNames(services)| && PortedNames(services)[i] == name;
    i
  }

  /** When nothing collides, instance `j` of a service has the port its rank and index give. */
  lemma PortOf(services: map<string, ServiceDecl>, name: string, j: nat)
    requires NoCollision(Containers, services) && name in services && services[name].port != 0
    requires j < Instances(services[name].replicas)
    ensures var c := ContainerName(name, services[name].replicas, j);
      c in TunnelPorts(services)
      && TunnelPorts(services)[c] == PortAt(Rank(services, name), j, |PortedNames(services)|)
  {
    var names := PortedNames(services);
    var c := ContainerName(name, services[name].replicas, j);
    assert HasPort(services, name, j, c);
    PortsDomain(services, c);
    var k, l := PortsAre(services, names, |names|, c);
    assert names[k] in names;
    ClaimedOnce(Containers, services, name, j, names[k], l);
    assert k == Rank(services, name);
  }

  function Scaled(services: map<string, ServiceDecl>, name: string, replicas: Option<int>): map<string, ServiceDecl>
    requires name in services
  {
    services[name := services[name].(replicas := replicas)]
  }

  lemma ScaledKeepsPorted(services: map<string, ServiceDecl>, name: string, replicas: Option<int>)
    requires name in services
    ensures PortedNames(services) == PortedNames(Scaled(services, name, replicas))
  {
    var after := Scaled(services, name, replicas);
    assert (set n | n in services && services[n].port != 0) == (set n | n in after && after[n].port != 0);
  }

  ghost function PortOfInstance(services: map<string, ServiceDecl>, name: string, j: nat): Option<int>
    requires name in services
  {
    var c := ContainerName(name, services[name].replicas, j);
    if c in TunnelPorts(services) then Some(TunnelPorts(services)[c]) else None
  }

  /** Changing `replicas:` of one service renumbers no container of any service that was there
      before and after, its own remaining instances included, so it restarts none of them. */
  lemma PortsStable(services: map<string, ServiceDecl>, changed: string, replicas: Option<int>, name: string, j: nat)
    requires changed in services && name in services && services[name].port != 0
    requires NoCollision(Containers, services) && NoCollision(Containers, Scaled(services, changed, replicas))
    requires j < Instances(services[name].replicas) && j < Instances(Scaled(services, changed, replicas)[name].replicas)
    ensures PortOfInstance(services, name, j).Some?
    ensures PortOfInstance(services, name, j) == PortOfInstance(Scaled(services, changed, replicas), name, j)
  {
    var after := Scaled(services, changed, replicas);
    ScaledKeepsPorted(services, changed, replicas);
    assert after[name].port != 0;
    hide NoCollision, TunnelPorts, ContainerName, Instances, PortAt, PortedNames, Scaled;
    PortOf(services, name, j);
    PortOf(after, name, j);
    RankUnique(PortedNames(services), Rank(services, name), Rank(after, name));
  }

  lemma RankUnique(names: seq<string>, i: nat, j: nat)
    requires Distinct(names) && i < |names| && j < |names| && names[i] == names[j]
    ensures i == j
  {
  }
}
