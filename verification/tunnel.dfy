/** The tunnel reads the applied loopback ports back out of the unit files on the Base
    (internal/bridge/quadlet.go) and looks up the services it discovers in the configuration
    (internal/bridge/discover.go, cmd/ownbasectl/tunnel.go). */
module Tunnel {
  import opened Text
  import opened Order
  import opened Schema
  import opened Containers
  import opened Compiler
  import opened Render
  import opened UnitText

  // ------------------------------------------------------------------- the grep on the Base

  const SYSTEM_QUADLET_DIR: string := "/etc/containers/systemd"

  const PUBLISH_PORT: string := "PublishPort="

  /** An applied file ownbase-<stem>.container. */
  datatype UnitFile = UnitFile(stem: string, content: string)

  function UnitPath(stem: string): string {
    SYSTEM_QUADLET_DIR + "/" + ("ownbase-" + stem + ".container")
  }

  function Labelled(stem: string, lines: seq<string>): seq<string> {
    if lines == [] then []
    else Labelled(stem, lines[..|lines| - 1]) + [UnitPath(stem) + ":" + lines[|lines| - 1]]
  }

  function PublishLinesOf(f: UnitFile): seq<string> {
    Matching(FileLines(f.content), PUBLISH_PORT)
  }

  function GrepLines(files: seq<UnitFile>): seq<string> {
    if files == [] then []
    else
      var last := files[|files| - 1];
      GrepLines(files[..|files| - 1]) + Labelled(last.stem, PublishLinesOf(last))
  }

  /** What GrepPublishPortCommand prints, whatever the order the files are listed in. */
  function GrepOutput(files: seq<UnitFile>): string {
    Unlines(GrepLines(files))
  }

  // ----------------------------------------------------------------------------- the parser

  /** The host port in `[ip:]hostPort:containerPort`, if it is a positive number. */
  function HostPort(rest: string): Option<int> {
    var fields := Split(rest, ':');
    if |fields| < 2 then None
    else
      var port := ScanInt(fields[|fields| - 2]);
      if port.Some? && port.value > 0 then port else None
  }

  datatype Entry = Entry(name: string, port: int)

  function EntryOn(raw: string): Option<Entry> {
    var line := TrimSpace(raw);
    var at := Index(line, ":PublishPort=");
    if line == "" || at < 0 then None
    else
      var base := Base(line[..at]);
      var port := HostPort(line[at + 13..]);
      if !HasPrefix(base, "ownbase-") || !HasSuffix(base, ".container") || port.None? then None
      else Some(Entry(TrimSuffix(TrimPrefix(base, "ownbase-"), ".container"), port.value))
  }

  function Ports(lines: seq<string>): map<string, int> {
    if lines == [] then map[]
    else
      var before := Ports(lines[..|lines| - 1]);
      match EntryOn(lines[|lines| - 1])
      case None => before
      case Some(e) => before[e.name := e.port]
  }

  /** ParseActualHostPorts. */
  method ParseActualHostPorts(grepOutput: string) returns (ports: map<string, int>)
    ensures ports == Ports(Split(grepOutput, '\n'))
  {
    var lines := Split(grepOutput, '\n');
    hide Split, TrimSpace, Index, Base, ScanInt;
    ports := map[];
    for i := 0 to |lines|
      invariant ports == Ports(lines[..i])
    {
      assert lines[..i + 1][..i] == lines[..i];
      var line := TrimSpace(lines[i]);
      if line == "" {
        continue;
      }
      var at := Index(line, ":PublishPort=");
      if at < 0 {
        continue;
      }
      var pathPart, rest := line[..at], line[at + 13..];
      var base := Base(pathPart);
      if !HasPrefix(base, "ownbase-") || !HasSuffix(base, ".container") {
        continue;
      }
      var name := TrimSuffix(TrimPrefix(base, "ownbase-"), ".container");
      var fields := Split(rest, ':');
      if |fields| < 2 {
        continue;
      }
      var port := ScanInt(fields[|fields| - 2]);
      if port.Some? && port.value > 0 {
        ports := ports[name := port.value];
      }
    }
    assert lines[..|lines|] == lines;
  }

  // --------------------------------------------------------------- one unit, one entry

  /** A name that can be a file name and does not break up a line of output. */
  predicate IsPlainStem(stem: string) {
    '/' !in stem && ':' !in stem && '\n' !in stem
  }

  /** The port on a line `PublishPort=...`. */
  function PortOn(line: string): Option<int>
    requires HasPrefix(line, PUBLISH_PORT)
  {
    HostPort(TrimRight(line[|PUBLISH_PORT|..]))
  }

  lemma StemOf(stem: string)
    ensures TrimSuffix(TrimPrefix("ownbase-" + stem + ".container", "ownbase-"), ".container") == stem
    ensures HasPrefix("ownbase-" + stem + ".container", "ownbase-")
    ensures HasSuffix("ownbase-" + stem + ".container", ".container")
  {
    var base := "ownbase-" + stem + ".container";
    assert base[8..] == stem + ".container";
    assert (stem + ".container")[..|stem|] == stem;
    assert (stem + ".container")[|stem|..] == ".container";
    assert base[|base| - 10..] == ".container";
  }

  lemma DirFree()
    ensures ':' !in SYSTEM_QUADLET_DIR && '\n' !in SYSTEM_QUADLET_DIR
    ensures |SYSTEM_QUADLET_DIR| > 0 && SYSTEM_QUADLET_DIR[0] == '/'
  {
  }

  lemma PathFree(stem: string)
    requires IsPlainStem(stem)
    ensures ':' !in UnitPath(stem) && '\n' !in UnitPath(stem)
    ensures UnitPath(stem) != "" && UnitPath(stem)[0] == '/'
    ensures Base(UnitPath(stem)) == "ownbase-" + stem + ".container"
  {
    DirFree();
    hide SYSTEM_QUADLET_DIR;
    assert '/' !in "ownbase-" && '/' !in ".container";
    assert ':' !in "ownbase-" && ':' !in ".container" && '\n' !in "ownbase-" && '\n' !in ".container";
    BaseOfFile(SYSTEM_QUADLET_DIR, "ownbase-" + stem + ".container");
  }

  lemma TrimLabelled(path: string, v: string)
    requires path != "" && path[0] == '/'
    ensures TrimSpace(path + ":PublishPort=" + v) == path + ":PublishPort=" + TrimRight(v)
  {
    var prefix := path + ":PublishPort=";
    assert (prefix + v)[0] == '/' && prefix[|prefix| - 1] == '=';
    assert IsSpace('/') == false && IsSpace('=') == false;
    hide IsSpace, TrimRight;
    assert TrimLeft(prefix + v) == prefix + v;
    TrimRightAppend(prefix, v);
  }

  lemma EntryOnCut(line: string, path: string, v: string)
    requires TrimSpace(line) == path + ":PublishPort=" + v && ':' !in path
    requires var base := Base(path); HasPrefix(base, "ownbase-") && HasSuffix(base, ".container")
    ensures EntryOn(line) ==
      if HostPort(v).None? then None
      else Some(Entry(TrimSuffix(TrimPrefix(Base(path), "ownbase-"), ".container"), HostPort(v).value))
  {
    var trimmed := path + ":PublishPort=" + v;
    IndexAfter(path, ":PublishPort=", v);
    assert trimmed[..|path|] == path;
    assert trimmed[|path| + 13..] == v;
    hide Base, HostPort, TrimSpace, Index;
    assert trimmed != "";
  }

  /** Each labelled line parses to its file's stem and its own port. */
  lemma EntryOnLabelled(stem: string, line: string)
    requires IsPlainStem(stem) && HasPrefix(line, PUBLISH_PORT)
    ensures EntryOn(UnitPath(stem) + ":" + line) ==
      if PortOn(line).Some? then Some(Entry(stem, PortOn(line).value)) else None
  {
    var path, v := UnitPath(stem), line[|PUBLISH_PORT|..];
    assert line == PUBLISH_PORT + v;
    assert path + ":" + line == path + ":PublishPort=" + v;
    assert PortOn(line) == HostPort(TrimRight(v));
    hide *;
    PathFree(stem);
    StemOf(stem);
    TrimLabelled(path, v);
    EntryOnCut(path + ":" + line, path, TrimRight(v));
  }

  /** The port on the last of the lines that has one. */
  function LastPort(lines: seq<string>): Option<int>
    requires forall l | l in lines :: HasPrefix(l, PUBLISH_PORT)
  {
    if lines == [] then None
    else
      var p := PortOn(lines[|lines| - 1]);
      if p.Some? then p else LastPort(lines[..|lines| - 1])
  }

  lemma {:induction false} MatchingHave(lines: seq<string>, prefix: string)
    ensures forall l | l in Matching(lines, prefix) :: HasPrefix(l, prefix) && l in lines
  {
    if lines != [] {
      MatchingHave(lines[..|lines| - 1], prefix);
    }
  }

  function FilePort(f: UnitFile): Option<int> {
    MatchingHave(FileLines(f.content), PUBLISH_PORT);
    LastPort(PublishLinesOf(f))
  }

  // ------------------------------------------------------------------- all units together

  lemma PortsAppend(a: seq<string>, line: string)
    ensures Ports(a + [line]) ==
      match EntryOn(line) case None => Ports(a) case Some(e) => Ports(a)[e.name := e.port]
  {
    hide EntryOn;
    assert (a + [line])[..|a|] == a;
  }

  lemma {:induction false} PortsOfOneFile(a: seq<string>, stem: string, lines: seq<string>)
    requires IsPlainStem(stem) && forall l | l in lines :: HasPrefix(l, PUBLISH_PORT)
    ensures Ports(a + Labelled(stem, lines)) ==
      if LastPort(lines).Some? then Ports(a)[stem := LastPort(lines).value] else Ports(a)
  {
    hide EntryOn, Ports, PortOn, IsPlainStem, UnitPath;
    if lines == [] {
      assert a + Labelled(stem, lines) == a;
    } else {
      var front, last := lines[..|lines| - 1], lines[|lines| - 1];
      var so := a + Labelled(stem, front);
      PortsOfOneFile(a, stem, front);
      assert a + Labelled(stem, lines) == so + [UnitPath(stem) + ":" + last];
      PortsAppend(so, UnitPath(stem) + ":" + last);
      EntryOnLabelled(stem, last);
    }
  }

  ghost predicate AllPlain(files: seq<UnitFile>) {
    forall f | f in files :: IsPlainStem(f.stem)
  }

  /** What the parser makes of the files: the port each of them publishes, by stem. */
  function PortMap(files: seq<UnitFile>): map<string, int> {
    if files == [] then map[]
    else
      var before, last := PortMap(files[..|files| - 1]), files[|files| - 1];
      var port := FilePort(last);
      if port.Some? then before[last.stem := port.value] else before
  }

  lemma {:induction false} PortsOfFiles(files: seq<UnitFile>)
    requires AllPlain(files)
    ensures Ports(GrepLines(files)) == PortMap(files)
  {
    hide Ports, Labelled, PublishLinesOf, LastPort, IsPlainStem;
    if files != [] {
      var front, last := files[..|files| - 1], files[|files| - 1];
      assert last in files && forall f | f in front :: f in files;
      PortsOfFiles(front);
      MatchingHave(FileLines(last.content), PUBLISH_PORT);
      PublishLinesAre(last);
      PortsOfOneFile(GrepLines(front), last.stem, PublishLinesOf(last));
    } else {
      NoPorts();
    }
  }

  lemma PublishLinesAre(f: UnitFile)
    ensures PublishLinesOf(f) == Matching(FileLines(f.content), PUBLISH_PORT)
  {
  }

  lemma NoPorts()
    ensures Ports([]) == map[]
  {
  }

  lemma {:induction false} GrepLinesFree(files: seq<UnitFile>)
    requires AllPlain(files)
    ensures AllFree(GrepLines(files), '\n')
  {
    hide PublishLinesOf, UnitPath, IsPlainStem, Labelled;
    if files != [] {
      var front, last := files[..|files| - 1], files[|files| - 1];
      assert last in files && forall f | f in front :: f in files;
      GrepLinesFree(front);
      PublishLinesAre(last);
      MatchingHave(FileLines(last.content), PUBLISH_PORT);
      assert forall l | l in FileLines(last.content) :: l in Split(last.content, '\n');
      LabelledFree(last.stem, PublishLinesOf(last));
    }
  }

  lemma {:induction false} LabelledFree(stem: string, lines: seq<string>)
    requires IsPlainStem(stem) && AllFree(lines, '\n')
    ensures AllFree(Labelled(stem, lines), '\n')
  {
    if lines != [] {
      var front, last := lines[..|lines| - 1], lines[|lines| - 1];
      assert last in lines && forall l | l in front :: l in lines;
      LabelledFree(stem, front);
      PathFree(stem);
      hide UnitPath;
      assert '\n' !in UnitPath(stem) + ":" + last;
    }
  }

  /** Reading grep's output back gives exactly the port each unit file publishes, for files in any
      order and with anything else in them. */
  lemma PortsReadBack(files: seq<UnitFile>)
    requires AllPlain(files)
    ensures Ports(Split(GrepOutput(files), '\n')) == PortMap(files)
  {
    hide Ports, GrepLines, PortMap, AllPlain;
    GrepLinesFree(files);
    SplitUnlines(GrepLines(files));
    PortsOfFiles(files);
    PortsAppend(GrepLines(files), "");
    NoEntry();
  }

  lemma NoEntry()
    ensures EntryOn("").None?
  {
    assert TrimSpace("") == "";
  }

  ghost predicate StemsDistinct(files: seq<UnitFile>) {
    forall i, j | 0 <= i < j < |files| :: files[i].stem != files[j].stem
  }

  /** With one file per name, a stem is in the map exactly when its own file publishes a port. */
  lemma {:induction false} PortMapOf(files: seq<UnitFile>, stem: string)
    requires StemsDistinct(files)
    ensures stem in PortMap(files) <==> exists f :: f in files && f.stem == stem && FilePort(f).Some?
    ensures forall f | f in files && f.stem == stem && FilePort(f).Some? :: PortMap(files)[stem] == FilePort(f).value
  {
    hide FilePort;
    if files != [] {
      var front, last := files[..|files| - 1], files[|files| - 1];
      PortMapOf(front, stem);
      assert files == front + [last];
      forall f | f in front ensures f.stem != last.stem {
        var i :| 0 <= i < |front| && front[i] == f;
        assert files[i] == f;
      }
    }
  }

  // ------------------------------------------------------------------ a rendered container

  function StemOfContainer(c: ContainerModel): string {
    TrimPrefix(c.name, PREFIX)
  }

  lemma DigitsFree(n: int)
    ensures ':' !in DecInt(n)
    ensures DecInt(n) != "" && !IsSpace(DecInt(n)[|DecInt(n)| - 1])
  {
    hide Dec;
    var d := Dec(if n < 0 then -n else n);
    assert AllDigits(d);
    assert forall i | 0 <= i < |d| :: d[i] != ':';
  }

  lemma NothingToTrim(s: string)
    requires s != "" && !IsSpace(s[|s| - 1])
    ensures TrimRight(s) == s
  {
  }

  lemma SplitThree(a: string, b: string, c: string)
    requires ':' !in a && ':' !in b && ':' !in c
    ensures Split(a + [':'] + (b + [':'] + c), ':') == [a, b, c]
  {
    hide Split;
    SplitAtSeparator(a, ':', b + [':'] + c);
    SplitAtSeparator(b, ':', c);
    SplitFree(c, ':');
  }

  /** The published address splits into the loopback address, the host port and the other one. */
  lemma HostPortOf(port: int, other: int)
    requires 0 < port <= MAX_INT64
    ensures HostPort(TrimRight("127.0.0.1:" + DecInt(port) + ":" + DecInt(other))) == Some(port)
  {
    var ip, p, q := "127.0.0.1", DecInt(port), DecInt(other);
    DigitsFree(port);
    DigitsFree(other);
    assert ':' !in ip;
    ScanDec(port);
    assert p == Dec(port);
    var address := "127.0.0.1:" + p + ":" + q;
    assert address == ip + [':'] + (p + [':'] + q);
    assert address[|address| - 1] == q[|q| - 1];
    hide DecInt, Dec, ScanInt, IsSpace, TrimRight, Split;
    NothingToTrim(address);
    SplitThree(ip, p, q);
  }

  /** The unit of a container publishes its tunnel port, and nothing when it has none. */
  lemma ContainerFilePort(c: ContainerModel, quote: string -> string)
    requires LinesFree(ContainerLines(c, quote)) && c.tunnelPort <= MAX_INT64
    ensures FilePort(UnitFile(StemOfContainer(c), ContainerText(c, quote))) ==
      if c.tunnelPort > 0 then Some(c.tunnelPort) else None
  {
    var f := UnitFile(StemOfContainer(c), ContainerText(c, quote));
    hide ContainerText, FileLines, Matching, ContainerLines, HostPort, TrimRight, DecInt, LinesFree;
    PublishLineFound(c, quote);
    PublishLinesAre(f);
    if c.tunnelPort > 0 {
      var line := "PublishPort=127.0.0.1:" + DecInt(c.tunnelPort) + ":" + DecInt(c.publicPort);
      HostPortOf(c.tunnelPort, c.publicPort);
      assert line[|PUBLISH_PORT|..] == "127.0.0.1:" + DecInt(c.tunnelPort) + ":" + DecInt(c.publicPort);
      assert PublishLinesOf(f) == [line];
      assert LastPort([]).None?;
    }
  }

  // ---------------------------------------------------------------------------- discovery

  datatype Target = Target(service: string, unitKey: string, port: int, hostPort: int, domains: seq<string>)

  ghost function TargetOf(services: map<string, ServiceDecl>, name: string): seq<Target>
    requires name in services
  {
    var svc := services[name];
    var primary := PrimaryContainerName(name, svc.replicas);
    if svc.port == 0 || svc.EffectiveDomains() == [] then []
    else [Target(name, TrimPrefix(primary, PREFIX), svc.port, Compiler.PortIn(TunnelPorts(services), primary),
                 svc.EffectiveDomains())]
  }

  ghost function Targets(services: map<string, ServiceDecl>, names: seq<string>): seq<Target>
    requires forall i | 0 <= i < |names| :: names[i] in services
  {
    if names == [] then []
    else Targets(services, names[..|names| - 1]) + TargetOf(services, names[|names| - 1])
  }

  /** The targets of a configuration, in name order. */
  ghost function AllTargets(services: map<string, ServiceDecl>): seq<Target> {
    SortedServices(services);
    Targets(services, SortedSet(services.Keys))
  }

  /** Discover, after parsing, for any iteration order of the services. */
  method Discover(config: Config) returns (targets: seq<Target>)
    ensures targets == AllTargets(config.services)
  {
    hide *;
    var names := SortedKeys(config.services);
    SortedServices(config.services);
    var hostPorts := ComputeTunnelPorts(config.services);
    targets := [];
    NoTargets(config.services, names);
    for i := 0 to |names|
      invariant targets == Targets(config.services, names[..i])
    {
      TargetsStep(config.services, names, i);
      var name := names[i];
      var svc := config.services[name];
      var domains := EffectiveDomains(svc);
      if svc.port == 0 || |domains| == 0 {
        AppendNothing(targets);
        continue;
      }
      var primary := PrimaryContainerName(name, svc.replicas);
      var unitKey := TrimPrefix(primary, PREFIX);
      targets := targets + [Target(name, unitKey, svc.port, Compiler.PortIn(hostPorts, primary), domains)];
    }
    AllTargetsAre(config.services);
  }

  /** What discovery makes of a service, in terms of its declaration. */
  ghost predicate IsTarget(services: map<string, ServiceDecl>, t: Target) {
    && t.service in services && services[t.service].port != 0 && services[t.service].EffectiveDomains() != []
    && t.port == services[t.service].port && t.domains == services[t.service].EffectiveDomains()
    && PREFIX + t.unitKey == PrimaryContainerName(t.service, services[t.service].replicas)
    && t.hostPort == Compiler.PortIn(TunnelPorts(services), PREFIX + t.unitKey)
  }

  lemma OneTarget(services: map<string, ServiceDecl>, name: string, t: Target)
    requires name in services
    ensures t in TargetOf(services, name) <==> t.service == name && IsTarget(services, t)
  {
    hide TunnelPorts, ServiceDecl.EffectiveDomains;
    var primary := PrimaryContainerName(name, services[name].replicas);
    assert PREFIX + TrimPrefix(primary, PREFIX) == primary;
    assert (PREFIX + t.unitKey)[|PREFIX|..] == t.unitKey;
  }

  lemma {:induction false} TargetsOf(services: map<string, ServiceDecl>, names: seq<string>, t: Target)
    requires forall i | 0 <= i < |names| :: names[i] in services
    ensures t in Targets(services, names) <==> t.service in names && IsTarget(services, t)
  {
    hide TargetOf, IsTarget;
    if names != [] {
      var front, last := names[..|names| - 1], names[|names| - 1];
      assert names == front + [last];
      TargetsOf(services, front, t);
      OneTarget(services, last, t);
    }
  }

  /** The targets are exactly the services with a port and a domain, each with its own port and domains, and
      with the name and the loopback port of its first container. */
  lemma TargetsAre(services: map<string, ServiceDecl>, t: Target)
    ensures t in AllTargets(services) <==> IsTarget(services, t)
  {
    var names := SortedSet(services.Keys);
    AllTargetsAre(services);
    TargetsOf(services, names, t);
    assert t.service in names <==> t.service in Elems(names);
    hide AllTargets, Targets, TunnelPorts, ServiceDecl.EffectiveDomains, PrimaryContainerName;
  }

  lemma AllTargetsAre(services: map<string, ServiceDecl>)
    ensures var names := SortedSet(services.Keys);
      (forall i | 0 <= i < |names| :: names[i] in services) && AllTargets(services) == Targets(services, names)
  {
    hide Targets;
    SortedServices(services);
  }

  lemma SortedServices(services: map<string, ServiceDecl>)
    ensures forall i | 0 <= i < |SortedSet(services.Keys)| :: SortedSet(services.Keys)[i] in services
  {
    var names := SortedSet(services.Keys);
    assert forall i | 0 <= i < |names| :: names[i] in Elems(names);
  }

  lemma NoTargets(services: map<string, ServiceDecl>, names: seq<string>)
    ensures names[..0] == [] && names[..|names|] == names && Targets(services, []) == []
  {
  }

  lemma AppendNothing<T>(s: seq<T>)
    ensures s + [] == s
  {
  }

  lemma TargetsStep(services: map<string, ServiceDecl>, names: seq<string>, i: nat)
    requires i < |names| && forall j | 0 <= j < |names| :: names[j] in services
    ensures Targets(services, names[..i + 1]) == Targets(services, names[..i]) + TargetOf(services, names[i])
    ensures var svc := services[names[i]]; var primary := PrimaryContainerName(names[i], svc.replicas);
      TargetOf(services, names[i]) ==
        if svc.port == 0 || svc.EffectiveDomains() == [] then []
        else [Target(names[i], TrimPrefix(primary, PREFIX), svc.port, Compiler.PortIn(TunnelPorts(services), primary),
                     svc.EffectiveDomains())]
  {
    assert names[..i + 1][..i] == names[..i];
    hide ServiceDecl.EffectiveDomains, TunnelPorts, PrimaryContainerName;
  }
}
