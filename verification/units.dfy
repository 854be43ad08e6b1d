/** All the unit files of a model in one map (render, internal/compiler/render.go). Files of
    different kinds never share a name, so a container's file holds its own text when the names of
    the containers are distinct. */
module Units {
  import opened Text
  import opened Containers
  import opened Compiler
  import opened CompiledNames
  import opened Render

  datatype Entry = Entry(name: string, text: string)

  /** Both header lines and the blank one after them. */
  function Headed(lines: seq<string>): string {
    Unlines([FixtureText(Generated), FixtureText(ChangesHere), ""] + lines)
  }

  function NetworkText(net: string): string {
    Headed(["[Network]", "# OwnBase capability network: " + net, "Driver=bridge", "Internal=true"])
  }

  function VolumeText(vol: string): string {
    Headed(["[Volume]", "# OwnBase data volume: " + vol])
  }

  function TimerText(t: Timer): string {
    Headed(["[Unit]", "Description=OwnBase job timer: " + t.name, "",
            "[Timer]", "OnCalendar=" + t.onCalendar, "Persistent=" + if t.persistent then "true" else "false", "",
            "[Install]", "WantedBy=timers.target"])
  }

  function ContainerEntries(cs: seq<ContainerModel>, quote: string -> string): seq<Entry> {
    seq(|cs|, i requires 0 <= i < |cs| => Entry(UnitName(cs[i]), ContainerText(cs[i], quote)))
  }

  function NetworkEntries(nets: seq<string>): seq<Entry> {
    seq(|nets|, i requires 0 <= i < |nets| => Entry(nets[i] + ".network", NetworkText(nets[i])))
  }

  function VolumeEntries(vols: seq<string>): seq<Entry> {
    seq(|vols|, i requires 0 <= i < |vols| => Entry(vols[i] + ".volume", VolumeText(vols[i])))
  }

  function TimerEntries(ts: seq<Timer>): seq<Entry> {
    seq(|ts|, i requires 0 <= i < |ts| => Entry(ts[i].name + ".timer", TimerText(ts[i])))
  }

  /** A map filled in this order, a later file replacing an earlier one of the same name. */
  function Filled(entries: seq<Entry>): map<string, string> {
    if entries == [] then map[]
    else
      var last := entries[|entries| - 1];
      Filled(entries[..|entries| - 1])[last.name := last.text]
  }

  function Units(model: RuntimeModel, quote: string -> string): map<string, string> {
    Filled(ContainerEntries(model.containers, quote) + NetworkEntries(model.networks)
           + VolumeEntries(model.volumes) + TimerEntries(model.timers))
  }

  lemma FilledAppend(entries: seq<Entry>, e: Entry)
    ensures Filled(entries + [e]) == Filled(entries)[e.name := e.text]
  {
    assert (entries + [e])[..|entries|] == entries;
  }

  /** One more of a run of entries. */
  lemma FilledNext(before: seq<Entry>, run: seq<Entry>, i: nat)
    requires i < |run|
    ensures Filled(before + run[..i + 1]) == Filled(before + run[..i])[run[i].name := run[i].text]
  {
    assert before + run[..i + 1] == (before + run[..i]) + [run[i]];
    FilledAppend(before + run[..i], run[i]);
  }

  lemma RunIsDone(before: seq<Entry>, run: seq<Entry>)
    ensures before + run[..0] == before && before + run[..|run|] == before + run
  {
  }

  /** The part of render that fills QuadletUnits. */
  method RenderUnits(model: RuntimeModel, quote: string -> string) returns (units: map<string, string>)
    ensures units == Units(model, quote)
  {
    units := map[];
    hide Filled, ContainerText, NetworkText, VolumeText, TimerText, UnitName;
    ghost var done: seq<Entry> := [];
    ghost var run := ContainerEntries(model.containers, quote);
    NothingFilled();
    RunIsDone(done, run);
    for i := 0 to |model.containers|
      invariant units == Filled(done + run[..i])
    {
      FilledNext(done, run, i);
      var c := model.containers[i];
      var text := RenderContainer(c, quote);
      units := units[UnitName(c) := text];
    }
    done := run;
    run := NetworkEntries(model.networks);
    RunIsDone(done, run);
    for i := 0 to |model.networks|
      invariant units == Filled(done + run[..i])
    {
      FilledNext(done, run, i);
      units := units[model.networks[i] + ".network" := NetworkText(model.networks[i])];
    }
    done := done + run;
    run := VolumeEntries(model.volumes);
    RunIsDone(done, run);
    for i := 0 to |model.volumes|
      invariant units == Filled(done + run[..i])
    {
      FilledNext(done, run, i);
      units := units[model.volumes[i] + ".volume" := VolumeText(model.volumes[i])];
    }
    done := done + run;
    run := TimerEntries(model.timers);
    RunIsDone(done, run);
    for i := 0 to |model.timers|
      invariant units == Filled(done + run[..i])
    {
      FilledNext(done, run, i);
      units := units[model.timers[i].name + ".timer" := TimerText(model.timers[i])];
    }
  }

  lemma NothingFilled()
    ensures Filled([]) == map[]
    ensures forall run: seq<Entry> :: [] + run == run
  {
  }

  // ----------------------------------------------------------------------- whose text it is

  lemma {:induction false} OthersDoNotMatter(a: seq<Entry>, b: seq<Entry>, name: string)
    requires name in Filled(a) && forall e | e in b :: e.name != name
    ensures name in Filled(a + b) && Filled(a + b)[name] == Filled(a)[name]
  {
    if b == [] {
      assert a + b == a;
    } else {
      var front, last := b[..|b| - 1], b[|b| - 1];
      assert b == front + [last] && last in b;
      OthersDoNotMatter(a, front, name);
      assert a + b == (a + front) + [last];
      FilledAppend(a + front, last);
    }
  }

  lemma OtherKind(a: string, b: string)
    ensures a + ".network" != b + ".container" && a + ".volume" != b + ".container" && a + ".timer" != b + ".container"
  {
    var c := b + ".container";
    assert c[|c| - 1] == 'r' && c[|c| - 3] == 'n';
    assert (a + ".network")[|a + ".network"| - 1] == 'k';
    assert (a + ".volume")[|a + ".volume"| - 1] == 'e';
    assert (a + ".timer")[|a + ".timer"| - 3] == 'm';
  }

  lemma OtherName(model: RuntimeModel, name: string, e: Entry)
    requires e in NetworkEntries(model.networks) || e in VolumeEntries(model.volumes) || e in TimerEntries(model.timers)
    ensures e.name != name + ".container"
  {
    hide NetworkText, VolumeText, TimerText;
    forall a { OtherKind(a, name); }
  }

  lemma NoContainers(model: RuntimeModel, c: ContainerModel, e: Entry)
    requires e in NetworkEntries(model.networks) || e in VolumeEntries(model.volumes) || e in TimerEntries(model.timers)
    ensures e.name != UnitName(c)
  {
    hide NetworkEntries, VolumeEntries, TimerEntries;
    OtherName(model, c.name, e);
  }

  lemma SameUnitName(a: string, b: string)
    requires a + ".container" == b + ".container"
    ensures a == b
  {
    assert (a + ".container")[..|a|] == a && (b + ".container")[..|b|] == b;
  }

  /** The container of a name that comes last has its text in the file. */
  lemma LastContainerWins(cs: seq<ContainerModel>, quote: string -> string, i: nat)
    requires i < |cs| && forall j | i < j < |cs| :: cs[j].name != cs[i].name
    ensures UnitName(cs[i]) in Filled(ContainerEntries(cs, quote))
    ensures Filled(ContainerEntries(cs, quote))[UnitName(cs[i])] == ContainerText(cs[i], quote)
  {
    hide ContainerText, Filled;
    var all := ContainerEntries(cs, quote);
    var upTo, rest := all[..i + 1], all[i + 1..];
    assert upTo == all[..i] + [all[i]] && all == upTo + rest;
    FilledAppend(all[..i], all[i]);
    forall e | e in rest ensures e.name != UnitName(cs[i]) {
      var j :| 0 <= j < |rest| && rest[j] == e;
      assert e == all[i + 1 + j];
      if e.name == UnitName(cs[i]) {
        SameUnitName(cs[i + 1 + j].name, cs[i].name);
      }
    }
    OthersDoNotMatter(upTo, rest, UnitName(cs[i]));
  }

  lemma ContainerFile(model: RuntimeModel, quote: string -> string, name: string, c: ContainerModel)
    requires name == UnitName(c) && name in Filled(ContainerEntries(model.containers, quote))
    ensures name in Units(model, quote)
    ensures Units(model, quote)[name] == Filled(ContainerEntries(model.containers, quote))[name]
  {
    hide Filled, ContainerEntries, NetworkEntries, VolumeEntries, TimerEntries, UnitName;
    var cs, ns := ContainerEntries(model.containers, quote), NetworkEntries(model.networks);
    var vs, ts := VolumeEntries(model.volumes), TimerEntries(model.timers);
    forall e | e in ns || e in vs || e in ts ensures e.name != name { NoContainers(model, c, e); }
    OthersDoNotMatter(cs, ns, name);
    OthersDoNotMatter(cs + ns, vs, name);
    OthersDoNotMatter(cs + ns + vs, ts, name);
  }

  lemma {:induction false} FilledFrom(entries: seq<Entry>, name: string)
    requires name in Filled(entries)
    ensures exists e :: e in entries && e.name == name
  {
    var n := |entries| - 1;
    if entries[n].name != name {
      FilledFrom(entries[..n], name);
    } else {
      assert entries[n] in entries;
    }
  }

  /** A container unit is that of a container. */
  lemma UnitOfContainer(model: RuntimeModel, quote: string -> string, name: string) returns (c: ContainerModel)
    requires name + ".container" in Units(model, quote)
    ensures c in model.containers && c.name == name
  {
    hide *;
    var cs, ns := ContainerEntries(model.containers, quote), NetworkEntries(model.networks);
    var vs, ts := VolumeEntries(model.volumes), TimerEntries(model.timers);
    UnitsAre(model, quote);
    FilledFrom(cs + ns + vs + ts, name + ".container");
    var e: Entry :| e in cs + ns + vs + ts && e.name == name + ".container";
    if e !in cs {
      OtherName(model, name, e);
    }
    c := EntryOf(model.containers, quote, e);
    SameUnitName(c.name, name);
  }

  lemma UnitsAre(model: RuntimeModel, quote: string -> string)
    ensures Units(model, quote) == Filled(
              ContainerEntries(model.containers, quote) + NetworkEntries(model.networks)
              + VolumeEntries(model.volumes) + TimerEntries(model.timers))
  {
  }

  lemma EntryOf(cs: seq<ContainerModel>, quote: string -> string, e: Entry) returns (c: ContainerModel)
    requires e in ContainerEntries(cs, quote)
    ensures c in cs && e.name == c.name + ".container"
  {
    hide ContainerText;
    var i :| 0 <= i < |cs| && ContainerEntries(cs, quote)[i] == e;
    c := cs[i];
  }

  /** The container of a name that comes last has its text in the file of that name. */
  lemma LastHoldsFile(model: RuntimeModel, quote: string -> string, i: nat)
    requires var cs := model.containers; i < |cs| && forall j | i < j < |cs| :: cs[j].name != cs[i].name
    ensures UnitName(model.containers[i]) in Units(model, quote)
    ensures Units(model, quote)[UnitName(model.containers[i])] == ContainerText(model.containers[i], quote)
  {
    hide *;
    LastContainerWins(model.containers, quote, i);
    ContainerFile(model, quote, UnitName(model.containers[i]), model.containers[i]);
  }

  /** With distinct names every container has a file, and in it its own text. */
  lemma UnitsHoldTheirOwn(model: RuntimeModel, quote: string -> string, i: nat)
    requires NamesDistinct(model.containers) && i < |model.containers|
    ensures UnitName(model.containers[i]) in Units(model, quote)
    ensures Units(model, quote)[UnitName(model.containers[i])] == ContainerText(model.containers[i], quote)
  {
    assert forall j | i < j < |model.containers| :: model.containers[j].name != model.containers[i].name;
    LastHoldsFile(model, quote, i);
  }

  /** Without them, of two containers of one name the earlier one has no file of its own: the file
      holds the later one's text. In the case that validation lets through, the scheduled job
      replaces the replica of the service. */
  lemma EarlierContainerIsLost(model: RuntimeModel, quote: string -> string, i: nat, j: nat)
    requires i < j < |model.containers| && model.containers[i].name == model.containers[j].name
    requires forall k | j < k < |model.containers| :: model.containers[k].name != model.containers[j].name
    ensures UnitName(model.containers[i]) in Units(model, quote)
    ensures Units(model, quote)[UnitName(model.containers[i])] == ContainerText(model.containers[j], quote)
  {
    hide ContainerText, Units;
    assert UnitName(model.containers[i]) == UnitName(model.containers[j]);
    LastHoldsFile(model, quote, j);
  }
}
