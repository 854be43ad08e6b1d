/** What a snapshot covers (internal/backup/volume.go). The host mountpoint of a volume is a
    parameter, and so is filepath.Join. */
module SnapshotPaths {
  import opened Text
  import opened Order
  import opened Schema
  import opened Containers
  import opened Compiler
  import opened Compiled

  datatype Outcome = Paths(paths: seq<string>) | Unresolved(volume: string, service: string)

  /** A volume to resolve, and the entries to take below its mountpoint. */
  datatype Wanted = Wanted(service: string, volume: string, entries: seq<string>)

  const CORE_VOLUME: string := "ownbase-core-caddy-data"

  /** resolveRelative. */
  function ResolveRelative(mp: string, entry: string, join: (string, string) -> string): string {
    var rel := TrimPrefix(entry, "./");
    if rel == "." || rel == "" then mp else join(mp, rel)
  }

  /** An entry names the mountpoint itself, or a path below it with or without a leading "./". */
  lemma EntryMeans(mp: string, entry: string, join: (string, string) -> string)
    ensures entry in {"", ".", "./", "./."} ==> ResolveRelative(mp, entry, join) == mp
    ensures entry !in {"", "."} && !("./" <= entry) ==> ResolveRelative(mp, entry, join) == join(mp, entry)
    ensures forall rel | entry == "./" + rel && rel !in {"", "."} :: ResolveRelative(mp, entry, join) == join(mp, rel)
  {
    assert "./"[2..] == "" && "./."[2..] == ".";
    forall rel | entry == "./" + rel ensures TrimPrefix(entry, "./") == rel {
      assert ("./" + rel)[2..] == rel;
    }
  }

  function Resolved(mp: string, entries: seq<string>, join: (string, string) -> string): seq<string> {
    if entries == [] then []
    else Resolved(mp, entries[..|entries| - 1], join) + [ResolveRelative(mp, entries[|entries| - 1], join)]
  }

  // ---------------------------------------------------------------------- the specification

  function WantedFor(service: string, volumes: seq<string>, entries: seq<string>): seq<Wanted> {
    seq(|volumes|, i requires 0 <= i < |volumes| => Wanted(service, volumes[i], entries))
  }

  /** The declarations of `decls` that ask for a backup, instance by instance. */
  function WantedOfDecls(service: string, svc: ServiceDecl, decls: seq<VolumeDecl>): seq<Wanted> {
    if decls == [] then []
    else
      var last := decls[|decls| - 1];
      WantedOfDecls(service, svc, decls[..|decls| - 1])
      + if last.backup == [] then [] else WantedFor(service, VolumeInstances(service, svc, last), last.backup)
  }

  /** Everything one service wants saved; the volume of the data_path shorthand as a whole. */
  function WantedOf(service: string, svc: ServiceDecl): seq<Wanted> {
    if |svc.volumes| > 0 then WantedOfDecls(service, svc, svc.volumes)
    else WantedFor(service, DataVolumeInstances(service, svc), ["."])
  }

  ghost function WantedBy(services: map<string, ServiceDecl>, names: seq<string>, upTo: nat): seq<Wanted>
    requires Known(names, services) && upTo <= |names|
  {
    if upTo == 0 then []
    else WantedBy(services, names, upTo - 1) + WantedOf(names[upTo - 1], services[names[upTo - 1]])
  }

  ghost function AllWanted(services: map<string, ServiceDecl>): seq<Wanted> {
    AllKnown(services);
    WantedBy(services, SortedSet(services.Keys), |SortedSet(services.Keys)|)
  }

  /** The paths of the wanted volumes in turn, or the first that has no mountpoint. */
  function Collect(wanted: seq<Wanted>, resolve: string -> Option<string>, join: (string, string) -> string): Outcome {
    if wanted == [] then Paths([])
    else
      var before, last := Collect(wanted[..|wanted| - 1], resolve, join), wanted[|wanted| - 1];
      if before.Unresolved? then before
      else
        match resolve(last.volume)
        case None => Unresolved(last.volume, last.service)
        case Some(mp) => Paths(before.paths + Resolved(mp, last.entries, join))
  }

  ghost function BuiltPaths(services: map<string, ServiceDecl>, defaults: seq<string>,
                            resolve: string -> Option<string>, join: (string, string) -> string): Outcome
  {
    match Collect(AllWanted(services), resolve, join)
    case Unresolved(v, s) => Unresolved(v, s)
    case Paths(paths) =>
      var core := resolve(CORE_VOLUME);
      Paths(Dedup(defaults + paths + if core.Some? then [core.value] else []))
  }

  // ------------------------------------------------------------------------------- the code

  /** volumeInstances. */
  method VolumesToResolve(service: string, svc: ServiceDecl, v: VolumeDecl) returns (out: seq<string>)
    ensures out == VolumeInstances(service, svc, v)
  {
    if !svc.VolumeIsPerReplica(v) {
      return [VolumeName(service, v.name, svc.replicas, 0, false)];
    }
    out := [];
    var n := Natural(svc.ReplicaCount());
    for i := 0 to n
      invariant out == VolumeInstances(service, svc, v)[..i]
    {
      out := out + [VolumeName(service, v.name, svc.replicas, i, true)];
    }
  }

  /** dataVolumeInstances. */
  method DataVolumesToResolve(service: string, svc: ServiceDecl) returns (out: seq<string>)
    ensures out == DataVolumeInstances(service, svc)
  {
    if !svc.DataPathIsPerReplica() {
      return [DataVolumeName(service, svc.replicas, 0, false)];
    }
    out := [];
    var n := Natural(svc.ReplicaCount());
    for i := 0 to n
      invariant out == DataVolumeInstances(service, svc)[..i]
    {
      out := out + [DataVolumeName(service, svc.replicas, i, true)];
    }
  }

  /** dedup. */
  method DedupPaths(ss: seq<string>) returns (out: seq<string>)
    ensures out == Dedup(ss)
  {
    var seen: set<string> := {};
    out := [];
    for i := 0 to |ss|
      invariant out == Dedup(ss[..i]) && seen == Elems(out)
    {
      DedupStep(ss, i);
      assert ss[i] in out <==> ss[i] in Elems(out);
      if ss[i] !in seen {
        ElemsAppend(out, [ss[i]]);
        seen := seen + {ss[i]};
        out := out + [ss[i]];
      }
    }
    assert ss[..|ss|] == ss;
  }

  lemma CollectStep(wanted: seq<Wanted>, w: Wanted, resolve: string -> Option<string>, join: (string, string) -> string)
    ensures Collect(wanted + [w], resolve, join) ==
      var before := Collect(wanted, resolve, join);
      if before.Unresolved? then before
      else match resolve(w.volume)
        case None => Unresolved(w.volume, w.service)
        case Some(mp) => Paths(before.paths + Resolved(mp, w.entries, join))
  {
    assert (wanted + [w])[..|wanted|] == wanted;
  }

  /** Once a volume has failed to resolve, the rest does not matter. */
  lemma {:induction false} StaysUnresolved(wanted: seq<Wanted>, more: seq<Wanted>, resolve: string -> Option<string>,
                                           join: (string, string) -> string)
    requires Collect(wanted, resolve, join).Unresolved?
    ensures Collect(wanted + more, resolve, join) == Collect(wanted, resolve, join)
  {
    if more == [] {
      assert wanted + more == wanted;
    } else {
      StaysUnresolved(wanted, more[..|more| - 1], resolve, join);
      assert wanted + more == (wanted + more[..|more| - 1]) + [more[|more| - 1]];
      CollectStep(wanted + more[..|more| - 1], more[|more| - 1], resolve, join);
    }
  }

  /** The innermost loop: the entries below one mountpoint. */
  method AppendEntries(mp: string, entries: seq<string>, join: (string, string) -> string, paths: seq<string>)
    returns (all: seq<string>)
    ensures all == paths + Resolved(mp, entries, join)
  {
    all := paths;
    assert entries[..0] == [] && entries[..|entries|] == entries && paths + [] == paths;
    for j := 0 to |entries|
      invariant all == paths + Resolved(mp, entries[..j], join)
    {
      assert entries[..j + 1][..j] == entries[..j];
      all := all + [ResolveRelative(mp, entries[j], join)];
    }
  }

  lemma WantedNext(done: seq<Wanted>, service: string, volumes: seq<string>, entries: seq<string>, i: nat)
    returns (now: seq<Wanted>, rest: seq<Wanted>)
    requires i < |volumes|
    ensures var wanted := WantedFor(service, volumes, entries);
      && now == done + wanted[..i] + [Wanted(service, volumes[i], entries)]
      && now == done + wanted[..i + 1]
      && done + wanted == now + rest
  {
    var wanted := WantedFor(service, volumes, entries);
    now, rest := done + wanted[..i + 1], wanted[i + 1..];
    assert wanted[..i + 1] == wanted[..i] + [wanted[i]];
    assert wanted == wanted[..i + 1] + wanted[i + 1..];
  }

  lemma WantedEnds(done: seq<Wanted>, wanted: seq<Wanted>)
    ensures done + wanted[..0] == done && wanted[..|wanted|] == wanted
  {
  }

  /** The loop over the instances of one declaration. */
  method AppendVolumes(service: string, volumes: seq<string>, entries: seq<string>, resolve: string -> Option<string>,
                       join: (string, string) -> string, paths: seq<string>, ghost done: seq<Wanted>)
    returns (out: Outcome)
    requires Collect(done, resolve, join) == Paths(paths)
    ensures out == Collect(done + WantedFor(service, volumes, entries), resolve, join)
  {
    var all := paths;
    ghost var wanted := WantedFor(service, volumes, entries);
    assert |wanted| == |volumes|;
    hide *;
    WantedEnds(done, wanted);
    for i := 0 to |volumes|
      invariant Collect(done + wanted[..i], resolve, join) == Paths(all)
    {
      ghost var now, rest := WantedNext(done, service, volumes, entries, i);
      CollectStep(done + wanted[..i], Wanted(service, volumes[i], entries), resolve, join);
      var mp := resolve(volumes[i]);
      if mp.None? {
        StaysUnresolved(now, rest, resolve, join);
        return Unresolved(volumes[i], service);
      }
      all := AppendEntries(mp.value, entries, join, all);
    }
    return Paths(all);
  }

  /** The body of the outer loop: one service. */
  method AppendService(service: string, svc: ServiceDecl, resolve: string -> Option<string>,
                       join: (string, string) -> string, paths: seq<string>, ghost done: seq<Wanted>)
    returns (out: Outcome)
    requires Collect(done, resolve, join) == Paths(paths)
    ensures out == Collect(done + WantedOf(service, svc), resolve, join)
  {
    hide Collect, WantedFor, VolumeInstances, DataVolumeInstances;
    if |svc.volumes| > 0 {
      out := Paths(paths);
      ghost var decls := svc.volumes;
      assert decls[..0] == [] && decls[..|decls|] == decls && done + [] == done;
      for k := 0 to |svc.volumes|
        invariant out.Paths? && out == Collect(done + WantedOfDecls(service, svc, decls[..k]), resolve, join)
      {
        var v := svc.volumes[k];
        ghost var so := WantedOfDecls(service, svc, decls[..k]);
        assert decls[..k + 1][..k] == decls[..k];
        if |v.backup| == 0 {
          assert so + [] == so;
          continue;
        }
        var instances := VolumesToResolve(service, svc, v);
        out := AppendVolumes(service, instances, v.backup, resolve, join, out.paths, done + so);
        ghost var more := WantedFor(service, instances, v.backup);
        assert done + so + more == done + (so + more);
        if out.Unresolved? {
          var rest := WantedRest(service, svc, decls, k + 1);
          StaysUnresolved(done + (so + more), rest, resolve, join);
          assert done + (so + more) + rest == done + WantedOfDecls(service, svc, decls);
          return;
        }
      }
    } else {
      var instances := DataVolumesToResolve(service, svc);
      out := AppendVolumes(service, instances, ["."], resolve, join, paths, done);
    }
  }

  lemma {:induction false} WantedRest(service: string, svc: ServiceDecl, decls: seq<VolumeDecl>, k: nat)
    returns (rest: seq<Wanted>)
    requires k <= |decls|
    ensures WantedOfDecls(service, svc, decls) == WantedOfDecls(service, svc, decls[..k]) + rest
    decreases |decls|
  {
    hide WantedFor, VolumeInstances;
    if k == |decls| {
      assert decls[..k] == decls;
      rest := [];
    } else {
      var front := decls[..|decls| - 1];
      rest := WantedRest(service, svc, front, k);
      assert front[..k] == decls[..k];
      var last := decls[|decls| - 1];
      rest := rest
        + if last.backup == [] then [] else WantedFor(service, VolumeInstances(service, svc, last), last.backup);
    }
  }

  lemma WantedByStep(services: map<string, ServiceDecl>, names: seq<string>, k: nat)
    requires Known(names, services) && k < |names| && names[k] in services
    ensures WantedBy(services, names, 0) == []
    ensures WantedBy(services, names, k + 1) == WantedBy(services, names, k) + WantedOf(names[k], services[names[k]])
  {
    hide WantedOf;
  }

  lemma {:induction false} WantedByRest(services: map<string, ServiceDecl>, names: seq<string>, k: nat, upTo: nat)
    returns (rest: seq<Wanted>)
    requires Known(names, services) && k <= upTo <= |names|
    ensures WantedBy(services, names, upTo) == WantedBy(services, names, k) + rest
    decreases upTo
  {
    hide *;
    rest := [];
    if k < upTo {
      KnownAt(names, services, upTo - 1);
      rest := WantedByRest(services, names, k, upTo - 1);
      WantedByStep(services, names, upTo - 1);
      rest := rest + WantedOf(names[upTo - 1], services[names[upTo - 1]]);
    } else {
      assert WantedBy(services, names, upTo) == WantedBy(services, names, k) + [];
    }
  }

  lemma NothingWanted(services: map<string, ServiceDecl>, resolve: string -> Option<string>,
                      join: (string, string) -> string)
    ensures var names := SortedSet(services.Keys);
      Known(names, services) && WantedBy(services, names, 0) == []
      && AllWanted(services) == WantedBy(services, names, |names|)
    ensures Collect([], resolve, join) == Paths([])
  {
    AllKnown(services);
  }

  /** BuildPaths. */
  method BuildPaths(config: Config, defaults: seq<string>, resolve: string -> Option<string>,
                    join: (string, string) -> string) returns (out: Outcome)
    ensures out == BuiltPaths(config.services, defaults, resolve, join)
  {
    var names := SortedKeys(config.services);
    var paths := CollectServices(config.services, names, resolve, join);
    if paths.Unresolved? {
      return paths;
    }
    var all := defaults + paths.paths;
    var core := resolve(CORE_VOLUME);
    if core.Some? {
      all := all + [core.value];
    }
    assert defaults + paths.paths + [] == defaults + paths.paths;
    all := DedupPaths(all);
    hide Dedup, AllWanted, Collect;
    return Paths(all);
  }

  method CollectServices(services: map<string, ServiceDecl>, names: seq<string>, resolve: string -> Option<string>,
                         join: (string, string) -> string) returns (out: Outcome)
    requires names == SortedSet(services.Keys)
    ensures out == Collect(AllWanted(services), resolve, join)
  {
    hide *;
    NothingWanted(services, resolve, join);
    out := Paths([]);
    for k := 0 to |names|
      invariant out.Paths? && out == Collect(WantedBy(services, names, k), resolve, join)
    {
      KnownAt(names, services, k);
      WantedByStep(services, names, k);
      out := AppendService(names[k], services[names[k]], resolve, join, out.paths, WantedBy(services, names, k));
      if out.Unresolved? {
        ghost var rest := WantedByRest(services, names, k + 1, |names|);
        StaysUnresolved(WantedBy(services, names, k + 1), rest, resolve, join);
        return;
      }
    }
  }

  // ------------------------------------------------------------------- what the paths are

  lemma {:induction false} InResolved(mp: string, entries: seq<string>, join: (string, string) -> string, path: string)
    ensures path in Resolved(mp, entries, join) <==> exists e :: e in entries && path == ResolveRelative(mp, e, join)
  {
    if entries != [] {
      var front, last := entries[..|entries| - 1], entries[|entries| - 1];
      assert entries == front + [last];
      InResolved(mp, front, join, path);
    }
  }

  /** The path of one entry of one wanted volume. */
  ghost predicate IsEntryOf(w: Wanted, resolve: string -> Option<string>, join: (string, string) -> string,
                            path: string) {
    resolve(w.volume).Some? && exists e :: e in w.entries && path == ResolveRelative(resolve(w.volume).value, e, join)
  }

  /** Every wanted volume has a mountpoint. */
  ghost predicate AllResolve(wanted: seq<Wanted>, resolve: string -> Option<string>) {
    forall w | w in wanted :: resolve(w.volume).Some?
  }

  ghost predicate IsWantedPath(wanted: seq<Wanted>, resolve: string -> Option<string>, join: (string, string) -> string,
                               path: string)
  {
    exists w :: w in wanted && IsEntryOf(w, resolve, join, path)
  }

  lemma OneMoreWanted(front: seq<Wanted>, last: Wanted, resolve: string -> Option<string>,
                      join: (string, string) -> string,
                      path: string)
    ensures AllResolve(front + [last], resolve) <==> AllResolve(front, resolve) && resolve(last.volume).Some?
    ensures IsWantedPath(front + [last], resolve, join, path) <==>
      IsWantedPath(front, resolve, join, path) || IsEntryOf(last, resolve, join, path)
  {
    hide IsEntryOf;
    var all := front + [last];
    assert forall w :: w in all <==> w in front || w == last;
  }

  lemma {:induction false} InCollected(wanted: seq<Wanted>, resolve: string -> Option<string>,
                                       join: (string, string) -> string, path: string)
    ensures Collect(wanted, resolve, join).Paths? <==> AllResolve(wanted, resolve)
    ensures Collect(wanted, resolve, join).Paths? ==>
      (path in Collect(wanted, resolve, join).paths <==> IsWantedPath(wanted, resolve, join, path))
  {
    hide Resolved, ResolveRelative;
    if wanted != [] {
      var front, last := wanted[..|wanted| - 1], wanted[|wanted| - 1];
      assert wanted == front + [last];
      hide AllResolve, IsWantedPath;
      InCollected(front, resolve, join, path);
      OneMoreWanted(front, last, resolve, join, path);
      if resolve(last.volume).Some? {
        InResolved(resolve(last.volume).value, last.entries, join, path);
      }
    }
  }

  /** The volume a failure names is the first wanted one without a mountpoint, with its service. */
  ghost predicate FirstUnresolved(wanted: seq<Wanted>, resolve: string -> Option<string>, out: Outcome, k: int) {
    && out.Unresolved? && 0 <= k < |wanted| && out.volume == wanted[k].volume && out.service == wanted[k].service
    && resolve(wanted[k].volume).None? && forall j | 0 <= j < k :: resolve(wanted[j].volume).Some?
  }

  lemma {:induction false} UnresolvedIsFirst(wanted: seq<Wanted>, resolve: string -> Option<string>,
                                             join: (string, string) -> string)
    ensures var out := Collect(wanted, resolve, join);
      if out.Unresolved? then exists k :: FirstUnresolved(wanted, resolve, out, k)
      else forall w | w in wanted :: resolve(w.volume).Some?
  {
    if wanted != [] {
      var n := |wanted| - 1;
      UnresolvedIsFirst(wanted[..n], resolve, join);
      var before, out := Collect(wanted[..n], resolve, join), Collect(wanted, resolve, join);
      if before.Unresolved? {
        var k :| FirstUnresolved(wanted[..n], resolve, before, k);
        assert FirstUnresolved(wanted, resolve, out, k);
      } else {
        assert forall j | 0 <= j < n :: wanted[j] in wanted[..n];
        if out.Unresolved? {
          assert FirstUnresolved(wanted, resolve, out, n);
        }
      }
    }
  }

  /** A snapshot covers the default paths, every entry of every wanted volume, and the core volume
      if it is there; nothing else, and nothing twice. It fails exactly when a wanted volume has no
      mountpoint. */
  lemma SnapshotCovers(config: Config, defaults: seq<string>, resolve: string -> Option<string>,
                       join: (string, string) -> string, path: string)
    ensures var out := BuiltPaths(config.services, defaults, resolve, join);
      && (out.Paths? <==> AllResolve(AllWanted(config.services), resolve))
      && (out.Paths? ==> Distinct(out.paths))
      && (out.Paths? ==> (path in out.paths <==>
            || path in defaults
            || resolve(CORE_VOLUME) == Some(path)
            || IsWantedPath(AllWanted(config.services), resolve, join, path)))
      && (out.Unresolved? ==> exists k :: FirstUnresolved(AllWanted(config.services), resolve, out, k))
  {
    var wanted := AllWanted(config.services);
    var collected := Collect(wanted, resolve, join);
    UnresolvedIsFirst(wanted, resolve, join);
    hide AllWanted, Collect, IsEntryOf, AllResolve, IsWantedPath;
    InCollected(wanted, resolve, join, path);
    if collected.Paths? {
      var core := resolve(CORE_VOLUME);
      var tail := if core.Some? then [core.value] else [];
      var all := defaults + collected.paths + tail;
      DedupMeans(all);
      assert path in Dedup(all) <==> path in Elems(Dedup(all));
      assert path in all <==> path in Elems(all);
      assert path in all <==> path in defaults || path in collected.paths || path in tail;
    }
  }

  // -------------------------------------------------------- agreement with the compiler

  lemma {:induction false} InWantedOfDecls(service: string, svc: ServiceDecl, decls: seq<VolumeDecl>, vol: string)
    ensures (exists w :: w in WantedOfDecls(service, svc, decls) && w.volume == vol) <==>
      exists k :: 0 <= k < |decls| && decls[k].backup != [] && vol in VolumeInstances(service, svc, decls[k])
  {
    hide VolumeInstances;
    if decls != [] {
      var front, last := decls[..|decls| - 1], decls[|decls| - 1];
      var all, before := WantedOfDecls(service, svc, decls), WantedOfDecls(service, svc, front);
      InWantedOfDecls(service, svc, front, vol);
      var more := WantedFor(service, VolumeInstances(service, svc, last), last.backup);
      if k :| 0 <= k < |decls| && decls[k].backup != [] && vol in VolumeInstances(service, svc, decls[k]) {
        if k < |front| {
          assert front[k] == decls[k];
          var w :| w in before && w.volume == vol;
          assert w in all;
        } else {
          var i :| 0 <= i < |VolumeInstances(service, svc, last)| && VolumeInstances(service, svc, last)[i] == vol;
          assert more[i] in all && more[i].volume == vol;
        }
      }
      if w :| w in all && w.volume == vol {
        if w in before {
          var k :| 0 <= k < |front| && front[k].backup != [] && vol in VolumeInstances(service, svc, front[k]);
          assert decls[k] == front[k];
        } else {
          assert last.backup != [] && w in more;
        }
      }
    }
  }

  /** Whether a snapshot resolves a volume. */
  ghost predicate IsWanted(services: map<string, ServiceDecl>, vol: string) {
    exists w :: w in AllWanted(services) && w.volume == vol
  }

  /** Whether a service asks for a volume to be saved. */
  ghost predicate AsksFor(name: string, svc: ServiceDecl, vol: string) {
    if |svc.volumes| > 0 then
      exists k :: (
        && 0 <= k < |svc.volumes| && svc.volumes[k].backup != []
        && vol in VolumeInstances(name, svc, svc.volumes[k]))
    else vol in DataVolumeInstances(name, svc)
  }

  lemma InWantedOf(name: string, svc: ServiceDecl, vol: string)
    ensures (exists w :: w in WantedOf(name, svc) && w.volume == vol) <==> AsksFor(name, svc, vol)
  {
    hide VolumeInstances, DataVolumeInstances, WantedOfDecls;
    if |svc.volumes| > 0 {
      InWantedOfDecls(name, svc, svc.volumes, vol);
    } else {
      var data, wanted := DataVolumeInstances(name, svc), WantedFor(name, DataVolumeInstances(name, svc), ["."]);
      if vol in data {
        var i :| 0 <= i < |data| && data[i] == vol;
        assert wanted[i] in wanted && wanted[i].volume == vol;
      }
    }
  }

  lemma {:induction false} InWantedBy(services: map<string, ServiceDecl>, names: seq<string>, upTo: nat, vol: string)
    requires Known(names, services) && upTo <= |names|
    ensures (exists w :: w in WantedBy(services, names, upTo) && w.volume == vol) <==>
      exists k :: 0 <= k < upTo && AsksFor(names[k], services[names[k]], vol)
  {
    hide WantedOf, AsksFor;
    if upTo > 0 {
      InWantedBy(services, names, upTo - 1, vol);
      WantedByStep(services, names, upTo - 1);
      InWantedOf(names[upTo - 1], services[names[upTo - 1]], vol);
    }
  }

  /** A snapshot resolves exactly the volumes that some service asks to be saved. */
  lemma WantedIsAskedFor(services: map<string, ServiceDecl>, vol: string)
    ensures IsWanted(services, vol) <==> exists name :: name in services && AsksFor(name, services[name], vol)
  {
    var names := SortedSet(services.Keys);
    AllKnown(services);
    hide AsksFor, SortedSet, WantedBy;
    InWantedBy(services, names, |names|, vol);
    if name :| name in services && AsksFor(name, services[name], vol) {
      var k := IndexIn(services.Keys, name);
    }
  }

  lemma AskedIsCreated(name: string, svc: ServiceDecl, vol: string)
    requires AsksFor(name, svc, vol)
    ensures vol in ExpandedVolumeNames(name, svc)
  {
    hide VolumeInstances, DataVolumeInstances;
    if |svc.volumes| > 0 {
      InVolumesOfDecls(name, svc, svc.volumes, vol);
    }
  }

  /** Every volume a snapshot resolves is one the compiler declares. */
  lemma WantedIsCompiled(config: Config, vol: string)
    requires IsWanted(config.services, vol)
    ensures vol in Compile(config).volumes
  {
    hide *;
    WantedIsAskedFor(config.services, vol);
    var name :| name in config.services && AsksFor(name, config.services[name], vol);
    AskedIsCreated(name, config.services[name], vol);
    CompiledVolumes(config, vol);
  }

  lemma {:induction false} DeclPosition(name: string, svc: ServiceDecl, decls: seq<VolumeDecl>, k: nat, i: nat)
    returns (at: nat)
    requires k < |decls| && i < |VolumeInstances(name, svc, decls[k])|
    ensures at == |VolumesOfDecls(name, svc, decls[..k])| + i
    ensures |VolumesOfDecls(name, svc, decls[..k])| <= at < |VolumesOfDecls(name, svc, decls[..k + 1])|
    ensures |VolumesOfDecls(name, svc, decls[..k + 1])| <= |VolumesOfDecls(name, svc, decls)|
    ensures VolumesOfDecls(name, svc, decls)[at] == VolumeInstances(name, svc, decls[k])[i]
    decreases |decls|
  {
    hide VolumeInstances;
    var front := decls[..|decls| - 1];
    if k == |front| {
      at := |VolumesOfDecls(name, svc, front)| + i;
      assert decls[..k] == front && decls[..k + 1] == decls;
    } else {
      assert front[..k] == decls[..k] && front[..k + 1] == decls[..k + 1];
      at := DeclPosition(name, svc, front, k, i);
    }
  }

  lemma {:induction false} FewerDecls(name: string, svc: ServiceDecl, decls: seq<VolumeDecl>, k: nat, l: nat)
    requires k <= l <= |decls|
    ensures |VolumesOfDecls(name, svc, decls[..k])| <= |VolumesOfDecls(name, svc, decls[..l])|
  {
    hide VolumeInstances;
    if k < l {
      FewerDecls(name, svc, decls, k, l - 1);
      assert decls[..l][..l - 1] == decls[..l - 1];
    }
  }

  /** With no volume name claimed twice, two declarations of a service have no volume in common. */
  lemma OneDeclaration(services: map<string, ServiceDecl>, name: string, k: nat, l: nat, vol: string)
    requires NoCollision(Volumes, services) && name in services
    requires k < |services[name].volumes| && l < |services[name].volumes|
    requires vol in VolumeInstances(name, services[name], services[name].volumes[k])
    requires vol in VolumeInstances(name, services[name], services[name].volumes[l])
    ensures k == l
  {
    hide *;
    var svc := services[name];
    var decls := svc.volumes;
    var i := IndexOfElement(VolumeInstances(name, svc, decls[k]), vol);
    var j := IndexOfElement(VolumeInstances(name, svc, decls[l]), vol);
    DeclaredClaims(name, svc);
    var x := DeclPosition(name, svc, decls, k, i);
    var y := DeclPosition(name, svc, decls, l, j);
    WholeDecls(decls);
    ClaimedOnce(Volumes, services, name, x, name, y);
    if k < l {
      FewerDecls(name, svc, decls, k + 1, l);
    } else if l < k {
      FewerDecls(name, svc, decls, l + 1, k);
    }
  }

  lemma WholeDecls(decls: seq<VolumeDecl>)
    ensures decls[..|decls|] == decls
  {
  }

  lemma IndexOfElement(s: seq<string>, x: string) returns (i: nat)
    requires x in s
    ensures i < |s| && s[i] == x
  {
    i :| 0 <= i < |s| && s[i] == x;
  }

  lemma DeclaredClaims(name: string, svc: ServiceDecl)
    requires |svc.volumes| > 0
    ensures Claims(Volumes, name, svc) == VolumesOfDecls(name, svc, svc.volumes)
  {
    hide VolumesOfDecls;
  }

  lemma OneService(services: map<string, ServiceDecl>, a: string, b: string, vol: string)
    requires NoCollision(Volumes, services) && a in services && b in services
    requires vol in ExpandedVolumeNames(a, services[a]) && vol in ExpandedVolumeNames(b, services[b])
    ensures a == b
  {
    hide NoCollision, ExpandedVolumeNames;
    VolumeClaims(a, services[a]);
    VolumeClaims(b, services[b]);
    var i :| 0 <= i < |ExpandedVolumeNames(a, services[a])| && ExpandedVolumeNames(a, services[a])[i] == vol;
    var j :| 0 <= j < |ExpandedVolumeNames(b, services[b])| && ExpandedVolumeNames(b, services[b])[j] == vol;
    ClaimedOnce(Volumes, services, a, i, b, j);
  }

  /** Replica by replica: the volume an instance mounts for a declaration is in the snapshot exactly
      when that declaration asks for a backup. */
  lemma MountIsBackedUp(config: Config, name: string, i: nat, k: nat)
    requires NoCollision(Volumes, config.services) && name in config.services
    requires i < config.services[name].ReplicaCount() && k < |config.services[name].volumes|
    ensures var svc := config.services[name];
      IsWanted(config.services, DeclaredMount(name, svc, svc.volumes[k], i).volumeName) <==> svc.volumes[k].backup != []
  {
    var services, svc := config.services, config.services[name];
    var vol := DeclaredMount(name, svc, svc.volumes[k], i).volumeName;
    MountIsInstance(name, svc, svc.volumes[k], i);
    hide IsWanted, NoCollision, VolumeInstances, DeclaredMount, ExpandedVolumeNames;
    WantedIsAskedFor(services, vol);
    if other :| other in services && AsksFor(other, services[other], vol) {
      AskedIsCreated(other, services[other], vol);
      CreatedBy(name, svc, k, vol);
      OneService(services, other, name, vol);
      var l :| 0 <= l < |svc.volumes| && svc.volumes[l].backup != []
        && vol in VolumeInstances(name, svc, svc.volumes[l]);
      OneDeclaration(services, name, k, l, vol);
    }
  }

  lemma CreatedBy(name: string, svc: ServiceDecl, k: nat, vol: string)
    requires k < |svc.volumes| && vol in VolumeInstances(name, svc, svc.volumes[k])
    ensures vol in ExpandedVolumeNames(name, svc)
  {
    hide VolumeInstances;
    InVolumesOfDecls(name, svc, svc.volumes, vol);
  }

  /** And the volume of the data_path shorthand always is. */
  lemma DataIsBackedUp(config: Config, name: string, i: nat)
    requires name in config.services && config.services[name].volumes == []
    requires i < config.services[name].ReplicaCount()
    ensures var svc := config.services[name];
      IsWanted(config.services, NamedMounts(name, svc, i)[0].volumeName)
  {
    var svc := config.services[name];
    var vol := NamedMounts(name, svc, i)[0].volumeName;
    assert vol in DataVolumeInstances(name, svc) by {
      hide DataVolumeName;
      if svc.DataPathIsPerReplica() {
        assert DataVolumeInstances(name, svc)[i] == vol;
      } else {
        assert DataVolumeInstances(name, svc)[0] == vol;
      }
    }
    hide IsWanted, DataVolumeInstances, NamedMounts;
    WantedIsAskedFor(config.services, vol);
    assert AsksFor(name, svc, vol);
  }
}
