/** The persisted backup posture (internal/backup/backup.go, internal/backup/verify.go): which
    operations write which of its fields, and what the fields can be trusted to mean after any
    sequence of snapshots, prunes and restore drills. Loads and saves of the file succeed. */
module BackupStatus {
  import opened Text

  /** Seconds since the epoch; 0 is Go's zero time. */
  type Time = nat

  datatype Status = Status(
    lastBackup: Time, lastVerified: Time, restorable: bool, latestSnapshot: string,
    lastError: string, lastPrune: Time, firstBackup: Time)

  const ZERO := Status(0, 0, false, "", "", 0, 0)

  // ------------------------------------------------------------------ the integrity checks

  /** One backed-up path: found in the restore, and known not to exist on the Base itself. */
  datatype PathProbe = PathProbe(path: string, restored: bool, absentHere: bool)

  /** A pgBackRest repository found in the restore. */
  datatype PostgresProbe = PostgresProbe(configured: bool, recovers: bool)

  datatype Drill = Drill(repoOK: bool, paths: seq<PathProbe>, postgres: Option<PostgresProbe>)

  datatype Check = Check(name: string, passed: bool)

  /** What a drill has to establish for the Base to be restorable. */
  ghost predicate Proves(d: Drill) {
    && d.repoOK
    && (forall i | 0 <= i < |d.paths| :: d.paths[i].restored || d.paths[i].absentHere)
    && (d.postgres.Some? && d.postgres.value.configured ==> d.postgres.value.recovers)
  }

  /** The check of one path: it came back, or there is nothing to come back. */
  function PathCheck(p: PathProbe): Check {
    Check("file-presence:" + p.path, p.restored || p.absentHere)
  }

  /** The checks in order: the repository, every path, and the database if the restore holds one. */
  ghost predicate ChecksAre(d: Drill, checks: seq<Check>) {
    var n := |d.paths|;
    && |checks| == 1 + n + (if d.postgres.Some? then 1 else 0)
    && checks[0] == Check("restic-check", d.repoOK)
    && (forall i | 0 < i <= n :: checks[i] == PathCheck(d.paths[i - 1]))
    && (d.postgres.Some? ==>
          checks[n + 1] == Check("postgres-recovery", d.postgres.value.configured ==> d.postgres.value.recovers))
  }

  method RunIntegrityChecks(d: Drill) returns (checks: seq<Check>)
    ensures ChecksAre(d, checks)
    ensures (forall i | 0 <= i < |checks| :: checks[i].passed) <==> Proves(d)
  {
    checks := [Check("restic-check", d.repoOK)];
    for k := 0 to |d.paths|
      invariant |checks| == 1 + k && checks[0] == Check("restic-check", d.repoOK)
      invariant forall i | 0 < i <= k :: checks[i] == PathCheck(d.paths[i - 1])
    {
      checks := checks + [PathCheck(d.paths[k])];
    }
    if d.postgres.Some? {
      var passed := true;
      if d.postgres.value.configured {
        passed := d.postgres.value.recovers;
      }
      checks := checks + [Check("postgres-recovery", passed)];
    }
    AllProved(d, checks);
  }

  lemma AllProved(d: Drill, checks: seq<Check>)
    requires ChecksAre(d, checks)
    ensures (forall i | 0 <= i < |checks| :: checks[i].passed) <==> Proves(d)
  {
    if Proves(d) {
      forall i | 0 <= i < |checks| ensures checks[i].passed {
        if 0 < i <= |d.paths| {
          assert checks[i] == PathCheck(d.paths[i - 1]);
        }
      }
    }
    if forall i | 0 <= i < |checks| :: checks[i].passed {
      assert checks[0].passed;
      forall k | 0 <= k < |d.paths| ensures d.paths[k].restored || d.paths[k].absentHere {
        assert checks[k + 1].passed && checks[k + 1] == PathCheck(d.paths[k + 1 - 1]);
      }
      assert d.postgres.Some? ==> checks[|d.paths| + 1].passed;
    }
  }

  // ------------------------------------------------------------------- the newest snapshot

  datatype Snapshot = Snapshot(id: string, time: Time)

  /** latestSnapshotID on the parsed list: the drill restores the first of the newest snapshots,
      whatever host and path group it belongs to, and cannot run without one. */
  method LatestSnapshotID(snapshots: seq<Snapshot>) returns (id: Option<string>)
    ensures id.None? <==> snapshots == []
    ensures id.Some? ==> exists k :: 0 <= k < |snapshots| && id.value == snapshots[k].id && IsNewest(snapshots, k)
  {
    if |snapshots| == 0 {
      return None;
    }
    var newest := snapshots[0];
    ghost var k := 0;
    for i := 1 to |snapshots|
      invariant 0 <= k < i && newest == snapshots[k] && IsNewest(snapshots[..i], k)
    {
      if snapshots[i].time > newest.time {
        newest := snapshots[i];
        k := i;
      }
    }
    assert snapshots[..|snapshots|] == snapshots;
    return Some(newest.id);
  }

  /** Nothing is newer than snapshot `k`, and everything before it is older. */
  ghost predicate IsNewest(snapshots: seq<Snapshot>, k: int)
    requires 0 <= k < |snapshots|
  {
    forall j | 0 <= j < |snapshots| ::
      if j < k then snapshots[j].time < snapshots[k].time else snapshots[j].time <= snapshots[k].time
  }

  // --------------------------------------------------------------------- calls and effects

  /** One operation and how its external steps went. */
  datatype Call =
    | Run(repoReady: bool, snapshot: Option<string>, skipPrune: bool, prunes: bool, now: Time)
    | Prune(prunes: bool, error: string, now: Time)
    | Verify(restored: bool, drill: Drill, now: Time)

  predicate Snapshotted(c: Call) {
    c.Run? && c.repoReady && c.snapshot.Some?
  }

  predicate SnapshotFailed(c: Call) {
    c.Run? && c.repoReady && c.snapshot.None?
  }

  /** A drill that got as far as its checks. */
  predicate DrillCompleted(c: Call) {
    c.Verify? && c.restored
  }

  ghost predicate DrillPassed(c: Call) {
    DrillCompleted(c) && Proves(c.drill)
  }

  predicate Pruned(c: Call) {
    (c.Prune? && c.prunes) || (Snapshotted(c) && !c.skipPrune && c.prunes)
  }

  const SNAPSHOT_ERROR := "restic backup"
  const DRILL_ERROR := "verified restore failed"

  ghost function After(s: Status, c: Call): Status {
    if SnapshotFailed(c) then ZERO.(lastError := SNAPSHOT_ERROR)
    else if Snapshotted(c) then
      Status(c.now, s.lastVerified, s.restorable, c.snapshot.value, "",
        if Pruned(c) then c.now else s.lastPrune, if s.firstBackup == 0 then c.now else s.firstBackup)
    else if c.Prune? then
      if c.prunes then s.(lastPrune := c.now, lastError := "") else s.(lastError := c.error)
    else if DrillCompleted(c) then
      s.(restorable := Proves(c.drill), lastVerified := c.now, lastError := if Proves(c.drill) then "" else DRILL_ERROR)
    else s
  }

  ghost function AfterAll(calls: seq<Call>): Status {
    if calls == [] then ZERO else After(AfterAll(calls[..|calls| - 1]), calls[|calls| - 1])
  }

  class StatusFile {
    var status: Status

    constructor ()
      ensures status == ZERO
    {
      status := ZERO;
    }

    /** One backup cycle. A failed snapshot saves a fresh record that carries only the error; a
        successful one carries the verdict and the prune and first-backup times over. */
    method RunBackup(repoReady: bool, snapshot: Option<string>, skipPrune: bool, prunes: bool, now: Time)
      returns (ok: bool)
      modifies this
      ensures status == After(old(status), Run(repoReady, snapshot, skipPrune, prunes, now))
      ensures ok == Snapshotted(Run(repoReady, snapshot, skipPrune, prunes, now))
    {
      if !repoReady {
        return false;
      }
      if snapshot.None? {
        status := ZERO.(lastError := SNAPSHOT_ERROR);
        return false;
      }
      var pruned := false;
      if !skipPrune {
        if prunes {
          pruned := true;
        }
      }
      var s := ZERO.(lastBackup := now, latestSnapshot := snapshot.value, firstBackup := now);
      var prev := status;
      s := s.(restorable := prev.restorable, lastVerified := prev.lastVerified, lastPrune := prev.lastPrune);
      if prev.firstBackup != 0 {
        s := s.(firstBackup := prev.firstBackup);
      }
      if pruned {
        s := s.(lastPrune := now);
      }
      status := s;
      return true;
    }

    method PruneNow(prunes: bool, error: string, now: Time) returns (ok: bool)
      modifies this
      ensures status == After(old(status), Prune(prunes, error, now)) && ok == prunes
    {
      var s := status;
      if !prunes {
        status := s.(lastError := error);
        return false;
      }
      s := s.(lastPrune := now);
      s := s.(lastError := "");
      status := s;
      return true;
    }

    /** The drill: restore the newest snapshot, run every check, record the verdict. A drill that
        could not run leaves the file alone. */
    method VerifyRestore(restored: bool, drill: Drill, now: Time) returns (passed: Option<bool>)
      modifies this
      ensures status == After(old(status), Verify(restored, drill, now))
      ensures passed == if restored then Some(Proves(drill)) else None
    {
      if !restored {
        return None;
      }
      var checks := RunIntegrityChecks(drill);
      var allPassed := true;
      for i := 0 to |checks|
        invariant allPassed <==> forall j | 0 <= j < i :: checks[j].passed
        invariant status == old(status)
      {
        if !checks[i].passed {
          allPassed := false;
        }
      }
      var s := status;
      s := s.(restorable := allPassed, lastVerified := now);
      s := s.(lastError := if allPassed then "" else DRILL_ERROR);
      status := s;
      return Some(allPassed);
    }
  }

  // ----------------------------------------------------------------- what the fields mean

  /** Some drill passed every check, and since then no drill finished and no snapshot failed. */
  ghost predicate Earned(calls: seq<Call>) {
    exists j :: 0 <= j < |calls| && DrillPassed(calls[j]) && Undisturbed(calls, j)
  }

  ghost predicate Undisturbed(calls: seq<Call>, j: int) {
    forall k | j < k < |calls| && k >= 0 :: !DrillCompleted(calls[k]) && !SnapshotFailed(calls[k])
  }

  /** Restorable is earned, and only lost to a failed drill or a failed snapshot. */
  lemma {:induction false} RestorableIsEarned(calls: seq<Call>)
    ensures AfterAll(calls).restorable <==> Earned(calls)
    decreases |calls|
  {
    if calls != [] {
      var n := |calls| - 1;
      var before := calls[..n];
      RestorableIsEarned(before);
      if DrillPassed(calls[n]) {
        assert Undisturbed(calls, n);
      } else if DrillCompleted(calls[n]) || SnapshotFailed(calls[n]) {
        assert forall j | 0 <= j < n :: !Undisturbed(calls, j);
      } else {
        forall j | 0 <= j < n ensures Undisturbed(before, j) <==> Undisturbed(calls, j) {
          assert forall k | j < k < n :: calls[k] == before[k];
        }
        if Earned(before) {
          var j :| 0 <= j < n && DrillPassed(before[j]) && Undisturbed(before, j);
          assert DrillPassed(calls[j]) && Undisturbed(calls, j);
        }
        if Earned(calls) {
          var j :| 0 <= j < |calls| && DrillPassed(calls[j]) && Undisturbed(calls, j);
          assert DrillPassed(before[j]) && Undisturbed(before, j);
        }
      }
    }
  }

  /** The index after the last failed snapshot, where the record starts afresh. */
  function Epoch(calls: seq<Call>): (e: nat)
    ensures e <= |calls| && (e > 0 ==> SnapshotFailed(calls[e - 1]))
    ensures forall k | e <= k < |calls| :: !SnapshotFailed(calls[k])
  {
    if calls == [] then 0
    else if SnapshotFailed(calls[|calls| - 1]) then |calls|
    else Epoch(calls[..|calls| - 1])
  }

  /** What a time in the record is the time of. */
  datatype Kind = Backups | Drills | Prunes

  predicate Is(c: Call, kind: Kind) {
    match kind
    case Backups => c.Run? && c.repoReady && c.snapshot.Some?
    case Drills => c.Verify? && c.restored
    case Prunes => (c.Prune? && c.prunes) || (c.Run? && c.repoReady && c.snapshot.Some? && !c.skipPrune && c.prunes)
  }

  /** Call `j` is the last of its kind since the last snapshot that failed. */
  ghost predicate IsLast(calls: seq<Call>, kind: Kind, j: nat) {
    Epoch(calls) <= j < |calls| && Is(calls[j], kind) && forall k | j < k < |calls| :: !Is(calls[k], kind)
  }

  ghost predicate NoneOf(calls: seq<Call>, kind: Kind) {
    forall k | Epoch(calls) <= k < |calls| :: !Is(calls[k], kind)
  }

  function TimeOf(s: Status, kind: Kind): Time {
    match kind
    case Backups => s.lastBackup
    case Drills => s.lastVerified
    case Prunes => s.lastPrune
  }

  /** The record has its time for `kind` from call `j`, and with a backup also the snapshot. */
  ghost predicate IsFrom(calls: seq<Call>, s: Status, kind: Kind, j: nat) {
    && IsLast(calls, kind, j) && TimeOf(s, kind) == calls[j].now
    && (kind.Backups? ==> Some(s.latestSnapshot) == calls[j].snapshot)
  }

  ghost predicate Says(calls: seq<Call>, s: Status, kind: Kind) {
    if NoneOf(calls, kind) then TimeOf(s, kind) == 0 && (kind.Backups? ==> s.latestSnapshot == "")
    else exists j: nat :: IsFrom(calls, s, kind, j)
  }

  /** What one call does to the time of a kind. */
  lemma TimeAfter(s: Status, c: Call, kind: Kind)
    ensures SnapshotFailed(c) ==> TimeOf(After(s, c), kind) == 0 && After(s, c).latestSnapshot == "" && !Is(c, kind)
    ensures Is(c, kind) ==> TimeOf(After(s, c), kind) == c.now
    ensures Is(c, kind) && kind.Backups? ==> Some(After(s, c).latestSnapshot) == c.snapshot
    ensures !Is(c, kind) && !SnapshotFailed(c) ==> TimeOf(After(s, c), kind) == TimeOf(s, kind)
    ensures !Is(c, Backups) && !SnapshotFailed(c) ==> After(s, c).latestSnapshot == s.latestSnapshot
  {
    hide Proves;
  }

  lemma AfterOne(calls: seq<Call>)
    requires calls != []
    ensures AfterAll(calls) == After(AfterAll(calls[..|calls| - 1]), calls[|calls| - 1])
  {
    hide After;
  }

  /** And what it does to which call is the last of a kind. */
  lemma LastStep(calls: seq<Call>, kind: Kind)
    requires calls != []
    ensures var n := |calls| - 1;
      && (SnapshotFailed(calls[n]) ==> NoneOf(calls, kind))
      && (Is(calls[n], kind) && !SnapshotFailed(calls[n]) ==> IsLast(calls, kind, n) && !NoneOf(calls, kind))
      && (!Is(calls[n], kind) && !SnapshotFailed(calls[n]) ==> (NoneOf(calls[..n], kind) <==> NoneOf(calls, kind)))
  {
    var n := |calls| - 1;
    hide Is, SnapshotFailed;
    assert forall k | 0 <= k < n :: calls[..n][k] == calls[k];
  }

  lemma LastKept(calls: seq<Call>, kind: Kind, j: nat)
    requires calls != [] && IsLast(calls[..|calls| - 1], kind, j)
    requires !Is(calls[|calls| - 1], kind) && !SnapshotFailed(calls[|calls| - 1])
    ensures IsLast(calls, kind, j) && calls[j] == calls[..|calls| - 1][j]
  {
    hide Is, SnapshotFailed;
  }

  lemma SaysStep(calls: seq<Call>, kind: Kind)
    requires calls != [] && Says(calls[..|calls| - 1], AfterAll(calls[..|calls| - 1]), kind)
    ensures Says(calls, AfterAll(calls), kind)
  {
    var n := |calls| - 1;
    var before, c := calls[..n], calls[n];
    var s, t := AfterAll(before), AfterAll(calls);
    AfterOne(calls);
    TimeAfter(s, c, kind);
    LastStep(calls, kind);
    hide AfterAll, After, IsLast, NoneOf, Is, SnapshotFailed, TimeOf;
    if Is(c, kind) {
      assert IsFrom(calls, t, kind, n);
    } else if !SnapshotFailed(c) && !NoneOf(before, kind) {
      var j: nat :| IsFrom(before, s, kind, j);
      LastKept(calls, kind, j);
      assert IsFrom(calls, t, kind, j);
    }
  }

  /** Which calls write the file at all. */
  predicate Writes(c: Call) {
    (c.Run? && c.repoReady) || c.Prune? || (c.Verify? && c.restored)
  }

  /** The error a call that writes the file leaves in it. */
  ghost function ErrorOf(c: Call): string {
    match c
    case Run(_, snapshot, _, _, _) => if snapshot.None? then SNAPSHOT_ERROR else ""
    case Prune(prunes, error, _) => if prunes then "" else error
    case Verify(_, drill, _) => if Proves(drill) then "" else DRILL_ERROR
  }

  /** Call `j` is the last that wrote the file. */
  ghost predicate LastWrite(calls: seq<Call>, j: nat) {
    j < |calls| && Writes(calls[j]) && forall k | j < k < |calls| :: !Writes(calls[k])
  }

  ghost predicate NoWrite(calls: seq<Call>) {
    forall k | 0 <= k < |calls| :: !Writes(calls[k])
  }

  ghost predicate ErrorSays(calls: seq<Call>, s: Status) {
    if NoWrite(calls) then s.lastError == ""
    else exists j: nat :: LastWrite(calls, j) && s.lastError == ErrorOf(calls[j])
  }

  lemma ErrorAfter(s: Status, c: Call)
    ensures After(s, c).lastError == if Writes(c) then ErrorOf(c) else s.lastError
  {
    hide Proves;
  }

  lemma WriteStep(calls: seq<Call>)
    requires calls != []
    ensures var n := |calls| - 1;
      && (Writes(calls[n]) ==> LastWrite(calls, n) && !NoWrite(calls))
      && (!Writes(calls[n]) ==> (NoWrite(calls) <==> NoWrite(calls[..n])))
      && (!Writes(calls[n]) ==>
            forall j: nat | LastWrite(calls[..n], j) :: LastWrite(calls, j) && calls[j] == calls[..n][j])
  {
    var n := |calls| - 1;
    hide Writes;
    assert forall k | 0 <= k < n :: calls[..n][k] == calls[k];
  }

  lemma ErrorStep(calls: seq<Call>)
    requires calls != [] && ErrorSays(calls[..|calls| - 1], AfterAll(calls[..|calls| - 1]))
    ensures ErrorSays(calls, AfterAll(calls))
  {
    var n := |calls| - 1;
    AfterOne(calls);
    ErrorAfter(AfterAll(calls[..n]), calls[n]);
    WriteStep(calls);
    hide AfterAll, After, Writes, ErrorOf, LastWrite, NoWrite;
  }

  lemma {:induction false} RecordSays(calls: seq<Call>)
    ensures Says(calls, AfterAll(calls), Backups) && Says(calls, AfterAll(calls), Drills)
    ensures Says(calls, AfterAll(calls), Prunes) && ErrorSays(calls, AfterAll(calls))
    decreases |calls|
  {
    if calls != [] {
      hide *;
      RecordSays(calls[..|calls| - 1]);
      SaysStep(calls, Backups);
      SaysStep(calls, Drills);
      SaysStep(calls, Prunes);
      ErrorStep(calls);
    }
  }

  /** Over any run: the times and the snapshot on record are those of the last snapshot that succeeded, of
      the last drill that got as far as its checks and of the last prune that went through, all since the
      last snapshot that failed, and unset if there was none; and the error is that of the last call that
      wrote the file. */
  lemma RecordMeans(calls: seq<Call>)
    ensures var s := AfterAll(calls);
      && (if NoneOf(calls, Backups) then s.lastBackup == 0 && s.latestSnapshot == ""
          else exists j: nat :: (
            IsLast(calls, Backups, j) && s.lastBackup == calls[j].now && Some(s.latestSnapshot) == calls[j].snapshot))
      && (if NoneOf(calls, Drills) then s.lastVerified == 0
          else exists j: nat :: IsLast(calls, Drills, j) && s.lastVerified == calls[j].now)
      && (if NoneOf(calls, Prunes) then s.lastPrune == 0
          else exists j: nat :: IsLast(calls, Prunes, j) && s.lastPrune == calls[j].now)
      && (if NoWrite(calls) then s.lastError == ""
          else exists j: nat :: LastWrite(calls, j) && s.lastError == ErrorOf(calls[j]))
  {
    RecordSays(calls);
    hide AfterAll, IsLast, NoneOf, LastWrite, NoWrite, ErrorOf;
    forall kind: Kind | Says(calls, AfterAll(calls), kind) && !NoneOf(calls, kind)
      ensures exists j: nat :: IsFrom(calls, AfterAll(calls), kind, j) {}
  }

  ghost predicate NoSuccess(calls: seq<Call>, from: nat, to: nat) {
    forall k | from <= k < to && k < |calls| :: !Snapshotted(calls[k])
  }

  /** Call `j` is the first snapshot that succeeded since the last one that failed. */
  ghost predicate FirstSince(calls: seq<Call>, j: nat) {
    Epoch(calls) <= j < |calls| && Snapshotted(calls[j]) && NoSuccess(calls, Epoch(calls), j)
  }

  /** The clock is never zero and never runs backwards. */
  ghost predicate Timed(calls: seq<Call>) {
    && (forall i | 0 <= i < |calls| :: calls[i].now > 0)
    && (forall i, j | 0 <= i < j < |calls| :: calls[i].now <= calls[j].now)
  }

  /** FirstBackup is not set once and for all: it is the time of the first success since the last
      failed snapshot, and unset exactly when nothing has succeeded since. */
  lemma {:induction false} FirstBackupMeans(calls: seq<Call>)
    requires Timed(calls)
    ensures AfterAll(calls).firstBackup == 0 <==> NoSuccess(calls, Epoch(calls), |calls|)
    ensures AfterAll(calls).firstBackup != 0 ==>
      exists j: nat :: FirstSince(calls, j) && AfterAll(calls).firstBackup == calls[j].now
    decreases |calls|
  {
    if calls != [] {
      var n := |calls| - 1;
      var before, c := calls[..n], calls[n];
      assert Timed(before);
      FirstBackupMeans(before);
      if !SnapshotFailed(c) {
        if AfterAll(before).firstBackup != 0 {
          var j: nat :| FirstSince(before, j) && AfterAll(before).firstBackup == before[j].now;
          assert FirstSince(calls, j) && calls[j] == before[j];
        } else if Snapshotted(c) {
          assert NoSuccess(calls, Epoch(calls), n);
          assert FirstSince(calls, n);
        } else {
          assert NoSuccess(calls, Epoch(calls), |calls|);
        }
      }
    }
  }

  /** No recorded time lies after the last call. */
  ghost predicate Within(s: Status, now: Time) {
    s.lastBackup <= now && s.lastPrune <= now && s.lastVerified <= now && s.firstBackup <= s.lastBackup
  }

  /** From one record to the next: nothing moves back and a first backup stays. */
  ghost predicate Advances(s: Status, t: Status) {
    && s.lastPrune <= t.lastPrune && s.lastVerified <= t.lastVerified && s.lastBackup <= t.lastBackup
    && (s.firstBackup != 0 ==> t.firstBackup == s.firstBackup)
  }

  lemma {:induction false} TimesWithin(calls: seq<Call>, now: Time)
    requires Timed(calls) && forall i | 0 <= i < |calls| :: calls[i].now <= now
    ensures Within(AfterAll(calls), now)
    decreases |calls|
  {
    if calls != [] {
      var n := |calls| - 1;
      assert Timed(calls[..n]);
      TimesWithin(calls[..n], calls[n].now);
    }
  }

  /** Since the last failed snapshot no backup, prune or drill has gone through. */
  ghost predicate Idle(calls: seq<Call>) {
    forall k | Epoch(calls) <= k < |calls| ::
      !Snapshotted(calls[k]) && !Pruned(calls[k]) && !DrillCompleted(calls[k])
  }

  ghost predicate Untimed(s: Status) {
    s.lastBackup == 0 && s.lastPrune == 0 && s.lastVerified == 0 && s.firstBackup == 0
  }

  lemma {:induction false} UntimedMeans(calls: seq<Call>)
    requires Timed(calls)
    ensures Untimed(AfterAll(calls)) <==> Idle(calls)
    decreases |calls|
  {
    if calls != [] {
      var n := |calls| - 1;
      var before, c := calls[..n], calls[n];
      assert Timed(before);
      UntimedMeans(before);
      hide Proves;
      if !SnapshotFailed(c) {
        assert forall k | 0 <= k < n :: before[k] == calls[k];
        assert Idle(calls) <==> Idle(before) && !Snapshotted(c) && !Pruned(c) && !DrillCompleted(c);
      }
    }
  }

  /** Every snapshot that fails does so while there is nothing on record to lose. */
  ghost predicate NothingToLose(calls: seq<Call>) {
    forall i | 0 <= i < |calls| && SnapshotFailed(calls[i]) :: Idle(calls[..i])
  }

  /** No recorded time ever moves back, and a first backup stays. */
  ghost predicate AlwaysAdvances(calls: seq<Call>) {
    forall i, j | 0 <= i <= j <= |calls| :: Advances(AfterAll(calls[..i]), AfterAll(calls[..j]))
  }

  lemma AfterOneMore(calls: seq<Call>, i: nat)
    requires i < |calls|
    ensures AfterAll(calls[..i + 1]) == After(AfterAll(calls[..i]), calls[i])
  {
    assert calls[..i + 1][..i] == calls[..i];
  }

  /** One call moves no time back exactly if it is no failed snapshot that loses one. */
  lemma AdvancesStep(calls: seq<Call>, i: nat)
    requires Timed(calls) && i < |calls|
    ensures Advances(AfterAll(calls[..i]), AfterAll(calls[..i + 1]))
      <==> (SnapshotFailed(calls[i]) ==> Idle(calls[..i]))
  {
    AfterOneMore(calls, i);
    assert Timed(calls[..i]);
    assert forall k | 0 <= k < i :: calls[..i][k].now <= calls[i].now;
    TimesWithin(calls[..i], calls[i].now);
    UntimedMeans(calls[..i]);
    hide AfterAll, Idle, Timed, Proves;
  }

  lemma {:induction false} AdvancesFrom(calls: seq<Call>, i: nat, j: nat)
    requires Timed(calls) && NothingToLose(calls) && i <= j <= |calls|
    ensures Advances(AfterAll(calls[..i]), AfterAll(calls[..j]))
    decreases j - i
  {
    if i < j {
      AdvancesStep(calls, i);
      AdvancesFrom(calls, i + 1, j);
      hide AfterAll, Idle;
    }
  }

  /** Over a whole run, no recorded time moves back and a first backup stays, if and only if every
      snapshot that fails does so before anything else has gone through since the last one that
      failed; and the first backup is never later than the last, whatever fails. */
  lemma TimesAdvance(calls: seq<Call>)
    requires Timed(calls)
    ensures AlwaysAdvances(calls) <==> NothingToLose(calls)
    ensures AfterAll(calls).firstBackup <= AfterAll(calls).lastBackup
  {
    TimesWithin(calls, if calls == [] then 0 else calls[|calls| - 1].now);
    if NothingToLose(calls) {
      forall i, j | 0 <= i <= j <= |calls| ensures Advances(AfterAll(calls[..i]), AfterAll(calls[..j])) {
        AdvancesFrom(calls, i, j);
      }
    }
    if AlwaysAdvances(calls) {
      forall i | 0 <= i < |calls| && SnapshotFailed(calls[i]) ensures Idle(calls[..i]) {
        AdvancesStep(calls, i);
      }
    }
  }

  /** What comes before a failed snapshot leaves no trace: not in the verdict, not in any time. */
  lemma {:induction false} FailedSnapshotForgets(calls: seq<Call>, other: seq<Call>, c: Call, more: seq<Call>)
    requires SnapshotFailed(c)
    ensures AfterAll(calls + [c] + more) == AfterAll(other + [c] + more)
    decreases |more|
  {
    if more == [] {
      assert calls + [c] + more == calls + [c] && other + [c] + more == other + [c];
      assert (calls + [c])[..|calls|] == calls && (other + [c])[..|other|] == other;
    } else {
      var n := |more| - 1;
      FailedSnapshotForgets(calls, other, c, more[..n]);
      assert (calls + [c] + more)[..|calls| + 1 + n] == calls + [c] + more[..n];
      assert (other + [c] + more)[..|other| + 1 + n] == other + [c] + more[..n];
    }
  }
}
