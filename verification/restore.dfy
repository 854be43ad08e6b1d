/** Point-in-time recovery over the live database (internal/backup/pgbackrest_restore.go): what is
    stopped, replaced and started again when any external step may fail, and the wait for the
    replay to finish. */
module Restore {
  import opened Text

  /** The part of a PGBackRest that a production restore acts on. */
  datatype PGBackRest = PGBackRest(
    service: string, container: string, dataVolume: string, dependants: seq<string>, dependantUnits: seq<string>)
  {
    function Unit(): string {
      container + ".service"
    }

    /** Every unit that must stop before the database and start after it. */
    function Units(): seq<string> {
      if |dependantUnits| > 0 then dependantUnits
      else seq(|dependants|, i requires 0 <= i < |dependants| => "ownbase-" + dependants[i] + ".service")
    }
  }

  // ------------------------------------------------------------ the outside world, as a log

  datatype Event =
    | Stopped(unit: string, ok: bool)
    | Started(unit: string, ok: bool)
    | Replaced(ok: bool)
    | Observed(outOfRecovery: bool)
    | BackedUp(ok: bool)

  /** What a log amounts to: the units that are down, whether the database is, whether it was seen
      out of recovery since it was last stopped, what was last seen, and which dependants were started,
      in order. */
  datatype Posture = Posture(
    down: set<string>, databaseDown: bool, seen: bool, last: Option<bool>, startedDependants: seq<string>)

  function After(pb: PGBackRest, p: Posture, e: Event): Posture {
    match e
    case Stopped(u, ok) =>
      var q := if ok then p.(down := p.down + {u}) else p;
      if u == pb.Unit() then q.(databaseDown := true, seen := false) else q
    case Started(u, _) =>
      var q := p.(down := p.down - {u});
      if u == pb.Unit() then q.(databaseDown := false) else q.(startedDependants := p.startedDependants + [u])
    case Observed(out) => p.(seen := p.seen || out, last := Some(out))
    case Replaced(_) => p
    case BackedUp(_) => p
  }

  function PostureOf(pb: PGBackRest, log: seq<Event>): Posture {
    if log == [] then Posture({}, false, false, None, [])
    else After(pb, PostureOf(pb, log[..|log| - 1]), log[|log| - 1])
  }

  ghost predicate AllDown(pb: PGBackRest, p: Posture) {
    forall u | u in pb.Units() :: u in p.down
  }

  /** The rules: the database stops after its dependants, the data directory is replaced only with
      everything down, and a dependant starts once, in order, after the database was seen serving. */
  ghost predicate Allowed(pb: PGBackRest, p: Posture, e: Event) {
    match e
    case Stopped(u, _) => u == pb.Unit() ==> AllDown(pb, p)
    case Replaced(_) => AllDown(pb, p) && pb.Unit() in p.down
    case Started(u, _) =>
      u != pb.Unit() ==>
        p.seen && |p.startedDependants| < |pb.Units()| && u == pb.Units()[|p.startedDependants|]
    case Observed(_) => true
    case BackedUp(_) => true
  }

  ghost predicate Safe(pb: PGBackRest, log: seq<Event>) {
    forall i | 0 <= i < |log| :: Allowed(pb, PostureOf(pb, log[..i]), log[i])
  }

  /** How a run ends: the database was started again if it was taken down, and the dependants are
      back, all of them, exactly if the last look at the database found it out of recovery. */
  ghost predicate CleanedUp(pb: PGBackRest, log: seq<Event>) {
    var p := PostureOf(pb, log);
    && !p.databaseDown
    && p.last.Some?
    && p.startedDependants == if p.last.value then pb.Units() else []
  }

  // ------------------------------------------------------- what the rules mean, event by event

  lemma PostureStep(pb: PGBackRest, log: seq<Event>, i: nat)
    requires i < |log|
    ensures PostureOf(pb, log[..i + 1]) == After(pb, PostureOf(pb, log[..i]), log[i])
  {
    assert log[..i + 1][..i] == log[..i];
  }

  /** A unit that is down was stopped successfully and not started since. */
  lemma {:induction false} DownMeans(pb: PGBackRest, log: seq<Event>, i: nat, u: string)
    requires i <= |log|
    ensures u in PostureOf(pb, log[..i]).down <==>
      exists k :: 0 <= k < i && log[k] == Stopped(u, true) && NotStarted(log, k, i, u)
  {
    hide PostureOf, After, NotStarted;
    if i == 0 {
      assert log[..0] == [];
      NoneDown(pb);
    } else {
      DownMeans(pb, log, i - 1, u);
      PostureStep(pb, log, i - 1);
      DownStep(pb, PostureOf(pb, log[..i - 1]), log[i - 1], u);
      forall k: nat | k < i - 1 ensures NotStarted(log, k, i, u)
        <==> NotStarted(log, k, i - 1, u) && !(log[i - 1].Started? && log[i - 1].unit == u)
      {
        NotStartedStep(log, k, i, u);
      }
      NotStartedNow(log, i, u);
    }
  }

  lemma NoneDown(pb: PGBackRest)
    ensures PostureOf(pb, []).down == {}
  {
  }

  lemma DownStep(pb: PGBackRest, p: Posture, e: Event, u: string)
    ensures u in After(pb, p, e).down <==>
      e == Stopped(u, true) || (u in p.down && !(e.Started? && e.unit == u))
  {
  }

  lemma NotStartedStep(log: seq<Event>, k: nat, i: nat, u: string)
    requires k < i - 1 && i <= |log|
    ensures NotStarted(log, k, i, u)
      <==> NotStarted(log, k, i - 1, u) && !(log[i - 1].Started? && log[i - 1].unit == u)
  {
  }

  lemma NotStartedNow(log: seq<Event>, i: nat, u: string)
    requires 0 < i <= |log|
    ensures NotStarted(log, i - 1, i, u)
  {
  }

  ghost predicate NotStarted(log: seq<Event>, from: nat, to: nat, u: string) {
    forall j | from < j < to && j < |log| :: !(log[j].Started? && log[j].unit == u)
  }

  /** Before the data directory is touched, every unit of every dependant and the database itself
      was stopped successfully and has stayed down. */
  lemma ReplacedMeans(pb: PGBackRest, log: seq<Event>, r: nat, u: string)
    requires Safe(pb, log) && r < |log| && log[r].Replaced?
    requires u in pb.Units() || u == pb.Unit()
    ensures exists k :: 0 <= k < r && log[k] == Stopped(u, true) && NotStarted(log, k, r, u)
  {
    DownMeans(pb, log, r, u);
  }

  /** The database is not even asked to stop before every dependant has. */
  lemma StopOrder(pb: PGBackRest, log: seq<Event>, d: nat, u: string)
    requires Safe(pb, log) && d < |log| && log[d].Stopped? && log[d].unit == pb.Unit() && u in pb.Units()
    ensures exists k :: 0 <= k < d && log[k] == Stopped(u, true)
  {
    DownMeans(pb, log, d, u);
  }

  ghost predicate NoStopOf(log: seq<Event>, from: nat, to: nat, u: string) {
    forall j | from < j < to && j < |log| :: !(log[j].Stopped? && log[j].unit == u)
  }

  lemma {:induction false} SeenMeans(pb: PGBackRest, log: seq<Event>, i: nat)
    requires i <= |log| && PostureOf(pb, log[..i]).seen
    ensures exists k :: 0 <= k < i && log[k] == Observed(true) && NoStopOf(log, k, i, pb.Unit())
  {
    if i > 0 {
      PostureStep(pb, log, i - 1);
      if log[i - 1] == Observed(true) {
        assert NoStopOf(log, i - 1, i, pb.Unit());
      } else {
        SeenMeans(pb, log, i - 1);
        var k :| 0 <= k < i - 1 && log[k] == Observed(true) && NoStopOf(log, k, i - 1, pb.Unit());
        assert NoStopOf(log, k, i, pb.Unit());
      }
    }
  }

  /** No dependant is started unless the database was observed out of recovery since its last stop. */
  lemma StartMeans(pb: PGBackRest, log: seq<Event>, i: nat)
    requires Safe(pb, log) && i < |log| && log[i].Started? && log[i].unit != pb.Unit()
    ensures exists k :: 0 <= k < i && log[k] == Observed(true) && NoStopOf(log, k, i, pb.Unit())
  {
    SeenMeans(pb, log, i);
  }

  /** A database that was asked to stop is asked to start again before the run returns. */
  lemma {:induction false} StartedAgain(pb: PGBackRest, log: seq<Event>, d: nat, n: nat)
    requires d < n <= |log| && log[d].Stopped? && log[d].unit == pb.Unit()
    ensures PostureOf(pb, log[..n]).databaseDown
      || exists k :: d < k < n && log[k].Started? && log[k].unit == pb.Unit()
    decreases n
  {
    PostureStep(pb, log, n - 1);
    if d < n - 1 {
      StartedAgain(pb, log, d, n - 1);
    }
  }

  /** The starts of dependants in a log, in order. */
  function DependantStarts(pb: PGBackRest, log: seq<Event>): seq<string> {
    if log == [] then []
    else
      var e, rest := log[|log| - 1], DependantStarts(pb, log[..|log| - 1]);
      if e.Started? && e.unit != pb.Unit() then rest + [e.unit] else rest
  }

  lemma {:induction false} StartsRecorded(pb: PGBackRest, log: seq<Event>)
    ensures PostureOf(pb, log).startedDependants == DependantStarts(pb, log)
  {
    if log != [] {
      StartsRecorded(pb, log[..|log| - 1]);
    }
  }

  /** The promise of a production restore, spelled out on the log of any finished run. */
  lemma RestoreCleanup(pb: PGBackRest, log: seq<Event>)
    requires Safe(pb, log) && CleanedUp(pb, log)
    ensures DependantStarts(pb, log) == pb.Units() || DependantStarts(pb, log) == []
    ensures forall d: nat | d < |log| && log[d].Stopped? && log[d].unit == pb.Unit() ::
      exists k :: d < k < |log| && log[k].Started? && log[k].unit == pb.Unit()
    ensures forall r: nat, u | r < |log| && log[r].Replaced? && (u in pb.Units() || u == pb.Unit()) ::
      exists k :: 0 <= k < r && log[k] == Stopped(u, true) && NotStarted(log, k, r, u)
    ensures forall i: nat | i < |log| && log[i].Started? && log[i].unit != pb.Unit() ::
      exists k :: 0 <= k < i && log[k] == Observed(true) && NoStopOf(log, k, i, pb.Unit())
  {
    StartsRecorded(pb, log);
    assert log[..|log|] == log;
    forall d: nat | d < |log| && log[d].Stopped? && log[d].unit == pb.Unit()
      ensures exists k :: d < k < |log| && log[k].Started? && log[k].unit == pb.Unit() {
      StartedAgain(pb, log, d, |log|);
    }
    forall r: nat, u | r < |log| && log[r].Replaced? && (u in pb.Units() || u == pb.Unit())
      ensures exists k :: 0 <= k < r && log[k] == Stopped(u, true) && NotStarted(log, k, r, u) {
      ReplacedMeans(pb, log, r, u);
    }
    forall i: nat | i < |log| && log[i].Started? && log[i].unit != pb.Unit()
      ensures exists k :: 0 <= k < i && log[k] == Observed(true) && NoStopOf(log, k, i, pb.Unit()) {
      StartMeans(pb, log, i);
    }
  }

  // ---------------------------------------------------------------- waiting for the replay

  const SECOND: int := 1_000_000_000
  const POLL_INTERVAL: int := 2 * SECOND
  const STALL_TIMEOUT: int := 10 * 60 * SECOND

  /** What one turn of the polling loop would see: the answers of the three probes, and the clock
      when progress is noted and when the stall is checked. */
  datatype Poll = Poll(
    inRecovery: Option<string>, running: bool, replayed: Option<string>,
    notedAt: int, checkedAt: int, cancelled: bool)

  datatype Wait = Recovered | Exited | Stalled(position: string) | Cancelled

  type Feed = nat -> Poll

  /** The clock never runs backwards, and a turn sleeps for the poll interval. */
  ghost predicate Ticks(feed: Feed, start: int) {
    && start <= feed(0).notedAt
    && (forall k: nat :: feed(k).notedAt <= feed(k).checkedAt)
    && (forall k: nat :: feed(k).checkedAt + POLL_INTERVAL <= feed(k + 1).notedAt)
  }

  /** The last replay position noted, and when, after `k` turns. */
  datatype Progress = Progress(position: string, at: int)

  predicate Moves(p: Progress, poll: Poll) {
    poll.replayed.Some? && poll.replayed.value != "" && poll.replayed.value != p.position
  }

  function ProgressAfter(feed: Feed, start: int, k: nat): Progress {
    if k == 0 then Progress("", start)
    else
      var p, poll := ProgressAfter(feed, start, k - 1), feed(k - 1);
      if Moves(p, poll) then Progress(poll.replayed.value, poll.notedAt) else p
  }

  /** How often the position changed in the first `k` turns. */
  function Changes(feed: Feed, start: int, k: nat): nat {
    if k == 0 then 0
    else Changes(feed, start, k - 1) + if Moves(ProgressAfter(feed, start, k - 1), feed(k - 1)) then 1 else 0
  }

  /** Turn `k` ends the wait. */
  function Verdict(feed: Feed, start: int, k: nat): Option<Wait> {
    var poll, p := feed(k), ProgressAfter(feed, start, k + 1);
    if poll.inRecovery == Some("f") then Some(Recovered)
    else if !poll.running then Some(Exited)
    else if poll.checkedAt - p.at > STALL_TIMEOUT then
      Some(Stalled(if IsBlank(p.position) then "unknown" else p.position))
    else if poll.cancelled then Some(Cancelled)
    else None
  }

  predicate IsBlank(s: string) {
    TrimSpace(s) == ""
  }

  /** A stall is reported only after a full timeout without any change of position. */
  lemma StallMeans(feed: Feed, start: int, k: nat, j: nat)
    requires Ticks(feed, start) && j <= k
    requires Verdict(feed, start, k).Some? && Verdict(feed, start, k).value.Stalled?
    requires feed(j).notedAt >= feed(k).checkedAt - STALL_TIMEOUT
    ensures !Moves(ProgressAfter(feed, start, j), feed(j))
  {
    if Moves(ProgressAfter(feed, start, j), feed(j)) {
      NotedLast(feed, start, k + 1, j);
    }
  }

  /** The noted time is never earlier than any change. */
  lemma {:induction false} NotedLast(feed: Feed, start: int, k: nat, j: nat)
    requires Ticks(feed, start) && j < k && Moves(ProgressAfter(feed, start, j), feed(j))
    ensures ProgressAfter(feed, start, k).at >= feed(j).notedAt
    decreases k
  {
    if j < k - 1 {
      NotedLast(feed, start, k - 1, j);
      InOrder(feed, start, j, k - 1);
    }
  }

  lemma {:induction false} InOrder(feed: Feed, start: int, j: nat, k: nat)
    requires Ticks(feed, start) && j <= k
    ensures feed(j).notedAt <= feed(k).notedAt
    decreases k
  {
    if j < k {
      InOrder(feed, start, j, k - 1);
      assert feed(k - 1).checkedAt + POLL_INTERVAL <= feed(k - 1 + 1).notedAt;
    }
  }

  // ------------------------------------------------------- the same, in terms of the answers alone

  /** Turn `j` was told a replay position. */
  predicate Told(feed: Feed, j: nat) {
    feed(j).replayed.Some? && feed(j).replayed.value != ""
  }

  /** `i` is the last of the turns before `k` that was told one. */
  ghost predicate LastTold(feed: Feed, k: nat, i: nat) {
    i < k && Told(feed, i) && forall m: nat | i < m < k :: !Told(feed, m)
  }

  /** And it is another one than the turns before were told last. */
  ghost predicate Changed(feed: Feed, j: nat) {
    Told(feed, j) && forall i: nat | LastTold(feed, j, i) :: feed(i).replayed != feed(j).replayed
  }

  /** Every change of position in the first `k` turns lies more than the timeout back. */
  ghost predicate NoneSince(feed: Feed, k: nat, now: int) {
    forall j: nat | j < k && Changed(feed, j) :: now - feed(j).notedAt > STALL_TIMEOUT
  }

  /** And so does the start of the wait. */
  ghost predicate Stuck(feed: Feed, start: int, k: nat) {
    feed(k).checkedAt - start > STALL_TIMEOUT && NoneSince(feed, k + 1, feed(k).checkedAt)
  }

  /** Nothing ends the wait at turn `k`. */
  ghost predicate GoesOn(feed: Feed, start: int, k: nat) {
    feed(k).inRecovery != Some("f") && feed(k).running && !Stuck(feed, start, k) && !feed(k).cancelled
  }

  /** What the wait reports when it ends at turn `k`, first reason first. */
  ghost predicate EndsWith(feed: Feed, start: int, k: nat, r: Wait) {
    var over, running, stuck := feed(k).inRecovery == Some("f"), feed(k).running, Stuck(feed, start, k);
    && (r.Recovered? <==> over)
    && (r.Exited? <==> !over && !running)
    && (r.Stalled? <==> !over && running && stuck)
    && (r.Cancelled? <==> !over && running && !stuck && feed(k).cancelled)
    && (r.Stalled? ==>
          (if exists i: nat :: LastTold(feed, k + 1, i) && !IsBlank(feed(i).replayed.value)
           then exists i: nat :: LastTold(feed, k + 1, i) && r.position == feed(i).replayed.value
           else r.position == "unknown"))
  }

  lemma OneLastTold(feed: Feed, k: nat, i: nat, j: nat)
    requires LastTold(feed, k, i) && LastTold(feed, k, j)
    ensures i == j
  {
  }

  lemma {:induction false} ProgressTold(feed: Feed, start: int, k: nat)
    ensures var p := ProgressAfter(feed, start, k);
      if exists i: nat :: LastTold(feed, k, i)
      then exists i: nat :: LastTold(feed, k, i) && p.position == feed(i).replayed.value
      else p.position == ""
  {
    if k > 0 {
      ProgressTold(feed, start, k - 1);
      if Told(feed, k - 1) {
        assert LastTold(feed, k, k - 1);
      } else {
        var n := k - 1;
        if i: nat :| LastTold(feed, n, i) && ProgressAfter(feed, start, n).position == feed(i).replayed.value {
          assert LastTold(feed, k, i);
        }
        if i: nat :| LastTold(feed, k, i) {
          assert LastTold(feed, n, i);
        }
      }
    }
  }

  lemma MovesMeans(feed: Feed, start: int, k: nat)
    ensures Moves(ProgressAfter(feed, start, k), feed(k)) <==> Changed(feed, k)
  {
    ProgressTold(feed, start, k);
    hide ProgressAfter;
    if i: nat :| LastTold(feed, k, i) {
      forall j: nat | LastTold(feed, k, j) ensures j == i {
        OneLastTold(feed, k, i, j);
      }
    }
  }

  lemma NoneSinceStep(feed: Feed, start: int, k: nat, now: int)
    requires Ticks(feed, start) && feed(k).notedAt <= now
    ensures !Changed(feed, k) ==> (NoneSince(feed, k + 1, now) <==> NoneSince(feed, k, now))
    ensures Changed(feed, k) ==>
      (NoneSince(feed, k + 1, now) && now - start > STALL_TIMEOUT <==> now - feed(k).notedAt > STALL_TIMEOUT)
    ensures k > 0 ==> feed(k - 1).notedAt <= now
  {
    InOrder(feed, start, 0, k);
    assert start <= feed(0).notedAt;
    forall j: nat | j <= k ensures feed(j).notedAt <= feed(k).notedAt {
      InOrder(feed, start, j, k);
    }
    hide Changed, Ticks;
  }

  lemma ProgressStep(feed: Feed, start: int, k: nat)
    ensures ProgressAfter(feed, start, k + 1).at
      == if Changed(feed, k) then feed(k).notedAt else ProgressAfter(feed, start, k).at
  {
    MovesMeans(feed, start, k);
  }

  lemma {:induction false} ProgressSince(feed: Feed, start: int, k: nat, now: int)
    requires Ticks(feed, start) && (k > 0 ==> feed(k - 1).notedAt <= now)
    ensures now - ProgressAfter(feed, start, k).at > STALL_TIMEOUT <==>
      now - start > STALL_TIMEOUT && NoneSince(feed, k, now)
  {
    if k > 0 {
      hide *;
      ProgressStep(feed, start, k - 1);
      NoneSinceStep(feed, start, k - 1, now);
      ProgressSince(feed, start, k - 1, now);
    }
  }

  /** The verdict of a turn, in terms of the answers alone. */
  lemma VerdictMeans(feed: Feed, start: int, k: nat)
    requires Ticks(feed, start)
    ensures Verdict(feed, start, k).None? <==> GoesOn(feed, start, k)
    ensures Verdict(feed, start, k).Some? ==> EndsWith(feed, start, k, Verdict(feed, start, k).value)
  {
    ProgressSince(feed, start, k + 1, feed(k).checkedAt);
    ProgressTold(feed, start, k + 1);
    hide ProgressAfter, NoneSince, Ticks;
    var n := k + 1;
    if i: nat :| LastTold(feed, n, i) {
      forall j: nat | LastTold(feed, n, j) ensures i == j {
        OneLastTold(feed, n, i, j);
      }
    }
    hide LastTold;
    assert IsBlank("");
  }

  // ------------------------------------------------------------------ the Base and its units

  /** The Base a restore runs on. Every answer of the outside world is arbitrary; the log keeps
      what was asked for. */
  class Host {
    const pb: PGBackRest
    var log: seq<Event>

    constructor (pb: PGBackRest)
      ensures this.pb == pb && log == []
    {
      this.pb := pb;
      log := [];
    }

    ghost function Now(): Posture
      reads this
    {
      PostureOf(pb, log)
    }

    /** Files an event that the rules allow. */
    method Note(e: Event)
      requires Safe(pb, log) && Allowed(pb, Now(), e)
      modifies this
      ensures Safe(pb, log) && Now() == After(pb, old(Now()), e) && log == old(log) + [e]
    {
      ghost var before := log;
      log := log + [e];
      assert log[..|before|] == before;
      forall i | 0 <= i < |log| ensures Allowed(pb, PostureOf(pb, log[..i]), log[i]) {
        if i < |before| {
          assert log[..i] == before[..i];
        }
      }
    }

    method Stop(unit: string) returns (ok: bool)
      requires Safe(pb, log) && (unit == pb.Unit() ==> AllDown(pb, Now()))
      modifies this
      ensures Safe(pb, log) && Now() == After(pb, old(Now()), Stopped(unit, ok))
      ensures log == old(log) + [Stopped(unit, ok)]
    {
      ok := *;
      Note(Stopped(unit, ok));
    }

    method Start(unit: string) returns (ok: bool)
      requires Safe(pb, log) && Allowed(pb, Now(), Started(unit, true))
      modifies this
      ensures Safe(pb, log) && Now() == After(pb, old(Now()), Started(unit, ok))
      ensures log == old(log) + [Started(unit, ok)]
    {
      ok := *;
      Note(Started(unit, ok));
    }

    /** databaseServing: pg_is_in_recovery() answered, and answered f. */
    method Serving() returns (out: bool)
      requires Safe(pb, log)
      modifies this
      ensures Safe(pb, log) && Now() == After(pb, old(Now()), Observed(out)) && log == old(log) + [Observed(out)]
    {
      out := *;
      Note(Observed(out));
    }

    /** waitForRecovery: returns at the first turn whose verdict is in. It terminates because each
        turn either uses up one of the position changes left or moves the clock towards the stall. */
    method WaitForRecovery(feed: Feed, start: int, ghost changes: nat) returns (r: Wait, ghost turn: nat)
      requires Safe(pb, log) && Ticks(feed, start)
      requires forall k: nat :: Changes(feed, start, k) <= changes
      modifies this
      ensures EndsWith(feed, start, turn, r)
      ensures forall k: nat | k < turn :: GoesOn(feed, start, k)
      ensures Safe(pb, log) && Observations(old(log), log, feed, turn + 1)
      ensures Now() == old(Now()).(seen := old(Now()).seen || r.Recovered?, last := Some(r.Recovered?))
    {
      hide *;
      var position, lastProgress := "", start;
      var k: nat, now := 0, start;
      WaitBegins(log, feed, start);
      while true
        invariant Safe(pb, log) && Observations(old(log), log, feed, k)
        invariant ProgressAfter(feed, start, k) == Progress(position, lastProgress)
        invariant forall j: nat | j < k :: GoesOn(feed, start, j)
        invariant now <= feed(k).notedAt && (k > 0 ==> now + POLL_INTERVAL <= feed(k).notedAt)
        invariant now - lastProgress <= STALL_TIMEOUT && lastProgress <= now
        invariant Now() == old(Now()).(last := if k == 0 then old(Now()).last else Some(false))
        decreases changes - Changes(feed, start, k), STALL_TIMEOUT - (now - lastProgress), if k == 0 then 1 else 0
      {
        var poll := feed(k);
        turn := k;
        OneTurn(feed, start, k, position, lastProgress);
        ObservedOneMore(old(log), log, feed, k);
        LookAtIt(pb, Now(), poll.inRecovery == Some("f"));
        Note(Observed(poll.inRecovery == Some("f")));
        if poll.inRecovery == Some("f") {
          return Recovered, k;
        }
        if !poll.running {
          return Exited, k;
        }
        if poll.replayed.Some? && poll.replayed.value != "" && poll.replayed.value != position {
          position, lastProgress := poll.replayed.value, poll.notedAt;
        }
        if poll.checkedAt - lastProgress > STALL_TIMEOUT {
          return Stalled(if IsBlank(position) then "unknown" else position), k;
        }
        if poll.cancelled {
          return Cancelled, k;
        }
        now := poll.checkedAt;
        assert Changes(feed, start, k + 1) <= changes;
        k := k + 1;
      }
    }
  }

  lemma WaitBegins(log: seq<Event>, feed: Feed, start: int)
    requires Ticks(feed, start)
    ensures Observations(log, log, feed, 0) && ProgressAfter(feed, start, 0) == Progress("", start)
    ensures start <= feed(0).notedAt && STALL_TIMEOUT > 0 && POLL_INTERVAL > 0
  {
  }

  lemma LookAtIt(pb: PGBackRest, p: Posture, out: bool)
    ensures Allowed(pb, p, Observed(out))
    ensures After(pb, p, Observed(out)) == p.(seen := p.seen || out, last := Some(out))
  {
  }

  /** What one turn comes to, reason by reason, for a wait that keeps the last position and its time. */
  lemma OneTurn(feed: Feed, start: int, k: nat, position: string, lastProgress: int)
    requires Ticks(feed, start) && ProgressAfter(feed, start, k) == Progress(position, lastProgress)
    ensures var poll, over := feed(k), feed(k).inRecovery == Some("f");
      var moves := poll.replayed.Some? && poll.replayed.value != "" && poll.replayed.value != position;
      var p := if moves then Progress(poll.replayed.value, poll.notedAt) else Progress(position, lastProgress);
      var stalled := poll.checkedAt - p.at > STALL_TIMEOUT;
      && ProgressAfter(feed, start, k + 1) == p
      && Changes(feed, start, k + 1) == Changes(feed, start, k) + (if moves then 1 else 0)
      && poll.notedAt <= poll.checkedAt && poll.checkedAt + POLL_INTERVAL <= feed(k + 1).notedAt
      && (over ==> EndsWith(feed, start, k, Recovered))
      && (!over && !poll.running ==> EndsWith(feed, start, k, Exited))
      && (!over && poll.running && stalled ==>
            EndsWith(feed, start, k, Stalled(if IsBlank(p.position) then "unknown" else p.position)))
      && (!over && poll.running && !stalled && poll.cancelled ==> EndsWith(feed, start, k, Cancelled))
      && (!over && poll.running && !stalled && !poll.cancelled ==> GoesOn(feed, start, k))
  {
    VerdictMeans(feed, start, k);
    hide EndsWith, GoesOn, IsBlank;
  }

  /** `log` is `before` with what the first `n` turns were told about the recovery. */
  ghost predicate Observations(before: seq<Event>, log: seq<Event>, feed: Feed, n: nat) {
    && before <= log && |log| == |before| + n
    && forall j | |before| <= j < |log| :: log[j] == Observed(feed(j - |before|).inRecovery == Some("f"))
  }

  lemma ObservedOneMore(before: seq<Event>, log: seq<Event>, feed: Feed, n: nat)
    requires Observations(before, log, feed, n)
    ensures Observations(before, log + [Observed(feed(n).inRecovery == Some("f"))], feed, n + 1)
  {
  }

  // ------------------------------------------------------------------- a run, event by event

  datatype Outcome = Failed | Succeeded(backupAfterPromote: bool)

  /** What happens before the wait when nothing fails. */
  function Plan(pb: PGBackRest): seq<Event> {
    seq(|pb.Units()|, i requires 0 <= i < |pb.Units()| => Stopped(pb.Units()[i], true))
    + [Stopped(pb.Unit(), true), Replaced(true), Started(pb.Unit(), true)]
  }

  /** The same, going wrong. */
  function Refused(e: Event): Event {
    match e
    case Stopped(u, _) => Stopped(u, false)
    case Started(u, _) => Started(u, false)
    case Replaced(_) => Replaced(false)
    case BackedUp(_) => BackedUp(false)
    case Observed(_) => e
  }

  /** `log` is `before` and a start of the first `n` dependants, in order. */
  ghost predicate StartedUpTo(pb: PGBackRest, before: seq<Event>, log: seq<Event>, n: nat) {
    && n <= |pb.Units()| && before <= log && |log| == |before| + n
    && forall j | |before| <= j < |log| :: log[j].Started? && log[j].unit == pb.Units()[j - |before|]
  }

  ghost predicate DependantsStarted(pb: PGBackRest, before: seq<Event>, log: seq<Event>) {
    StartedUpTo(pb, before, log, |pb.Units()|)
  }

  lemma StartedOneMore(pb: PGBackRest, before: seq<Event>, log: seq<Event>, n: nat, ok: bool)
    requires StartedUpTo(pb, before, log, n) && n < |pb.Units()|
    ensures StartedUpTo(pb, before, log + [Started(pb.Units()[n], ok)], n + 1)
  {
  }

  lemma NoneStarted(pb: PGBackRest, log: seq<Event>)
    ensures StartedUpTo(pb, log, log, 0) && pb.Units()[..0] == []
    ensures forall i | 0 <= i < |pb.Units()| :: pb.Units()[..i + 1] == pb.Units()[..i] + [pb.Units()[i]]
  {
  }

  lemma AllStarted(pb: PGBackRest, before: seq<Event>, log: seq<Event>)
    requires StartedUpTo(pb, before, log, |pb.Units()|)
    ensures DependantsStarted(pb, before, log) && pb.Units()[..|pb.Units()|] == pb.Units()
  {
  }

  lemma MayStart(pb: PGBackRest, p: Posture, n: nat)
    requires p.seen && n < |pb.Units()| && |p.startedDependants| == n
    ensures Allowed(pb, p, Started(pb.Units()[n], true))
  {
  }

  lemma StartEffect(pb: PGBackRest, p: Posture, u: string, ok: bool)
    requires u != pb.Unit()
    ensures var q := After(pb, p, Started(u, ok));
      && q.startedDependants == p.startedDependants + [u]
      && q.seen == p.seen && q.last == p.last && q.databaseDown == p.databaseDown
  {
  }

  lemma DependantsFollow(pb: PGBackRest, before: seq<Event>, log: seq<Event>)
    requires DependantsStarted(pb, before, log)
    ensures before <= log && log[..|before|] == before && |log| == |before| + |pb.Units()|
  {
  }

  /** The plan is followed up to its event `k`, which goes wrong. */
  ghost predicate StoppedShort(pb: PGBackRest, steps: seq<Event>, out: Outcome, k: nat) {
    k < |Plan(pb)| && out.Failed? && steps == Plan(pb)[..k] + [Refused(Plan(pb)[k])]
  }

  /** The plan goes through, and the wait ends at turn `turn`; if the database has recovered and says what it
      is, its dependants are started and a backup is taken. */
  ghost predicate WaitedThrough(pb: PGBackRest, feed: Feed, start: int, described: bool, steps: seq<Event>,
                                out: Outcome, turn: nat, w: Wait)
  {
    var n := |Plan(pb)| + turn + 1;
    && EndsWith(feed, start, turn, w) && (forall k: nat | k < turn :: GoesOn(feed, start, k))
    && n <= |steps| && Observations(Plan(pb), steps[..n], feed, turn + 1)
    && if w.Recovered? && described
       then
         && out.Succeeded? && n < |steps|
         && DependantsStarted(pb, steps[..n], steps[..|steps| - 1])
         && steps[|steps| - 1] == BackedUp(out.backupAfterPromote)
       else out.Failed? && |steps| == n
  }

  /** All that a restore does, and in what order, up to its end. */
  ghost predicate StepsAre(pb: PGBackRest, feed: Feed, start: int, described: bool, steps: seq<Event>, out: Outcome) {
    || (exists k: nat :: StoppedShort(pb, steps, out, k))
    || (exists turn: nat, w :: WaitedThrough(pb, feed, start, described, steps, out, turn, w))
  }

  /** These steps have asked the database to stop and have not seen it start. */
  predicate LeavesItDown(pb: PGBackRest, steps: seq<Event>) {
    |pb.Units()| < |steps| <= |Plan(pb)|
  }

  /** `log` is `before`, a start of the database if it is to be started, a look at it, and a start of every
      dependant if that found it serving. */
  ghost predicate BroughtBack(pb: PGBackRest, before: seq<Event>, log: seq<Event>, restart: bool) {
    var n := |before| + if restart then 1 else 0;
    && before <= log && n < |log|
    && (restart ==> log[|before|].Started? && log[|before|].unit == pb.Unit())
    && log[n].Observed?
    && if log[n].outOfRecovery then DependantsStarted(pb, log[..n + 1], log) else |log| == n + 1
  }

  lemma PlanStep(pb: PGBackRest, k: nat)
    requires k < |Plan(pb)|
    ensures Plan(pb)[..k + 1] == Plan(pb)[..k] + [Plan(pb)[k]]
    ensures k < |pb.Units()| ==> Plan(pb)[k] == Stopped(pb.Units()[k], true)
    ensures k == |pb.Units()| ==> Plan(pb)[k] == Stopped(pb.Unit(), true)
    ensures k == |pb.Units()| + 1 ==> Plan(pb)[k] == Replaced(true)
    ensures k == |pb.Units()| + 2 ==> Plan(pb)[k] == Started(pb.Unit(), true)
  {
  }

  lemma PlanEnds(pb: PGBackRest)
    ensures |Plan(pb)| == |pb.Units()| + 3 && Plan(pb)[..0] == [] && Plan(pb)[..|Plan(pb)|] == Plan(pb)
  {
  }

  // ------------------------------------------------------------------------- bringing it back

  /** Puts the Base back together, whether the restore finished or failed part-way. */
  class BringBack {
    const host: Host
    var stoppedPostgres: bool
    var startedDependants: bool

    /** The flags say what the log says. */
    ghost predicate Valid()
      reads this, host
    {
      var p := host.Now();
      && Safe(host.pb, host.log)
      && host.pb.Unit() !in host.pb.Units()
      && (p.databaseDown ==> stoppedPostgres)
      && p.startedDependants == (if startedDependants then host.pb.Units() else [])
    }

    constructor (host: Host)
      requires Safe(host.pb, host.log) && host.pb.Unit() !in host.pb.Units()
      requires !host.Now().databaseDown && host.Now().startedDependants == []
      ensures Valid() && this.host == host && !stoppedPostgres && !startedDependants
    {
      this.host := host;
      stoppedPostgres, startedDependants := false, false;
    }

    /** Starts everything that requires the database, once. */
    method Dependants()
      requires Valid() && host.Now().seen
      modifies this`startedDependants, host
      ensures Valid() && startedDependants
      ensures host.Now().last == old(host.Now()).last && host.Now().databaseDown == old(host.Now()).databaseDown
      ensures if old(startedDependants) then host.log == old(host.log)
              else DependantsStarted(host.pb, old(host.log), host.log)
    {
      if startedDependants {
        return;
      }
      startedDependants := true;
      StartUnits();
      hide PostureOf, Safe, DependantsStarted;
    }

    /** The loop over the units of the dependants. */
    method StartUnits()
      requires Safe(host.pb, host.log) && host.pb.Unit() !in host.pb.Units()
      requires host.Now().seen && host.Now().startedDependants == []
      modifies host
      ensures Safe(host.pb, host.log) && host.Now().startedDependants == host.pb.Units()
      ensures host.Now().last == old(host.Now()).last
      ensures host.Now().databaseDown == old(host.Now()).databaseDown
      ensures DependantsStarted(host.pb, old(host.log), host.log)
    {
      hide *;
      var units := host.pb.Units();
      NoneStarted(host.pb, host.log);
      for i := 0 to |units|
        invariant Safe(host.pb, host.log) && StartedUpTo(host.pb, old(host.log), host.log, i)
        invariant host.Now().startedDependants == units[..i]
        invariant host.Now().seen && host.Now().last == old(host.Now()).last
        invariant host.Now().databaseDown == old(host.Now()).databaseDown
      {
        ghost var so, was := host.log, host.Now();
        MayStart(host.pb, was, i);
        var ok := host.Start(units[i]);
        StartEffect(host.pb, was, units[i], ok);
        StartedOneMore(host.pb, old(host.log), so, i, ok);
      }
      AllStarted(host.pb, old(host.log), host.log);
    }

    /** What the restore defers: the database first, then, if it serves, its dependants. */
    method All()
      requires Valid()
      requires startedDependants && !stoppedPostgres ==> host.Now().last == Some(true)
      requires startedDependants ==> !stoppedPostgres
      modifies this, host
      ensures Valid() && CleanedUp(host.pb, host.log)
      ensures old(startedDependants) ==> startedDependants
      ensures if old(startedDependants) then host.log == old(host.log)
              else BroughtBack(host.pb, old(host.log), host.log, old(stoppedPostgres))
    {
      hide PostureOf, Safe, DependantsStarted;
      if startedDependants && !stoppedPostgres {
        return;
      }
      if stoppedPostgres {
        stoppedPostgres := false;
        var ok := host.Start(host.pb.Unit());
      }
      var serving := host.Serving();
      ghost var looked := host.log;
      if serving {
        Dependants();
        DependantsFollow(host.pb, looked, host.log);
        return;
      }
    }
  }

  lemma EmptyLog(pb: PGBackRest)
    ensures Safe(pb, []) && PostureOf(pb, []) == Posture({}, false, false, None, [])
  {
  }

  method StopDependants(host: Host) returns (ok: bool)
    requires Safe(host.pb, host.log) && host.log == [] && host.pb.Unit() !in host.pb.Units()
    modifies host
    ensures Safe(host.pb, host.log)
    ensures host.Now().startedDependants == [] && !host.Now().databaseDown
    ensures ok ==> AllDown(host.pb, host.Now()) && host.log == Plan(host.pb)[..|host.pb.Units()|]
    ensures !ok ==>
      |host.log| <= |host.pb.Units()| && exists k: nat :: StoppedShort(host.pb, host.log, Failed, k)
  {
    EmptyLog(host.pb);
    PlanEnds(host.pb);
    hide PostureOf, Safe, Plan;
    var units := host.pb.Units();
    ok := true;
    for i := 0 to |units|
      invariant Safe(host.pb, host.log) && host.log == Plan(host.pb)[..i] && ok
      invariant host.Now().startedDependants == [] && !host.Now().databaseDown
      invariant forall j | 0 <= j < i :: units[j] in host.Now().down
    {
      PlanStep(host.pb, i);
      ok := host.Stop(units[i]);
      if !ok {
        assert StoppedShort(host.pb, host.log, Failed, i);
        return;
      }
    }
  }

  /** Everything before the wait. */
  method Replace(host: Host, back: BringBack) returns (ok: bool)
    requires back.host == host && back.Valid() && host.log == [] && !back.startedDependants && !back.stoppedPostgres
    modifies back, host
    ensures back.Valid() && !back.startedDependants
    ensures ok ==> host.log == Plan(host.pb)
    ensures !ok ==> exists k: nat :: StoppedShort(host.pb, host.log, Failed, k)
    ensures back.stoppedPostgres <==> !ok && LeavesItDown(host.pb, host.log)
  {
    var pb := host.pb;
    ghost var n := |pb.Units()|;
    hide PostureOf, Safe, Plan;
    PlanEnds(pb);
    ok := StopDependants(host);
    if !ok {
      return;
    }
    PlanStep(pb, n);
    PlanStep(pb, n + 1);
    PlanStep(pb, n + 2);
    back.stoppedPostgres := true;
    ok := host.Stop(pb.Unit());
    if !ok {
      assert StoppedShort(pb, host.log, Failed, n);
      return;
    }
    ok := *;
    host.Note(Replaced(ok));
    if !ok {
      assert StoppedShort(pb, host.log, Failed, n + 1);
      return;
    }
    ok := host.Start(pb.Unit());
    if !ok {
      assert StoppedShort(pb, host.log, Failed, n + 2);
      return;
    }
    back.stoppedPostgres := false;
  }

  /** The restore itself, from the first stop to the last backup; the caller defers the cleanup. Whether the
      recovered database answers what it is (describeRecovered) is a parameter. */
  method RestoreSteps(host: Host, back: BringBack, feed: Feed, start: int, described: bool, ghost changes: nat)
    returns (out: Outcome)
    requires back.host == host && back.Valid() && host.log == [] && !back.startedDependants && !back.stoppedPostgres
    requires Ticks(feed, start) && forall k: nat :: Changes(feed, start, k) <= changes
    modifies back, host
    ensures back.Valid() && StepsAre(host.pb, feed, start, described, host.log, out)
    ensures back.startedDependants <==> out.Succeeded?
    ensures back.stoppedPostgres <==> LeavesItDown(host.pb, host.log)
    ensures out.Succeeded? ==> host.Now().last == Some(true)
  {
    hide PostureOf, Safe, Plan, EndsWith, GoesOn, StoppedShort, DependantsStarted;
    var pb := host.pb;
    PlanEnds(pb);
    var replaced := Replace(host, back);
    if !replaced {
      return Failed;
    }
    var waited, turn := host.WaitForRecovery(feed, start, changes);
    ghost var watched := host.log;
    assert watched[..|watched|] == watched;
    if !waited.Recovered? || !described {
      assert WaitedThrough(pb, feed, start, described, host.log, Failed, turn, waited);
      return Failed;
    }
    back.Dependants();

    ghost var served := host.log;
    DependantsFollow(pb, watched, served);
    var backedUp := *;
    host.Note(BackedUp(backedUp));
    out := Succeeded(backedUp);
    assert host.log[..|watched|] == watched && host.log[..|host.log| - 1] == served;
    assert WaitedThrough(pb, feed, start, described, host.log, out, turn, waited);
  }

  /** What a restore that went through has done. */
  lemma SucceededMeans(pb: PGBackRest, feed: Feed, start: int, described: bool, steps: seq<Event>, out: Outcome)
    requires StepsAre(pb, feed, start, described, steps, out) && out.Succeeded?
    ensures Plan(pb) <= steps && Replaced(true) in steps
    ensures steps[|steps| - 1] == BackedUp(out.backupAfterPromote)
  {
    hide EndsWith, GoesOn, DependantsStarted, Plan;
    var turn: nat, w :| WaitedThrough(pb, feed, start, described, steps, out, turn, w);
    PlanEnds(pb);
    PlanStep(pb, |pb.Units()| + 1);
    assert steps[|pb.Units()| + 1] == Plan(pb)[|pb.Units()| + 1];
  }

  /** restoreIntoProduction: nothing is touched when the volumes cannot be resolved, and otherwise
      the cleanup runs however the steps ended. */
  method RestoreIntoProduction(pb: PGBackRest, repoResolves: bool, dataResolves: bool,
                               feed: Feed, start: int, described: bool, ghost changes: nat)
    returns (out: Outcome, host: Host, ghost steps: seq<Event>)
    requires pb.Unit() !in pb.Units()
    requires Ticks(feed, start) && forall k: nat :: Changes(feed, start, k) <= changes
    ensures fresh(host) && host.pb == pb
    ensures (pb.dataVolume == "" || !repoResolves || !dataResolves) ==> out.Failed? && host.log == []
    ensures pb.dataVolume != "" && repoResolves && dataResolves ==>
      && Safe(pb, host.log) && CleanedUp(pb, host.log) && StepsAre(pb, feed, start, described, steps, out)
      && if out.Succeeded? then host.log == steps
         else BroughtBack(pb, steps, host.log, LeavesItDown(pb, steps))
    ensures out.Succeeded? ==>
      && Replaced(true) in host.log && host.Now().startedDependants == pb.Units()
      && host.log[|host.log| - 1] == BackedUp(out.backupAfterPromote)
  {
    host := new Host(pb);
    steps := [];
    EmptyLog(pb);
    if pb.dataVolume == "" || !repoResolves || !dataResolves {
      return Failed, host, [];
    }
    var back := new BringBack(host);
    out := RestoreSteps(host, back, feed, start, described, changes);
    steps := host.log;
    hide PostureOf, Safe, StepsAre, BroughtBack, LeavesItDown;
    back.All();
    if out.Succeeded? {
      SucceededMeans(pb, feed, start, described, steps, out);
    }
  }
}
