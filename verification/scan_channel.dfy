/** The hand-over of vulnerability scan results (cmd/ownbased/main.go): scans finish in their own
    goroutines and leave their result in a channel that buffers one, from which the main loop
    takes it. Every select statement is one step, so that any other goroutine can run in between. */
module ScanChannel {
  import opened Text

  /** A scan result, by the scan that made it and the time it was made. */
  datatype Result = Result(scan: nat, at: int)

  /** Where a call of sendVulnResult stands: about to offer its result, about to take the queued
      one out, or about to put back a queued one that is no older than its own, which it dropped. */
  datatype Sender = Trying(result: Result) | Swapping(result: Result) | Restoring(queued: Result)

  datatype State = State(buffer: Option<Result>, applied: Option<Result>, senders: map<nat, Sender>)

  datatype Event = Starts(id: nat, result: Result) | Sends(id: nat) | Swaps(id: nat) | Restores(id: nat) | Receives

  const INIT: State := State(None, None, map[])

  predicate Enabled(s: State, e: Event) {
    match e
    case Starts(id, _) => id !in s.senders
    case Sends(id) => id in s.senders && s.senders[id].Trying?
    case Swaps(id) => id in s.senders && s.senders[id].Swapping?
    case Restores(id) => id in s.senders && s.senders[id].Restoring?
    case Receives => s.buffer.Some?
  }

  /** The main loop discards a result older than the one it shows. */
  function Applied(now: Option<Result>, r: Result): Option<Result> {
    if now.Some? && r.at < now.value.at then now else Some(r)
  }

  /** The second select, when there was something to take. */
  function Swapped(mine: Result, queued: Result): Sender {
    if mine.at > queued.at then Trying(mine) else Restoring(queued)
  }

  function Step(s: State, e: Event): State
    requires Enabled(s, e)
  {
    match e
    case Starts(id, r) => s.(senders := s.senders[id := Trying(r)])
    case Sends(id) =>
      var r := s.senders[id].result;
      if s.buffer.None? then s.(buffer := Some(r), senders := s.senders - {id})
      else s.(senders := s.senders[id := Swapping(r)])
    case Swaps(id) =>
      var r := s.senders[id].result;
      if s.buffer.None? then s.(senders := s.senders[id := Trying(r)])
      else s.(buffer := None, senders := s.senders[id := Swapped(r, s.buffer.value)])
    case Restores(id) =>
      var q := s.senders[id].queued;
      State(if s.buffer.None? then Some(q) else s.buffer, s.applied, s.senders - {id})
    case Receives => s.(buffer := None, applied := Applied(s.applied, s.buffer.value))
  }

  predicate IsRun(s: State, events: seq<Event>)
    decreases |events|
  {
    events == [] || (Enabled(s, events[0]) && IsRun(Step(s, events[0]), events[1..]))
  }

  function Final(s: State, events: seq<Event>): State
    requires IsRun(s, events)
    decreases |events|
  {
    if events == [] then s else Final(Step(s, events[0]), events[1..])
  }

  // ---------------------------------------------------------------- what can only go forward

  predicate NotBefore(a: Option<Result>, b: Option<Result>) {
    b.Some? ==> a.Some? && a.value.at >= b.value.at
  }

  /** However many scans overlap, the time of the applied result never goes back. */
  lemma {:induction false} AppliedNeverOlder(s: State, events: seq<Event>)
    requires IsRun(s, events)
    ensures NotBefore(Final(s, events).applied, s.applied)
    decreases |events|
  {
    if events != [] {
      AppliedNeverOlder(Step(s, events[0]), events[1..]);
    }
  }

  // -------------------------------------------------------------------- what is not lost

  /** The result a sender has in its hands. */
  function InHand(w: Sender): Result {
    if w.Restoring? then w.queued else w.result
  }

  /** Something at least as new as `at` is applied, queued or in a sender's hands. */
  ghost predicate Covered(s: State, at: int) {
    || (s.applied.Some? && s.applied.value.at >= at)
    || (s.buffer.Some? && s.buffer.value.at >= at)
    || exists id :: id in s.senders && InHand(s.senders[id]).at >= at
  }

  /** What loses `at`: a result that new is to be put back, the buffer has been filled with an older
      one in the meantime, so that the select takes its default branch, and nobody else is as new. */
  ghost predicate Loses(s: State, e: Event, at: int)
    requires Enabled(s, e)
  {
    && e.Restores? && at <= s.senders[e.id].queued.at
    && s.buffer.Some? && s.buffer.value.at < at
    && (s.applied.Some? ==> s.applied.value.at < at)
    && forall id | id in s.senders && id != e.id :: InHand(s.senders[id]).at < at
  }

  predicate Brings(e: Event, at: int) {
    e.Starts? && e.result.at >= at
  }

  /** Nothing else loses anything, and only a new scan brings anything. */
  lemma CoveredStep(s: State, e: Event, at: int)
    requires Enabled(s, e)
    ensures Covered(Step(s, e), at) <==> (Covered(s, at) && !Loses(s, e, at)) || Brings(e, at)
  {
    var t := Step(s, e);
    if Covered(s, at) && !Loses(s, e, at) {
      StillCovered(s, e, at);
    } else if Brings(e, at) {
      assert e.id in t.senders && InHand(t.senders[e.id]).at >= at;
    }
  }

  lemma StillCovered(s: State, e: Event, at: int)
    requires Enabled(s, e) && Covered(s, at) && !Loses(s, e, at)
    ensures Covered(Step(s, e), at)
  {
    var t := Step(s, e);
    if !(t.applied.Some? && t.applied.value.at >= at) && !(t.buffer.Some? && t.buffer.value.at >= at) {
      if s.buffer.Some? && s.buffer.value.at >= at {
        assert e.Swaps?;
        assert e.id in t.senders && InHand(t.senders[e.id]).at >= at;
      } else {
        var id :| id in s.senders && InHand(s.senders[id]).at >= at && (e.Restores? ==> id != e.id);
        assert id in t.senders && InHand(t.senders[id]).at >= at;
      }
    }
  }

  /** A put-back that fails while nothing else is as new as what it drops. */
  ghost predicate LosesTheNewest(s: State, e: Event)
    requires Enabled(s, e)
  {
    e.Restores? && Loses(s, e, s.senders[e.id].queued.at)
  }

  /** A step keeps everything that was covered exactly if it is not one of those. */
  lemma LosesNothing(s: State, e: Event)
    requires Enabled(s, e)
    ensures (forall at :: Covered(s, at) ==> Covered(Step(s, e), at)) <==> !LosesTheNewest(s, e)
  {
    forall at ensures Covered(Step(s, e), at) <==> (Covered(s, at) && !Loses(s, e, at)) || Brings(e, at) {
      CoveredStep(s, e, at);
    }
    if LosesTheNewest(s, e) {
      var at := s.senders[e.id].queued.at;
      assert e.id in s.senders && InHand(s.senders[e.id]).at >= at;
      assert Covered(s, at) && !Covered(Step(s, e), at);
    } else {
      forall at | Covered(s, at) ensures !Loses(s, e, at) {
        if Loses(s, e, at) {
          assert Loses(s, e, s.senders[e.id].queued.at);
        }
      }
    }
  }

  // ------------------------------------------------------------------ and over whole runs

  /** The state a run has reached after its first `k` steps. */
  function StateAfter(s: State, events: seq<Event>, k: nat): State
    requires IsRun(s, events) && k <= |events|
    decreases k
  {
    if k == 0 then s else StateAfter(Step(s, events[0]), events[1..], k - 1)
  }

  lemma {:induction false} NextState(s: State, events: seq<Event>, k: nat)
    requires IsRun(s, events) && k < |events|
    ensures var t := StateAfter(s, events, k);
      Enabled(t, events[k]) && StateAfter(s, events, k + 1) == Step(t, events[k])
    decreases k
  {
    if k > 0 {
      NextState(Step(s, events[0]), events[1..], k - 1);
    }
  }

  lemma {:induction false} LastState(s: State, events: seq<Event>)
    requires IsRun(s, events)
    ensures StateAfter(s, events, |events|) == Final(s, events)
    decreases |events|
  {
    if events != [] {
      LastState(Step(s, events[0]), events[1..]);
    }
  }

  ghost predicate LosesAt(s: State, events: seq<Event>, k: nat, at: int)
    requires IsRun(s, events) && k < |events|
  {
    NextState(s, events, k);
    Loses(StateAfter(s, events, k), events[k], at)
  }

  /** `at` was there at the start, or was brought by the step before `k`. */
  ghost predicate Brought(s: State, events: seq<Event>, k: nat, at: int)
    requires k <= |events|
  {
    if k == 0 then Covered(s, at) else Brings(events[k - 1], at)
  }

  /** Something at least as new as `at` is there after `n` steps if and only if it was brought at
      some point, and no step since then has lost it. */
  lemma {:induction false} CoveredAfter(s: State, events: seq<Event>, n: nat, at: int)
    requires IsRun(s, events) && n <= |events|
    ensures Covered(StateAfter(s, events, n), at) <==>
      exists k: nat :: k <= n && Brought(s, events, k, at) && forall j | k <= j < n :: !LosesAt(s, events, j, at)
    decreases n
  {
    hide Covered, Loses, StateAfter, Step, Enabled, IsRun;
    if n == 0 {
      AtTheStart(s, events);
      assert Brought(s, events, 0, at) <==> Covered(s, at);
    } else {
      var t, e := StateAfter(s, events, n - 1), events[n - 1];
      CoveredAfter(s, events, n - 1, at);
      NextState(s, events, n - 1);
      CoveredStep(t, e, at);
      forall k: nat | k <= n && Brought(s, events, k, at) && (forall j | k <= j < n :: !LosesAt(s, events, j, at))
        ensures (Covered(t, at) && !Loses(t, e, at)) || Brings(e, at)
      {
        if k < n {
          assert !LosesAt(s, events, n - 1, at);
        }
      }
      if Brings(e, at) {
        assert Brought(s, events, n, at);
      } else if Covered(t, at) && !Loses(t, e, at) {
        var k: nat :| k < n && Brought(s, events, k, at) && forall j | k <= j < n - 1 :: !LosesAt(s, events, j, at);
        assert !LosesAt(s, events, n - 1, at);
      }
    }
  }

  lemma AtTheStart(s: State, events: seq<Event>)
    requires IsRun(s, events)
    ensures StateAfter(s, events, 0) == s
  {
  }

  /** No step of the run loses what was newest. */
  ghost predicate NoLoss(s: State, events: seq<Event>)
    requires IsRun(s, events)
    decreases |events|
  {
    events == [] || (!LosesTheNewest(s, events[0]) && NoLoss(Step(s, events[0]), events[1..]))
  }

  /** Whatever a run has once covered stays covered. */
  ghost predicate NeverLost(s: State, events: seq<Event>)
    requires IsRun(s, events)
  {
    forall i: nat, j: nat, at | i <= j <= |events| && Covered(StateAfter(s, events, i), at) ::
      Covered(StateAfter(s, events, j), at)
  }

  /** That is so exactly if none of its steps is a put-back that fails while nothing else is as new. */
  lemma {:induction false} NothingNewerLost(s: State, events: seq<Event>)
    requires IsRun(s, events)
    ensures NeverLost(s, events) <==> NoLoss(s, events)
    decreases |events|
  {
    if events != [] {
      var t, rest := Step(s, events[0]), events[1..];
      NothingNewerLost(t, rest);
      LosesNothing(s, events[0]);
      AtTheStart(s, events);
      AtTheStart(t, rest);
      FromTheNext(s, events);
      hide Covered, Step, LosesTheNewest, Enabled;
      if NeverLost(s, events) {
        forall at | Covered(s, at) ensures Covered(t, at) {
          assert Covered(StateAfter(s, events, 0), at) ==> Covered(StateAfter(s, events, 1), at);
        }
        forall i: nat, j: nat, at | i <= j <= |rest| && Covered(StateAfter(t, rest, i), at)
          ensures Covered(StateAfter(t, rest, j), at)
        {
          assert Covered(StateAfter(s, events, i + 1), at) ==> Covered(StateAfter(s, events, j + 1), at);
        }
      }
      if NoLoss(s, events) {
        forall i: nat, j: nat, at | i <= j <= |events| && Covered(StateAfter(s, events, i), at)
          ensures Covered(StateAfter(s, events, j), at)
        {
          if j > 0 {
            assert Covered(StateAfter(t, rest, if i == 0 then 0 else i - 1), at);
          }
        }
      }
    }
  }

  lemma FromTheNext(s: State, events: seq<Event>)
    requires IsRun(s, events) && events != []
    ensures forall k: nat | 0 < k <= |events| ::
      StateAfter(s, events, k) == StateAfter(Step(s, events[0]), events[1..], k - 1)
  {
  }

  /** So every result handed in by such a run, and everything that was there before it, is matched
      at its end by something at least as new. */
  lemma KeptToTheEnd(s: State, events: seq<Event>, at: int)
    requires IsRun(s, events) && NoLoss(s, events)
    requires Covered(s, at) || exists i :: 0 <= i < |events| && Brings(events[i], at)
    ensures Covered(Final(s, events), at)
  {
    NothingNewerLost(s, events);
    LastState(s, events);
    AtTheStart(s, events);
    if Covered(s, at) {
      assert Covered(StateAfter(s, events, 0), at);
    } else {
      var i :| 0 <= i < |events| && Brings(events[i], at);
      NextState(s, events, i);
      CoveredStep(StateAfter(s, events, i), events[i], at);
      assert Covered(StateAfter(s, events, i + 1), at);
    }
  }

  // ------------------------------------------------------------------- one scan at a time

  /** A scan starts only when no other sender is under way. */
  predicate OneAtATime(s: State, events: seq<Event>)
    requires IsRun(s, events)
    decreases |events|
  {
    events == []
    || ((events[0].Starts? ==> s.senders == map[]) && OneAtATime(Step(s, events[0]), events[1..]))
  }

  ghost predicate Alone(s: State) {
    && (forall a, b | a in s.senders && b in s.senders :: a == b)
    && (forall a | a in s.senders && s.senders[a].Restoring? :: s.buffer.None?)
  }

  /** Then no put-back fails: only the sender itself fills the buffer. */
  lemma {:induction false} AloneLosesNothing(s: State, events: seq<Event>)
    requires IsRun(s, events) && OneAtATime(s, events) && Alone(s)
    ensures NoLoss(s, events)
    decreases |events|
  {
    if events != [] {
      AloneLosesNothing(Step(s, events[0]), events[1..]);
    }
  }

  /** Once the last sender has returned and the main loop has taken what was queued, the result
      shown is at least as new as one that was sent if and only if one as new was sent at some point
      and never lost since; and with one scan at a time, it is so for every result ever sent. */
  lemma NewestIsApplied(events: seq<Event>, i: nat)
    requires IsRun(INIT, events) && i < |events| && events[i].Starts?
    requires Final(INIT, events).senders == map[] && Final(INIT, events).buffer.None?
    ensures var at := events[i].result.at;
      NotBefore(Final(INIT, events).applied, Some(events[i].result)) <==>
      exists k: nat :: (
        k < |events| && Brings(events[k], at) && forall j | k < j < |events| :: !LosesAt(INIT, events, j, at))
    ensures OneAtATime(INIT, events) ==> NotBefore(Final(INIT, events).applied, Some(events[i].result))
  {
    var at := events[i].result.at;
    CoveredAfter(INIT, events, |events|, at);
    LastState(INIT, events);
    assert NotBefore(Final(INIT, events).applied, Some(events[i].result)) <==> Covered(Final(INIT, events), at);
    assert !Covered(INIT, at) && Brings(events[i], at);
    if OneAtATime(INIT, events) {
      AloneLosesNothing(INIT, events);
      KeptToTheEnd(INIT, events, at);
    }
    hide Final, LosesAt, IsRun, OneAtATime, Covered, StateAfter, Brings;
    var n := |events|;
    if k: nat :| k <= n && Brought(INIT, events, k, at) && forall j | k <= j < n :: !LosesAt(INIT, events, j, at) {
      assert k > 0 && Brings(events[k - 1], at);
    }
    if k: nat :| k < n && Brings(events[k], at) && forall j | k < j < n :: !LosesAt(INIT, events, j, at) {
      assert Brought(INIT, events, k + 1, at);
    }
  }

  /** Own steps a lone sender has left before it returns, at most. */
  function StepsLeft(s: State, id: nat): nat {
    if id !in s.senders then 0
    else match s.senders[id]
      case Restoring(_) => 1
      case Trying(_) => if s.buffer.None? then 1 else 4
      case Swapping(_) => if s.buffer.None? then 2 else 3
  }

  /** The retry loop ends: every own step of a lone sender brings it closer to returning, and the
      main loop never takes it further away. */
  lemma SenderReturns(s: State, id: nat, e: Event)
    requires Enabled(s, e) && Alone(s) && id in s.senders
    ensures (e.Sends? || e.Swaps? || e.Restores?) ==> StepsLeft(Step(s, e), id) < StepsLeft(s, id)
    ensures e.Receives? ==> StepsLeft(Step(s, e), id) <= StepsLeft(s, id)
  {
    if e.Sends? || e.Swaps? || e.Restores? {
      assert e.id == id;
    }
  }

  /** Two overlapping senders can lose the newest result for good: the first takes it out to put
      it back, the second fills the buffer with its older one, and the put-back is dropped. */
  lemma OverlapLosesTheNewest(events: seq<Event>)
    requires events == [
               Starts(0, Result(0, 3)), Sends(0),
               Starts(1, Result(1, 1)), Sends(1), Swaps(1),
               Starts(2, Result(2, 2)), Sends(2),
               Restores(1), Receives]
    ensures IsRun(INIT, events)
    ensures Final(INIT, events) == State(None, Some(Result(2, 2)), map[])
    ensures !Covered(Final(INIT, events), 3)
  {
    hide *;
    var r5 := PutBackTooLate(Result(0, 3), Result(2, 2));
    var r2 := TakesOut(Result(0, 3), Result(1, 1), r5);
    var r0 := Fills(Result(0, 3), r2);
    assert events == r0;
    NothingAtLeast(Final(INIT, events), 3);
  }

  lemma NothingAtLeast(s: State, at: int)
    requires s.senders == map[] && s.buffer.None? && s.applied.Some? && s.applied.value.at < at
    ensures !Covered(s, at)
  {
  }

  lemma Fills(newest: Result, rest: seq<Event>) returns (events: seq<Event>)
    requires IsRun(State(Some(newest), None, map[]), rest)
    ensures events == [Starts(0, newest), Sends(0)] + rest
    ensures IsRun(INIT, events) && Final(INIT, events) == Final(State(Some(newest), None, map[]), rest)
  {
    var a := State(None, None, map[0 := Trying(newest)]);
    events := First(a, Sends(0), rest, State(Some(newest), None, map[]));
    events := First(INIT, Starts(0, newest), events, a);
  }

  lemma TakesOut(newest: Result, oldest: Result, rest: seq<Event>) returns (events: seq<Event>)
    requires oldest.at < newest.at && IsRun(State(None, None, map[1 := Restoring(newest)]), rest)
    ensures events == [Starts(1, oldest), Sends(1), Swaps(1)] + rest
    ensures var b := State(Some(newest), None, map[]);
      IsRun(b, events) && Final(b, events) == Final(State(None, None, map[1 := Restoring(newest)]), rest)
  {
    var b := State(Some(newest), None, map[]);
    var c := State(Some(newest), None, map[1 := Trying(oldest)]);
    var d := State(Some(newest), None, map[1 := Swapping(oldest)]);
    events := First(d, Swaps(1), rest, State(None, None, map[1 := Restoring(newest)]));
    events := First(c, Sends(1), events, d);
    events := First(b, Starts(1, oldest), events, c);
  }

  lemma PutBackTooLate(newest: Result, middle: Result) returns (events: seq<Event>)
    requires middle.at < newest.at
    ensures var f := State(None, None, map[1 := Restoring(newest)]);
      IsRun(f, events) && Final(f, events) == State(None, Some(middle), map[])
    ensures events == [Starts(2, middle), Sends(2), Restores(1), Receives]
  {
    var f := State(None, None, map[1 := Restoring(newest)]);
    var g := State(None, None, map[1 := Restoring(newest), 2 := Trying(middle)]);
    var h := State(Some(middle), None, map[1 := Restoring(newest)]);
    var i := State(Some(middle), None, map[]);
    var r9: seq<Event> := [];
    var r8 := First(i, Receives, r9, State(None, Some(middle), map[]));
    var r7 := First(h, Restores(1), r8, i);
    var r6 := First(g, Sends(2), r7, h);
    events := First(f, Starts(2, middle), r6, g);
    hide IsRun, Final, Step, Enabled;
  }

  /** Puts one step in front of a run. */
  lemma First(s: State, e: Event, rest: seq<Event>, t: State) returns (events: seq<Event>)
    requires Enabled(s, e) && Step(s, e) == t && IsRun(t, rest)
    ensures events == [e] + rest && IsRun(s, events) && Final(s, events) == Final(t, rest)
  {
    events := [e] + rest;
    assert events[1..] == rest;
  }

  /** `events` lead from `s` to `t` without losing anything. */
  ghost predicate Leads(s: State, events: seq<Event>, t: State) {
    IsRun(s, events) && NoLoss(s, events) && Final(s, events) == t
  }

  lemma {:induction false} LeadsOn(s: State, events: seq<Event>, t: State, more: seq<Event>, u: State)
    requires Leads(s, events, t) && Leads(t, more, u)
    ensures Leads(s, events + more, u)
    decreases |events|
  {
    if events == [] {
      assert events + more == more;
    } else {
      LeadsOn(Step(s, events[0]), events[1..], t, more, u);
      assert (events + more)[1..] == events[1..] + more;
    }
  }

  lemma LeadsOneOn(s: State, events: seq<Event>, t: State, e: Event, u: State)
    requires Leads(s, events, t) && Enabled(t, e) && !LosesTheNewest(t, e) && Step(t, e) == u
    ensures Leads(s, events + [e], u)
  {
    assert [e][1..] == [];
    LeadsOn(s, events, t, [e], u);
  }

  lemma StaysCovered(s: State, events: seq<Event>, t: State, at: int)
    requires Leads(s, events, t)
    requires Covered(s, at) || (events != [] && events[0].Starts? && events[0].result.at == at)
    ensures Covered(t, at)
  {
    KeptToTheEnd(s, events, at);
  }

  lemma OnlySender(id: nat, a: Sender, b: Sender)
    ensures map[][id := a] == map[id := a]
    ensures map[id := a][id := b] == map[id := b]
    ensures map[id := a] - {id} == map[]
  {
  }

  // ----------------------------------------------------------------------------- the code

  /** The main loop's side of the channel and its own record. */
  class Handover {
    var buffer: Option<Result>
    var applied: Option<Result>

    constructor ()
      ensures buffer.None? && applied.None?
    {
      buffer, applied := None, None;
    }

    ghost function With(senders: map<nat, Sender>): State
      reads this
    {
      State(buffer, applied, senders)
    }

    /** The arm of the main loop that takes a result. */
    method Receive()
      requires buffer.Some?
      modifies this
      ensures With(map[]) == Step(old(With(map[])), Receives)
    {
      var result := buffer.value;
      buffer := None;
      if applied.Some? && result.at < applied.value.at {
        return;
      }
      applied := Some(result);
    }

    /** The main loop may come round while a sender is between two selects. */
    method Yield(wakes: bool, id: nat, ghost w: Sender) returns (ghost more: seq<Event>)
      modifies this
      ensures Leads(old(With(map[id := w])), more, With(map[id := w]))
      ensures buffer == old(buffer) || buffer.None?
    {
      more := [];
      if wakes && buffer.Some? {
        ghost var s := With(map[id := w]);
        Receive();
        LeadsOneOn(s, [], s, Receives, With(map[id := w]));
        more := [] + [Receives];
      }
    }

    /** sendVulnResult, with the main loop coming round between any two selects, as `wakes` says.
        The call is a run of the protocol above that loses nothing; it returns; and what
        it leaves behind covers the result sent and everything that was covered before. */
    method SendVulnResult(id: nat, result: Result, wakes: nat -> bool) returns (ghost events: seq<Event>)
      modifies this
      ensures events != [] && events[0] == Starts(id, result)
      ensures Leads(old(With(map[])), events, With(map[]))
      ensures Covered(With(map[]), result.at)
      ensures forall at :: old(Covered(With(map[]), at)) ==> Covered(With(map[]), at)
    {
      ghost var start := With(map[]);
      var turn := 0;
      OnlySender(id, Trying(result), Swapping(result));
      LeadsOneOn(start, [], start, Starts(id, result), With(map[id := Trying(result)]));
      events := [] + [Starts(id, result)];
      hide Leads, Covered;
      while true
        invariant events != [] && events[0] == Starts(id, result)
        invariant Leads(start, events, With(map[id := Trying(result)]))
        decreases StepsLeft(With(map[id := Trying(result)]), id)
      {
        ghost var now := With(map[id := Trying(result)]);
        ghost var more := Yield(wakes(turn), id, Trying(result));
        ghost var woken := With(map[id := Trying(result)]);
        LeadsOn(start, events, now, more, woken);
        events := events + more;
        if buffer.None? {
          buffer := Some(result);
          LeadsOneOn(start, events, woken, Sends(id), With(map[]));
          events := events + [Sends(id)];
          break;
        }
        now := With(map[id := Swapping(result)]);
        LeadsOneOn(start, events, woken, Sends(id), now);
        events := events + [Sends(id)];
        more := Yield(wakes(turn + 1), id, Swapping(result));
        turn := turn + 2;
        woken := With(map[id := Swapping(result)]);
        LeadsOn(start, events, now, more, woken);
        events := events + more;
        if buffer.Some? {
          var queued := buffer.value;
          buffer := None;
          OnlySender(id, Swapping(result), Swapped(result, queued));
          now := With(map[id := Swapped(result, queued)]);
          LeadsOneOn(start, events, woken, Swaps(id), now);
          events := events + [Swaps(id)];
          if !(result.at > queued.at) {
            if buffer.None? {
              buffer := Some(queued);
            }
            OnlySender(id, Restoring(queued), Restoring(queued));
            LeadsOneOn(start, events, now, Restores(id), With(map[]));
            events := events + [Restores(id)];
            break;
          }
        } else {
          LeadsOneOn(start, events, woken, Swaps(id), With(map[id := Trying(result)]));
          events := events + [Swaps(id)];
        }
      }
      StaysCovered(start, events, With(map[]), result.at);
      forall at | Covered(start, at) ensures Covered(With(map[]), at) {
        StaysCovered(start, events, With(map[]), at);
      }
    }
  }
}
