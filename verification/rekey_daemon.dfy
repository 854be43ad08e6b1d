/** The code that walks the rotation protocol: rekeyAdd and rekeyFinalize (internal/backup/rekey.go),
    rekeyBackupNow (cmd/ownbased/backup_scheduler.go) and the client's runBackupRekey
    (cmd/ownbasectl/base_backup.go). Every method appends the protocol steps it takes to a history,
    so each intermediate state, the ones a crash can expose included, is a protocol state; and when
    no external call fails the whole run converges. */
module RekeyDaemon {
  import opened Text
  import opened RekeyProtocol

  /** One entry of `restic key list --json`. */
  datatype ResticKey = ResticKey(id: KeyId, current: bool)

  datatype RekeyResult = RekeyResult(alreadyDone: bool, keysRemoved: nat)

  /** `list` names every key once. */
  ghost predicate Lists(list: seq<ResticKey>, keys: map<KeyId, Password>) {
    && (forall i | 0 <= i < |list| :: list[i].id in keys)
    && (forall i, j | 0 <= i < j < |list| :: list[i].id != list[j].id)
    && (forall id | id in keys :: exists i :: 0 <= i < |list| && list[i].id == id)
  }

  ghost predicate MarksSession(list: seq<ResticKey>, keys: map<KeyId, Password>, p: Password) {
    && (exists i :: 0 <= i < |list| && list[i].current)
    && (forall i | 0 <= i < |list| && list[i].current :: list[i].id in keys && keys[list[i].id] == p)
  }

  /** The keys still there are the session's and those the list names from `k` on. */
  ghost predicate Pending(list: seq<ResticKey>, k: nat, ids: set<KeyId>, current: KeyId) {
    && (forall i, j | k <= i < j < |list| :: list[i].id != list[j].id)
    && (forall j | k <= j < |list| :: list[j].id in ids)
    && (forall id | id in ids :: id == current || exists j :: k <= j < |list| && list[j].id == id)
  }

  lemma PendingStart(list: seq<ResticKey>, keys: map<KeyId, Password>, current: KeyId)
    requires Lists(list, keys)
    ensures Pending(list, 0, keys.Keys, current)
  {
  }

  lemma PendingStep(list: seq<ResticKey>, k: nat, ids: set<KeyId>, current: KeyId)
    requires k < |list| && Pending(list, k, ids, current)
    ensures list[k].id in ids
    ensures Pending(list, k + 1, if list[k].id == current then ids else ids - {list[k].id}, current)
  {
  }

  lemma PendingEnd(list: seq<ResticKey>, keys: map<KeyId, Password>, current: KeyId)
    requires Pending(list, |list|, keys.Keys, current) && current in keys
    ensures keys == map[current := keys[current]] && |keys| == 1 && keys.Keys - {current} == {}
  {
    assert keys.Keys == {current};
  }

  /** What a successful finalize did: one key is left and it opens with the new password. */
  ghost predicate Finalized(before: map<KeyId, Password>, after: map<KeyId, Password>, p: Password,
                            result: RekeyResult) {
    && OnlyKey(after, p)
    && result.keysRemoved + 1 == |before|
    && (result.alreadyDone <==> |before| == 1)
  }

  /** The secret was rewritten with the new password and is otherwise unchanged. */
  ghost predicate Swapped(before: SecretFile, after: SecretFile, p: Password) {
    before.Held? && after == Held(before.creds[RESTIC_PASSWORD := p])
  }

  ghost predicate OnlyKey(keys: map<KeyId, Password>, p: Password) {
    exists id: KeyId :: keys == map[id := p]
  }

  class Base {
    var keys: map<KeyId, Password>
    var secret: SecretFile
    var vault: Password
    var slot: Slot
    var queue: multiset<Request>
    var client: Client

    /** How many external calls may still fail, and how often a backup or a drill may still take the slot. */
    var faults: nat
    var visits: nat

    ghost var states: seq<State>
    ghost var events: seq<Event>

    ghost function Abs(): State
      reads this
    {
      State(keys, secret, vault, slot, queue, client)
    }

    /** The history is an orderly path of the protocol that ends here. */
    ghost predicate Valid()
      reads this
    {
      states != [] && IsOrderly(states, events) && states[|states| - 1] == Abs()
    }

    /** And it began with the stores in agreement. */
    ghost predicate Sound()
      reads this
    {
      Valid() && Inv(states[0])
    }

    /** So they still are. */
    lemma SoundMeans()
      requires Sound()
      ensures Inv(Abs())
    {
      hide Inv, Step, Orderly;
      InvKept(states, events, |states| - 1);
    }

    constructor (s: State, faults: nat, visits: nat)
      ensures Valid() && Abs() == s && states == [s]
      ensures this.faults == faults && this.visits == visits
    {
      this.keys, this.secret, this.vault := s.keys, s.secret, s.vault;
      this.slot, this.queue, this.client := s.slot, s.queue, s.client;
      this.faults, this.visits := faults, visits;
      this.states, this.events := [s], [];
    }

    /** Files the step that led from the last recorded state to the present one. */
    ghost method Record(e: Event)
      requires states != [] && IsOrderly(states, events) && Step(states[|states| - 1], e, Abs())
      requires Orderly(states[|states| - 1], e)
      modifies this`states, this`events
      ensures Valid() && old(states) <= states
    {
      hide Step, Orderly;
      states, events := states + [Abs()], events + [e];
    }

    /** One external call: it fails only while faults remain. */
    method Fails() returns (bad: bool)
      modifies this`faults
      ensures faults <= old(faults) && (bad ==> old(faults) > 0)
    {
      bad := false;
      if faults > 0 {
        bad := *;
        if bad {
          faults := faults - 1;
        }
      }
    }

    method PasswordOpens(p: Password) returns (opens: bool)
      modifies this`faults
      ensures faults <= old(faults)
      ensures opens ==> Opens(keys, p)
      ensures old(faults) == 0 ==> opens == Opens(keys, p)
    {
      var bad := Fails();
      opens := !bad && Opens(keys, p);
    }

    /** restic key add, after its own check that the password is not there already. */
    method KeyAdd(p: Password) returns (ok: bool)
      requires Valid() && slot.AddKeying? && slot.password == p
      modifies this`keys, this`slot, this`faults, this`states, this`events
      ensures Valid() && old(states) <= states && faults <= old(faults)
      ensures ok ==> slot == AddVerifying(p) && Opens(keys, p)
      ensures !ok ==> slot == Replying(Request(Add, p), false)
      ensures old(faults) == 0 && Opens(old(keys), p) ==> ok && keys == old(keys)
      ensures old(faults) == 0 && !Opens(old(keys), p) ==>
        && ok == (old(slot).loaded.Some? && Opens(old(keys), old(slot).loaded.value))
        && (ok ==> exists id: KeyId :: id !in old(keys) && keys == old(keys)[id := p])
    {
      hide Opens;
      var loaded := slot.loaded;
      var already := PasswordOpens(p);
      if already {
        slot := AddVerifying(p);
        Record(AddsKey(AlreadyOpens));
        return true;
      }
      var bad := Fails();
      if loaded.Some? && Opens(keys, loaded.value) {
        var took := true;
        if bad {
          took := *;
        }
        if took {
          var id := FreshId(keys.Keys);
          InsertOpens(keys, id, p);
          keys := keys[id := p];
          slot := if bad then Replying(Request(Add, p), false) else AddVerifying(p);
          Record(AddsKey(if bad then AddedButFailed(id) else Added(id)));
          return !bad;
        }
      }
      slot := Replying(Request(Add, p), false);
      Record(AddsKey(NotAdded));
      return false;
    }

    /** Moves the slot on by one step that touches nothing else. */
    method Advance(next: Slot, ghost e: Event)
      requires states != [] && IsOrderly(states, events) && Step(states[|states| - 1], e, Abs().(slot := next))
      requires !e.ClientBegins?
      modifies this`slot, this`states, this`events
      ensures Valid() && old(states) <= states && slot == next
    {
      hide Step;
      slot := next;
      Record(e);
    }

    /** The second half of the add phase: adds the key, then makes sure that it opens. */
    method AddThenVerify(p: Password) returns (ok: bool)
      requires Valid() && slot.AddKeying? && slot.password == p
      modifies this`keys, this`slot, this`faults, this`states, this`events
      ensures Valid() && old(states) <= states && faults <= old(faults)
      ensures slot == Replying(Request(Add, p), ok)
      ensures ok ==> Opens(keys, p)
      ensures old(faults) == 0 && Opens(old(keys), p) ==> ok && keys == old(keys)
      ensures old(faults) == 0 && !Opens(old(keys), p) ==>
        ok == (old(slot).loaded.Some? && Opens(old(keys), old(slot).loaded.value))
    {
      hide Opens, Stored, Step, IsOrderly;
      var added := KeyAdd(p);
      if !added {
        return false;
      }
      ok := VerifyAdded(p);
    }

    /** The last check of the add phase. */
    method VerifyAdded(p: Password) returns (ok: bool)
      requires Valid() && slot == AddVerifying(p)
      modifies this`slot, this`faults, this`states, this`events
      ensures Valid() && old(states) <= states && faults <= old(faults)
      ensures slot == Replying(Request(Add, p), ok) && (ok ==> Opens(keys, p))
      ensures old(faults) == 0 ==> ok == Opens(keys, p)
    {
      hide Opens, Stored, Step, IsOrderly;
      ok := PasswordOpens(p);
      AddSteps(Abs(), p, None);
      Advance(Replying(Request(Add, p), ok), AddVerifies(ok));
    }

    /** The add phase once its credentials are loaded. */
    method CheckThenAdd(p: Password) returns (ok: bool)
      requires Valid() && slot.AddChecking? && slot.password == p
      modifies this`keys, this`slot, this`faults, this`states, this`events
      ensures Valid() && old(states) <= states && faults <= old(faults)
      ensures slot == Replying(Request(Add, p), ok)
      ensures ok ==> Opens(keys, p)
      ensures old(faults) == 0 ==>
        ok == (Opens(old(keys), p) || (old(slot).loaded.Some? && Opens(old(keys), old(slot).loaded.value)))
      ensures old(faults) == 0 && Opens(old(keys), p) ==> keys == old(keys)
    {
      hide Opens, Stored, Step, IsOrderly;
      var loaded := slot.loaded;
      var opens := PasswordOpens(p);
      AddSteps(Abs(), p, loaded);
      if opens {
        Advance(Replying(Request(Add, p), true), AddChecks(true));
        return true;
      }
      Advance(AddKeying(p, loaded), AddChecks(false));
      ok := AddThenVerify(p);
    }

    /** The add phase, from the moment it holds the slot until its reply is ready. */
    method RekeyAdd(p: Password) returns (ok: bool)
      requires Valid() && slot == AddLoading(p)
      modifies this`keys, this`slot, this`faults, this`states, this`events
      ensures Valid() && old(states) <= states && faults <= old(faults)
      ensures slot == Replying(Request(Add, p), ok)
      ensures ok ==> Opens(keys, p)
      ensures old(faults) == 0 ==>
        ok == (Opens(old(keys), p) || (Stored(secret).Some? && Opens(old(keys), Stored(secret).value)))
      ensures old(faults) == 0 && Opens(old(keys), p) ==> keys == old(keys)
    {
      hide Opens, Stored, Step, IsOrderly;
      AddSteps(Abs(), p, Stored(secret));
      Advance(AddChecking(p, Stored(secret)), AddLoads);
      ok := CheckThenAdd(p);
    }

    /** restic key list under the new password: every key once, the session's own marked. */
    method KeyList(p: Password) returns (list: Option<seq<ResticKey>>)
      requires Opens(keys, p)
      modifies this`faults
      ensures faults <= old(faults) && (old(faults) == 0 ==> list.Some?)
      ensures list.Some? ==> Lists(list.value, keys) && |list.value| == |keys| && MarksSession(list.value, keys, p)
    {
      var bad := Fails();
      if bad {
        return None;
      }
      var session :| session in keys && keys[session] == p;
      var out: seq<ResticKey> := [];
      var rest := keys.Keys;
      while rest != {}
        invariant rest <= keys.Keys && |out| + |rest| == |keys|
        invariant forall i | 0 <= i < |out| :: out[i].id in keys && out[i].id !in rest
        invariant forall i, j | 0 <= i < j < |out| :: out[i].id != out[j].id
        invariant forall id | id in keys && id !in rest :: exists i :: 0 <= i < |out| && out[i].id == id
        invariant forall i | 0 <= i < |out| :: out[i].current <==> out[i].id == session
      {
        var id :| id in rest;
        ghost var before, restBefore := out, rest;
        out, rest := out + [ResticKey(id, id == session)], rest - {id};
        forall k | k in keys && k !in rest ensures exists i :: 0 <= i < |out| && out[i].id == k {
          if k == id {
            assert out[|before|].id == k;
          } else {
            var i :| 0 <= i < |before| && before[i].id == k;
            assert out[i].id == k;
          }
        }
      }
      assert exists i :: 0 <= i < |out| && out[i].id == session;
      return Some(out);
    }

    /** writeBackupResticPassword: only a readable secret can be merged into, and a failed write
        may leave it torn. */
    method WriteSecret(p: Password) returns (ok: bool)
      requires Valid() && slot == Writing(p)
      modifies this`secret, this`slot, this`faults, this`states, this`events
      ensures Valid() && old(states) <= states && faults <= old(faults)
      ensures ok ==> old(secret).Held? && secret == Held(old(secret).creds[RESTIC_PASSWORD := p]) && slot == Checking(p)
      ensures !ok ==> secret in {old(secret), Torn} && slot == Replying(Request(Finalize, p), false)
      ensures old(faults) == 0 ==> ok == old(secret).Held? && (!ok ==> secret == old(secret))
    {
      hide Opens;
      var bad := Fails();
      if secret.Torn? || bad {
        var tore := false;
        if secret.Held? {
          tore := *;
        }
        secret := if tore then Torn else secret;
        slot := Replying(Request(Finalize, p), false);
        Record(SecretWrites(if tore then TornByWrite else NotWritten));
        return false;
      }
      secret := Held(secret.creds[RESTIC_PASSWORD := p]);
      slot := Checking(p);
      Record(SecretWrites(Written));
      return true;
    }

    /** One restic key remove of the finalize loop. */
    method KeyRemove(id: KeyId) returns (ok: bool)
      requires Valid() && slot.Removing? && id in slot.todo && slot.current in keys && id in keys
      modifies this`keys, this`slot, this`faults, this`states, this`events
      ensures Valid() && old(states) <= states && faults <= old(faults)
      ensures keys in {old(keys), old(keys) - {id}}
      ensures ok ==> slot == old(slot).(todo := old(slot).todo - {id})
      ensures ok ==> keys == old(keys) - {id} && keys.Keys == old(keys).Keys - {id} && |keys| == |old(keys)| - 1
      ensures !ok ==> old(faults) > 0 && slot == Replying(Request(Finalize, old(slot).password), false)
    {
      hide Opens, Stored, IsOrderly, Step, Orderly;
      ghost var s := Abs();
      var bad := Fails();
      var took := true;
      if bad {
        took := *;
      }
      RemovalStep(s, id, took, !bad);
      if took {
        RemoveOne(keys, id);
        keys := keys - {id};
      }
      slot := if bad then Replying(Request(Finalize, slot.password), false)
              else slot.(todo := slot.todo - {id});
      Record(RemovesKey(id, took, !bad));
      return !bad;
    }

    /** The finalize phase after the secret was swapped: every key but the session's is removed. */
    method RekeyFinalize(p: Password) returns (result: Option<RekeyResult>)
      requires Valid() && slot == Checking(p)
      modifies this`keys, this`slot, this`faults, this`states, this`events
      ensures Valid() && old(states) <= states && faults <= old(faults)
      ensures slot == Replying(Request(Finalize, p), result.Some?)
      ensures old(faults) == 0 ==> result.Some? == Opens(old(keys), p)
      ensures result.Some? ==> Finalized(old(keys), keys, p, result.value)
    {
      hide Opens, Stored, Step, IsOrderly, Lists, MarksSession;
      var opens := PasswordOpens(p);
      CheckSteps(Abs(), p);
      if !opens {
        Advance(Replying(Request(Finalize, p), false), FinalizeChecks(false));
        return None;
      }
      Advance(Listing(p), FinalizeChecks(true));
      result := RemoveAllBut(p);
    }

    /** Lists the keys and finds the session's own. */
    method ListKeys(p: Password) returns (list: Option<seq<ResticKey>>, current: KeyId)
      requires Valid() && slot == Listing(p) && Opens(keys, p)
      modifies this`slot, this`faults, this`states, this`events
      ensures Valid() && old(states) <= states && faults <= old(faults)
      ensures old(faults) == 0 ==> list.Some?
      ensures list.None? ==> slot == Replying(Request(Finalize, p), false)
      ensures list.Some? ==> Lists(list.value, keys) && |list.value| == |keys| && current in keys && keys[current] == p
      ensures list.Some? ==> slot == Removing(p, current, keys.Keys - {current})
    {
      hide Opens, Stored, Step, IsOrderly, Lists, MarksSession;
      list := KeyList(p);
      current := 0;
      ListSteps(Abs(), p, current);
      if list.None? {
        Advance(Replying(Request(Finalize, p), false), ListFails);
        return;
      }
      current := SessionKey(list.value, p);
      ListSteps(Abs(), p, current);
      Advance(Removing(p, current, keys.Keys - {current}), ListsKeys(Some(current)));
    }

    /** Removes every key but the session's. */
    method RemoveAllBut(p: Password) returns (result: Option<RekeyResult>)
      requires Valid() && slot == Listing(p) && Opens(keys, p)
      modifies this`keys, this`slot, this`faults, this`states, this`events
      ensures Valid() && old(states) <= states && faults <= old(faults)
      ensures slot == Replying(Request(Finalize, p), result.Some?)
      ensures old(faults) == 0 ==> result.Some?
      ensures result.Some? ==> Finalized(old(keys), keys, p, result.value)
    {
      hide Opens, Stored, Step, IsOrderly, Lists, MarksSession, Finalized, OnlyKey;
      var list, current := ListKeys(p);
      if list.None? {
        return None;
      }
      var removed := RemoveOthers(p, current, list.value);
      if removed.None? {
        return None;
      }
      OneKeyLeft(old(keys), keys, p, current, RekeyResult(removed.value == 0 && |list.value| == 1, removed.value));
      DoneStep(Abs(), p, current);
      Advance(Replying(Request(Finalize, p), true), RemovalDone);
      return Some(RekeyResult(removed.value == 0 && |list.value| == 1, removed.value));
    }

    /** The first key marked current. */
    method SessionKey(list: seq<ResticKey>, p: Password) returns (current: KeyId)
      requires MarksSession(list, keys, p)
      ensures current in keys && keys[current] == p
    {
      var i := 0;
      while !list[i].current
        invariant 0 <= i < |list| && forall j | 0 <= j < i :: !list[j].current
        decreases |list| - i
      {
        i := i + 1;
      }
      return list[i].id;
    }

    /** The removal loop; it gives up at the first key that cannot be removed. */
    method RemoveOthers(p: Password, current: KeyId, list: seq<ResticKey>) returns (removed: Option<nat>)
      requires Valid() && Lists(list, keys) && current in keys && keys[current] == p
      requires slot == Removing(p, current, keys.Keys - {current})
      modifies this`keys, this`slot, this`faults, this`states, this`events
      ensures Valid() && old(states) <= states && faults <= old(faults)
      ensures removed.Some? ==>
        keys == map[current := p] && slot == Removing(p, current, {}) && removed.value == |old(keys)| - 1
      ensures removed.None? ==> old(faults) > 0 && slot == Replying(Request(Finalize, p), false)
    {
      hide *;
      PendingStart(list, keys, current);
      var n := 0;
      for k := 0 to |list|
        invariant Valid() && old(states) <= states && faults <= old(faults)
        invariant slot == Removing(p, current, keys.Keys - {current})
        invariant current in keys && keys[current] == p
        invariant Pending(list, k, keys.Keys, current)
        invariant n + |keys| == |old(keys)|
      {
        PendingStep(list, k, keys.Keys, current);
        if list[k].id == current {
          continue;
        }
        RemoveTwo(keys.Keys, current, list[k].id);
        var ok := KeyRemove(list[k].id);
        if !ok {
          return None;
        }
        n := n + 1;
      }
      PendingEnd(list, keys, current);
      return Some(n);
    }

    /** The finalize phase, from the moment it holds the slot: the secret is swapped first. */
    method SwapThenFinalize(p: Password) returns (ok: bool)
      requires Valid() && slot == Writing(p)
      modifies this`keys, this`secret, this`slot, this`faults, this`states, this`events
      ensures Valid() && old(states) <= states && faults <= old(faults)
      ensures slot == Replying(Request(Finalize, p), ok)
      ensures ok ==> OnlyKey(keys, p) && Swapped(old(secret), secret, p)
      ensures old(faults) == 0 && Opens(old(keys), p) ==>
        ok == old(secret).Held? && (!ok ==> secret == old(secret) && keys == old(keys))
      ensures old(faults) == 0 && old(secret).Held? ==> secret.Held?
    {
      hide Opens, Stored, OnlyKey, IsOrderly, Step;
      var wrote := WriteSecret(p);
      if !wrote {
        return false;
      }
      var result := RekeyFinalize(p);
      return result.Some?;
    }

    /** One rekey request, from taking the backup slot to having an answer for it. */
    method RekeyBackupNow(phase: Phase, p: Password) returns (ok: bool)
      requires Valid() && slot.Free? && Request(phase, p) in queue
      modifies this`keys, this`secret, this`slot, this`queue, this`faults, this`states, this`events
      ensures Valid() && old(states) <= states && faults <= old(faults)
      ensures slot == Replying(Request(phase, p), ok) && queue == old(queue) - multiset{Request(phase, p)}
      ensures phase.Add? ==> secret == old(secret) && (ok ==> Opens(keys, p))
      ensures phase.Finalize? && ok ==> OnlyKey(keys, p) && Swapped(old(secret), secret, p)
      ensures old(faults) == 0 && phase.Add? ==>
        ok == (Opens(old(keys), p) || (Stored(secret).Some? && Opens(old(keys), Stored(secret).value)))
      ensures old(faults) == 0 && phase.Finalize? && Opens(old(keys), p) ==>
        ok == old(secret).Held? && (!ok ==> secret == old(secret) && keys == old(keys))
      ensures old(faults) == 0 && old(secret).Held? ==> secret.Held?
    {
      hide Opens, Stored, OnlyKey, Swapped, IsOrderly, Step;
      RunsStep(Abs(), Request(phase, p));
      queue := queue - multiset{Request(phase, p)};
      slot := if phase.Add? then AddLoading(p) else Writing(p);
      Record(RequestRuns(Request(phase, p)));
      if phase.Add? {
        ok := RekeyAdd(p);
      } else {
        ok := SwapThenFinalize(p);
      }
    }

    /** Releases the slot and delivers the answer, if whoever asked is still there. */
    method Reply(delivered: bool)
      requires Valid() && slot.Replying?
      modifies this`slot, this`client, this`states, this`events
      ensures Valid() && old(states) <= states
      ensures slot.Free?
      ensures client == if delivered then AfterReply(old(client), old(slot).request, old(slot).ok) else old(client)
    {
      hide IsOrderly;
      if delivered {
        client := AfterReply(client, slot.request, slot.ok);
      }
      slot := Free;
      Record(Replies(delivered));
    }

    // --------------------------------------------------------- what else uses the slot

    /** Backups and drills take the slot in between, as often as `visits` allows. */
    method Visit()
      requires Sound() && slot.Free?
      modifies this`slot, this`visits, this`states, this`events
      ensures Sound() && old(states) <= states && slot.Free?
    {
      hide Stored, Step, IsOrderly, Inv;
      while visits > 0
        invariant Sound() && old(states) <= states && slot.Free?
      {
        var comes := *;
        if !comes {
          return;
        }
        visits := visits - 1;
        VisitSteps(Abs());
        Advance(BackupStarting, BackupStarts);
        VisitSteps(Abs());
        Advance(BackupRunning(Stored(secret)), BackupLoads);
        VisitSteps(Abs());
        Advance(Free, BackupEnds);
      }
    }

    /** Removes what is left of the keys a finalize was removing. */
    method RemoveRest() returns (ok: bool)
      requires Valid() && slot.Removing? && slot.current in keys && slot.todo == keys.Keys - {slot.current}
      modifies this`keys, this`slot, this`faults, this`states, this`events
      ensures Valid() && old(states) <= states && faults <= old(faults) && slot.Replying?
    {
      hide Step, IsOrderly, Opens;
      var p, current := slot.password, slot.current;
      while slot.todo != {}
        invariant Valid() && old(states) <= states && faults <= old(faults)
        invariant slot.Removing? && slot.password == p && slot.current == current
        invariant current in keys && slot.todo == keys.Keys - {current}
        decreases slot.todo
      {
        var id :| id in slot.todo;
        RemoveTwo(keys.Keys, current, id);
        ok := KeyRemove(id);
        if !ok {
          return;
        }
      }
      DoneStep(Abs(), p, current);
      Advance(Replying(Request(Finalize, p), true), RemovalDone);
      ok := true;
    }

    /** Runs the phase that holds the slot to its end, from wherever it is. */
    method FinishPhase()
      requires Valid() && Inv(Abs()) && !slot.Free? && !slot.BackupStarting? && !slot.BackupRunning?
      modifies this`keys, this`secret, this`slot, this`faults, this`states, this`events
      ensures Valid() && old(states) <= states && faults <= old(faults) && slot.Replying?
      ensures old(faults) == 0 && old(secret).Held? ==> secret.Held?
    {
      hide Opens, Stored, Step, IsOrderly, QueueInv, OnlyKey, Swapped, Finalized;
      var ok, result;
      match slot
      case AddLoading(p) => ok := RekeyAdd(p);
      case AddChecking(p, _) => ok := CheckThenAdd(p);
      case AddKeying(p, _) => ok := AddThenVerify(p);
      case AddVerifying(p) => ok := VerifyAdded(p);
      case Writing(p) => ok := SwapThenFinalize(p);
      case Checking(p) => result := RekeyFinalize(p);
      case Listing(p) => result := RemoveAllBut(p);
      case Removing(_, _, _) => ok := RemoveRest();
      case Replying(_, _) =>
    }

    /** Runs whatever holds the slot to its end; nobody waits for its answer. */
    method FinishSlot()
      requires Sound()
      modifies this`keys, this`secret, this`slot, this`faults, this`client, this`states, this`events
      ensures Sound() && old(states) <= states && faults <= old(faults)
      ensures slot.Free? && client == old(client)
      ensures old(faults) == 0 && old(secret).Held? ==> secret.Held?
    {
      SoundMeans();
      hide Opens, Stored, Step, IsOrderly, Inv;
      if slot.BackupStarting? {
        VisitSteps(Abs());
        Advance(BackupRunning(Stored(secret)), BackupLoads);
      }
      if slot.BackupRunning? {
        VisitSteps(Abs());
        Advance(Free, BackupEnds);
      }
      if slot.Free? {
        return;
      }
      FinishPhase();
      Reply(false);
    }

    /** Serves a request whose client has gone. */
    method ServeOne(r: Request)
      requires Sound() && slot.Free? && r in queue
      modifies this`keys, this`secret, this`slot, this`queue, this`client, this`faults, this`states, this`events
      ensures Sound() && old(states) <= states && faults <= old(faults)
      ensures slot.Free? && queue == old(queue) - multiset{r} && client == old(client)
      ensures old(faults) == 0 && old(secret).Held? ==> secret.Held?
    {
      hide Opens, Stored, Step, IsOrderly, Inv, OnlyKey, Swapped;
      var ok := RekeyBackupNow(r.phase, r.password);
      Reply(false);
    }

    /** Serves requests that others left in the queue, in any order and as many as it likes, with
        backups and drills between them. Those in `reserved` stay. */
    method ServeOthers(reserved: multiset<Request>)
      requires Sound() && slot.Free? && reserved <= queue
      modifies this`keys, this`secret, this`slot, this`queue, this`client, this`faults, this`visits
      modifies this`states, this`events
      ensures Sound() && old(states) <= states && faults <= old(faults)
      ensures slot.Free? && reserved <= queue && client == old(client)
      ensures old(faults) == 0 && old(secret).Held? ==> secret.Held?
    {
      hide Opens, Stored, Step, IsOrderly, Inv, OnlyKey, Swapped, Sound, Valid, Abs;
      Visit();
      while queue - reserved != multiset{}
        invariant Sound() && old(states) <= states && faults <= old(faults)
        invariant slot.Free? && reserved <= queue && client == old(client)
        invariant old(faults) == 0 && old(secret).Held? ==> secret.Held?
        decreases |queue|
      {
        var more := *;
        if !more {
          return;
        }
        var r :| r in queue - reserved;
        OneLess(queue, reserved, r);
        ServeOne(r);
        Visit();
      }
    }

    // -------------------------------------------------------------------- the client's run

    /** saveProfile: escrows the new password and, once that is reported saved, posts finalize. */
    method Escrow(p: Password) returns (ok: bool)
      requires Valid() && client == Vaulting(p)
      modifies this`vault, this`client, this`queue, this`faults, this`states, this`events
      ensures Valid() && old(states) <= states && faults <= old(faults)
      ensures ok ==> vault == p && client == Waiting(Request(Finalize, p))
      ensures ok ==> queue == old(queue) + multiset{Request(Finalize, p)}
      ensures !ok ==> old(faults) > 0 && client == Idle && queue == old(queue)
    {
      hide Opens;
      var bad := Fails();
      var took := true;
      if bad {
        took := *;
      }
      if took {
        vault := p;
      }
      client := if bad then Idle else Waiting(Request(Finalize, p));
      queue := if bad then queue else queue + multiset{Request(Finalize, p)};
      Record(VaultSaves(took, !bad));
      return !bad;
    }

    /** The client's first step. */
    method Begin(p: Password)
      requires Valid() && client.Idle? && p != "" && MayBegin(Abs(), p)
      modifies this`client, this`queue, this`states, this`events
      ensures Valid() && old(states) <= states
      ensures client == Waiting(Request(Add, p)) && queue == old(queue) + multiset{Request(Add, p)}
    {
      hide IsOrderly, MayBegin;
      client, queue := Waiting(Request(Add, p)), queue + multiset{Request(Add, p)};
      Record(ClientBegins(p));
    }

    /** A client that goes away without another word. */
    method Abandon()
      requires Valid()
      modifies this`client, this`states, this`events
      ensures Valid() && old(states) <= states && client.Idle?
    {
      hide IsOrderly;
      client := Idle;
      Record(ClientStops);
    }

    /** One POST /backup/rekey and its answer, others served before it. */
    method Post(phase: Phase, p: Password) returns (ok: bool)
      requires Sound() && slot.Free? && Request(phase, p) in queue && client == Waiting(Request(phase, p))
      modifies this`keys, this`secret, this`slot, this`queue, this`client, this`faults, this`visits
      modifies this`states, this`events
      ensures Sound() && old(states) <= states && faults <= old(faults)
      ensures slot.Free? && client == if ok && phase.Add? then Vaulting(p) else Idle
      ensures phase.Finalize? && ok ==> OnlyKey(keys, p) && secret.Held? && Stored(secret) == Some(p)
      ensures old(faults) == 0 && old(secret).Held? ==> ok && secret.Held?
    {
      hide Opens, Stored, OnlyKey, Swapped, IsOrderly, Step, Inv;
      ServeOthers(multiset{Request(phase, p)});
      SoundMeans();
      if secret.Held? {
        TurnSucceeds(Abs(), phase, p);
      }
      ghost var before := secret;
      ok := RekeyBackupNow(phase, p);
      if phase.Finalize? && ok {
        SwappedStores(before, secret, p);
      }
      Reply(true);
    }

    /** The second half of a rekey, once the new key is in: escrow, then finalize. */
    method EscrowAndFinalize(p: Password) returns (ok: bool)
      requires Sound() && slot.Free? && client == Vaulting(p)
      modifies this`keys, this`secret, this`vault, this`slot, this`queue, this`client, this`faults, this`visits,
        this`states, this`events
      ensures Sound() && old(states) <= states && faults <= old(faults)
      ensures slot.Free? && client.Idle?
      ensures ok ==> OnlyKey(keys, p) && vault == p && secret.Held? && Stored(secret) == Some(p)
      ensures old(faults) == 0 && old(secret).Held? ==> ok
    {
      hide Opens, Stored, OnlyKey, IsOrderly, Swapped, MayBegin, Inv, AfterReply;
      ServeOthers(multiset{});
      var escrowed := Escrow(p);
      if !escrowed {
        return false;
      }
      ok := Post(Finalize, p);
    }

    /** One rekey as the operator runs it, from any state in which it may be begun: something may hold
        the slot, requests of abandoned rekeys may be queued, and backups and drills come in between.
        It stops at the first failure. Success means that the three stores agree on `p` alone and that
        nothing else in the secret changed. When nothing fails it succeeds exactly if the secret was
        readable. */
    method RunBackupRekey(p: Password) returns (ok: bool)
      requires Sound() && client.Idle? && p != "" && MayBegin(Abs(), p)
      modifies this
      ensures Sound() && old(states) <= states
      ensures slot.Free? && client.Idle?
      ensures ok ==> OnlyKey(keys, p) && vault == p && Swapped(old(secret), secret, p)
      ensures old(faults) == 0 && old(secret).Held? ==> ok
    {
      hide Opens, Stored, OnlyKey, IsOrderly, Swapped, MayBegin, Inv, AfterReply;
      ghost var first: nat := |states| - 1;
      Begin(p);
      FinishSlot();
      var added := Post(Add, p);
      if !added {
        return false;
      }
      ok := EscrowAndFinalize(p);
      if ok {
        SwappedSince(states, events, first, |states| - 1, p);
      }
    }
  }

  /** Convergence. Whatever an orderly run has led to, whatever holds the slot or is queued there and
      however far a removal of keys had got, one rekey with any password `p` that may be begun, in which
      no call fails, succeeds exactly if the secret is readable: then only `p` opens the repository, and
      the secret and the vault both hold `p`. `visits` is how many backups and drills come in between. */
  method RekeyAgain(ghost states: seq<State>, ghost events: seq<Event>, ghost i: nat, s: State, p: Password,
                    visits: nat)
    returns (b: Base, ok: bool)
    requires IsRun(states, events) && i < |states| && s == states[i]
    requires p != "" && MayBegin(s, p)
    ensures ok <==> s.secret.Held?
    ensures ok ==> OnlyKey(b.keys, p) && b.vault == p && Swapped(s.secret, b.secret, p)
    ensures b.Sound() && b.states[0] == s
  {
    InvHolds(states, events, i);
    hide Inv, Step, Opens, Stored, OnlyKey, IsRun;
    b := new Base(s, 0, visits);
    if !b.client.Idle? {
      b.Abandon();
    }
    ok := b.RunBackupRekey(p);
  }

  method FreshId(s: set<KeyId>) returns (id: KeyId)
    ensures id !in s
  {
    var n: nat := 0;
    var rest := s;
    while rest != {}
      invariant forall k | k in s && k !in rest :: k < n
    {
      var k :| k in rest;
      rest := rest - {k};
      if k >= n {
        n := k + 1;
      }
    }
    return n;
  }

  /** The steps of the add phase that only move the slot. */
  lemma AddSteps(s: State, p: Password, loaded: Option<Password>)
    ensures s.slot == AddLoading(p) && loaded == Stored(s.secret) ==>
      Step(s, AddLoads, s.(slot := AddChecking(p, loaded)))
    ensures s.slot == AddChecking(p, loaded) ==>
      && (Opens(s.keys, p) ==> Step(s, AddChecks(true), s.(slot := Replying(Request(Add, p), true))))
      && Step(s, AddChecks(false), s.(slot := AddKeying(p, loaded)))
    ensures s.slot == AddVerifying(p) ==>
      && (Opens(s.keys, p) ==> Step(s, AddVerifies(true), s.(slot := Replying(Request(Add, p), true))))
      && Step(s, AddVerifies(false), s.(slot := Replying(Request(Add, p), false)))
  {
    hide Opens, Stored;
  }

  lemma RemovalStep(s: State, id: KeyId, effect: bool, reported: bool)
    requires s.slot.Removing? && id in s.slot.todo && (reported ==> effect)
    ensures var slot := if reported then s.slot.(todo := s.slot.todo - {id})
                        else Replying(Request(Finalize, s.slot.password), false);
      var t := s.(keys := if effect then s.keys - {id} else s.keys, slot := slot);
      Step(s, RemovesKey(id, effect, reported), t) && Orderly(s, RemovesKey(id, effect, reported))
  {
  }

  lemma RemoveOne(keys: map<KeyId, Password>, id: KeyId)
    requires id in keys
    ensures (keys - {id}).Keys == keys.Keys - {id} && |keys - {id}| == |keys| - 1
  {
    assert (keys - {id}).Keys == keys.Keys - {id};
    assert |keys.Keys - {id}| == |keys.Keys| - 1;
    assert |(keys - {id}).Keys| == |keys - {id}| && |keys.Keys| == |keys|;
  }

  lemma RemoveTwo<T>(s: set<T>, x: T, y: T)
    ensures s - {x} - {y} == s - {y} - {x}
  {
  }

  lemma CheckSteps(s: State, p: Password)
    requires s.slot == Checking(p)
    ensures Opens(s.keys, p) ==> Step(s, FinalizeChecks(true), s.(slot := Listing(p)))
    ensures Step(s, FinalizeChecks(false), s.(slot := Replying(Request(Finalize, p), false)))
  {
    hide Opens;
  }

  lemma ListSteps(s: State, p: Password, id: KeyId)
    requires s.slot == Listing(p)
    ensures Step(s, ListFails, s.(slot := Replying(Request(Finalize, p), false)))
    ensures id in s.keys && s.keys[id] == p ==>
      Step(s, ListsKeys(Some(id)), s.(slot := Removing(p, id, s.keys.Keys - {id})))
  {
    hide Opens;
  }

  lemma OneKeyLeft(before: map<KeyId, Password>, after: map<KeyId, Password>, p: Password, id: KeyId,
                   result: RekeyResult)
    requires after == map[id := p] && result.keysRemoved + 1 == |before|
    requires result.alreadyDone == (result.keysRemoved == 0 && |before| == 1)
    ensures Finalized(before, after, p, result)
  {
  }

  lemma DoneStep(s: State, p: Password, id: KeyId)
    requires s.slot == Removing(p, id, {})
    ensures Step(s, RemovalDone, s.(slot := Replying(Request(Finalize, p), true)))
  {
  }

  lemma RunsStep(s: State, r: Request)
    requires s.slot.Free? && r in s.queue
    ensures Step(s, RequestRuns(r), s.(queue := s.queue - multiset{r},
      slot := if r.phase.Add? then AddLoading(r.password) else Writing(r.password)))
  {
  }

  lemma VisitSteps(s: State)
    ensures s.slot.Free? ==> Step(s, BackupStarts, s.(slot := BackupStarting))
    ensures s.slot.BackupStarting? ==> Step(s, BackupLoads, s.(slot := BackupRunning(Stored(s.secret))))
    ensures s.slot.BackupRunning? ==> Step(s, BackupEnds, s.(slot := Free))
  {
    hide Stored;
  }

  lemma OneLess(queue: multiset<Request>, reserved: multiset<Request>, r: Request)
    requires reserved <= queue && r in queue - reserved
    ensures reserved <= queue - multiset{r} && |queue - multiset{r}| < |queue|
  {
  }

  /** When its turn comes, a request finds what it needs. */
  lemma TurnSucceeds(s: State, phase: Phase, p: Password)
    requires Inv(s) && s.secret.Held? && Request(phase, p) in s.queue
    ensures phase.Add? ==> Stored(s.secret).Some? && Opens(s.keys, Stored(s.secret).value)
    ensures phase.Finalize? ==> Opens(s.keys, p)
  {
    hide Opens;
  }

  lemma SwappedStores(before: SecretFile, after: SecretFile, p: Password)
    requires Swapped(before, after, p)
    ensures after.Held? && Stored(after) == Some(p)
  {
  }

  /** A path that ends with `p` in the secret has changed nothing else in it. */
  lemma SwappedSince(states: seq<State>, events: seq<Event>, i: nat, j: nat, p: Password)
    requires IsOrderly(states, events) && i <= j < |states|
    requires states[j].secret.Held? && Stored(states[j].secret) == Some(p)
    ensures Swapped(states[i].secret, states[j].secret, p)
  {
    hide Step, Orderly;
    SecretSince(states, events, i, j);
    SameOtherwise(states[i].secret.creds, states[j].secret.creds, p);
  }

  lemma SameOtherwise(before: map<string, string>, after: map<string, string>, p: Password)
    requires after - {RESTIC_PASSWORD} == before - {RESTIC_PASSWORD}
    requires RESTIC_PASSWORD in after && after[RESTIC_PASSWORD] == p
    ensures after == before[RESTIC_PASSWORD := p]
  {
    forall k ensures k in after <==> k in before[RESTIC_PASSWORD := p] {
      assert k in after - {RESTIC_PASSWORD} <==> k in before - {RESTIC_PASSWORD};
    }
    forall k | k in after ensures after[k] == before[RESTIC_PASSWORD := p][k] {
      assert k != RESTIC_PASSWORD ==> (after - {RESTIC_PASSWORD})[k] == (before - {RESTIC_PASSWORD})[k];
    }
  }
}
