/** The rotation of the restic repository password as a protocol over three stores: the
    repository's keyring, the Base's backup secret and the client's vault.

    The client runs add, vault, finalize (cmd/ownbasectl/base_backup.go); the daemon executes
    the two phases under the single backup slot (cmd/ownbased/backup_scheduler.go,
    internal/backup/rekey.go). Every external effect is one step, any of them may fail with or
    without having taken effect, and either side may stop at any point. A request is run on the
    daemon's own context, so it outlives the client that posted it. */
module RekeyProtocol {
  import opened Text

  type Password = string
  type KeyId = nat

  const RESTIC_PASSWORD := "RESTIC_PASSWORD"

  /** The age-encrypted backup secret. It is rewritten in place, so an interrupted write can
      leave a file that no longer decrypts. */
  datatype SecretFile = Torn | Held(creds: map<string, string>)

  datatype Phase = Add | Finalize

  datatype Request = Request(phase: Phase, password: Password)

  /** What the holder of the backup slot is about to do. */
  datatype Slot =
    | Free
    | BackupStarting
    | BackupRunning(loaded: Option<Password>)
    | AddLoading(password: Password)
    | AddChecking(password: Password, loaded: Option<Password>)
    | AddKeying(password: Password, loaded: Option<Password>)
    | AddVerifying(password: Password)
    | Writing(password: Password)
    | Checking(password: Password)
    | Listing(password: Password)
    | Removing(password: Password, current: KeyId, todo: set<KeyId>)
    | Replying(request: Request, ok: bool)

  datatype Client = Idle | Waiting(request: Request) | Vaulting(password: Password)

  datatype State = State(
    keys: map<KeyId, Password>, secret: SecretFile, vault: Password,
    slot: Slot, queue: multiset<Request>, client: Client)

  datatype KeyAddOutcome = AlreadyOpens | Added(id: KeyId) | AddedButFailed(lost: KeyId) | NotAdded

  datatype WriteOutcome = Written | NotWritten | TornByWrite

  datatype Event =
    | BackupStarts | BackupLoads | BackupEnds
    | ClientBegins(password: Password) | ClientStops
    | RequestExpires(request: Request) | RequestRuns(request: Request)
    | AddLoads | AddChecks(opens: bool) | AddsKey(added: KeyAddOutcome) | AddVerifies(opens: bool)
    | SecretWrites(written: WriteOutcome) | FinalizeChecks(opens: bool)
    | ListsKeys(current: Option<KeyId>) | ListFails
    | RemovesKey(id: KeyId, effect: bool, reported: bool) | RemovalDone
    | Replies(delivered: bool)
    | VaultSaves(effect: bool, reported: bool)
    | DaemonStops(tears: bool)

  predicate Opens(keys: map<KeyId, Password>, p: Password) {
    p in keys.Values
  }

  /** RESTIC_PASSWORD as loadBackupConfig finds it; an unreadable secret yields none. */
  function Stored(secret: SecretFile): Option<Password> {
    if secret.Held? && RESTIC_PASSWORD in secret.creds then Some(secret.creds[RESTIC_PASSWORD]) else None
  }

  /** One step of the system. */
  predicate Step(s: State, e: Event, t: State) {
    match e
    case BackupStarts => s.slot.Free? && t == s.(slot := BackupStarting)
    case BackupLoads => s.slot.BackupStarting? && t == s.(slot := BackupRunning(Stored(s.secret)))
    case BackupEnds => s.slot.BackupRunning? && t == s.(slot := Free)
    case ClientBegins(p) =>
      && s.client.Idle? && p != ""
      && t == s.(client := Waiting(Request(Add, p)), queue := s.queue + multiset{Request(Add, p)})
    case ClientStops => t == s.(client := Idle)
    case RequestExpires(r) => r in s.queue && t == s.(queue := s.queue - multiset{r})
    case RequestRuns(r) =>
      && s.slot.Free? && r in s.queue
      && t == s.(queue := s.queue - multiset{r},
                 slot := if r.phase.Add? then AddLoading(r.password) else Writing(r.password))
    case AddLoads => s.slot.AddLoading? && t == s.(slot := AddChecking(s.slot.password, Stored(s.secret)))
    case AddChecks(opens) =>
      && s.slot.AddChecking? && (opens ==> Opens(s.keys, s.slot.password))
      && t == s.(slot := if opens then Replying(Request(Add, s.slot.password), true)
                         else AddKeying(s.slot.password, s.slot.loaded))
    case AddsKey(outcome) => s.slot.AddKeying? && AddKeyStep(s, outcome, t)
    case AddVerifies(opens) =>
      && s.slot.AddVerifying? && (opens ==> Opens(s.keys, s.slot.password))
      && t == s.(slot := Replying(Request(Add, s.slot.password), opens))
    case SecretWrites(outcome) => s.slot.Writing? && WriteStep(s, outcome, t)
    case FinalizeChecks(opens) =>
      && s.slot.Checking? && (opens ==> Opens(s.keys, s.slot.password))
      && t == s.(slot := if opens then Listing(s.slot.password)
                         else Replying(Request(Finalize, s.slot.password), false))
    case ListsKeys(current) => s.slot.Listing? && ListStep(s, current, t)
    case ListFails => s.slot.Listing? && t == s.(slot := Replying(Request(Finalize, s.slot.password), false))
    case RemovesKey(id, effect, reported) =>
      && s.slot.Removing? && id in s.slot.todo && (reported ==> effect)
      && t == s.(keys := if effect then s.keys - {id} else s.keys,
                 slot := if reported then s.slot.(todo := s.slot.todo - {id})
                         else Replying(Request(Finalize, s.slot.password), false))
    case RemovalDone =>
      && s.slot.Removing? && s.slot.todo == {}
      && t == s.(slot := Replying(Request(Finalize, s.slot.password), true))
    case Replies(delivered) =>
      && s.slot.Replying?
      && t == s.(slot := Free,
                 client := if delivered then AfterReply(s.client, s.slot.request, s.slot.ok) else s.client)
    case VaultSaves(effect, reported) =>
      && s.client.Vaulting? && (reported ==> effect)
      && var p := s.client.password;
      && t == s.(vault := if effect then p else s.vault,
                 client := if reported then Waiting(Request(Finalize, p)) else Idle,
                 queue := if reported then s.queue + multiset{Request(Finalize, p)} else s.queue)
    case DaemonStops(tears) =>
      && (tears ==> s.slot.Writing?)
      && t == s.(slot := Free, queue := multiset{}, secret := if tears then Torn else s.secret)
  }

  /** restic key add, authenticated with the loaded password, after keyAdd's own check. */
  predicate AddKeyStep(s: State, outcome: KeyAddOutcome, t: State)
    requires s.slot.AddKeying?
  {
    var p := s.slot.password;
    match outcome
    case AlreadyOpens => Opens(s.keys, p) && t == s.(slot := AddVerifying(p))
    case Added(id) =>
      && id !in s.keys && s.slot.loaded.Some? && Opens(s.keys, s.slot.loaded.value)
      && t == s.(keys := s.keys[id := p], slot := AddVerifying(p))
    case AddedButFailed(id) =>
      && id !in s.keys && s.slot.loaded.Some? && Opens(s.keys, s.slot.loaded.value)
      && t == s.(keys := s.keys[id := p], slot := Replying(Request(Add, p), false))
    case NotAdded => t == s.(slot := Replying(Request(Add, p), false))
  }

  /** writeBackupResticPassword: merge the new password into the decrypted secret, rewrite. */
  predicate WriteStep(s: State, outcome: WriteOutcome, t: State)
    requires s.slot.Writing?
  {
    var p := s.slot.password;
    match outcome
    case Written =>
      && s.secret.Held?
      && t == s.(secret := Held(s.secret.creds[RESTIC_PASSWORD := p]), slot := Checking(p))
    case NotWritten => t == s.(slot := Replying(Request(Finalize, p), false))
    case TornByWrite => s.secret.Held? && t == s.(secret := Torn, slot := Replying(Request(Finalize, p), false))
  }

  /** keyList: restic marks the session's own key, which opens with the new password. When
      nothing is marked a single key is taken to be it, and otherwise the phase gives up. */
  predicate ListStep(s: State, current: Option<KeyId>, t: State)
    requires s.slot.Listing?
  {
    var p := s.slot.password;
    match current
    case Some(id) =>
      id in s.keys && s.keys[id] == p && t == s.(slot := Removing(p, id, s.keys.Keys - {id}))
    case None =>
      if |s.keys| == 1 then
        Opens(s.keys, p) && exists id :: id in s.keys && t == s.(slot := Removing(p, id, {}))
      else t == s.(slot := Replying(Request(Finalize, p), false))
  }

  /** What the client does with an answer to its own request. The answer to a request whose client has
      gone reaches nobody, even when a new client waits for the same thing. */
  function AfterReply(client: Client, request: Request, ok: bool): Client {
    if client != Waiting(request) then client
    else if ok && request.phase.Add? then Vaulting(request.password)
    else Idle
  }

  // -------------------------------------------------------------------- orderly runs

  /** When a rekey to `p` can be begun: while no finalize of another password is queued. Adds of other
      passwords, queued or running, and a finalize that already runs do no harm. Nor does anything once
      the secret is torn, because then no finalize gets past its first step. */
  ghost predicate MayBegin(s: State, p: Password) {
    s.secret.Torn? || forall r | r in s.queue && r.phase.Finalize? :: r.password == p
  }

  ghost predicate Orderly(s: State, e: Event) {
    e.ClientBegins? ==> MayBegin(s, e.password)
  }

  /** Where a Base with working backups starts. */
  ghost predicate Start(s: State) {
    && s.slot.Free? && s.queue == multiset{} && s.client.Idle?
    && Stored(s.secret).Some? && Opens(s.keys, Stored(s.secret).value)
    && Opens(s.keys, s.vault)
  }

  ghost predicate IsPath(states: seq<State>, events: seq<Event>) {
    && |states| == |events| + 1
    && forall i | 0 <= i < |events| :: Step(states[i], events[i], states[i + 1])
  }

  ghost predicate IsOrderly(states: seq<State>, events: seq<Event>) {
    IsPath(states, events) && forall i | 0 <= i < |events| :: Orderly(states[i], events[i])
  }

  /** Any interleaving of backups, drills, rekey runs, failures and stops, begun in order. */
  ghost predicate IsRun(states: seq<State>, events: seq<Event>) {
    IsOrderly(states, events) && Start(states[0])
  }

  predicate Tears(e: Event) {
    e == SecretWrites(TornByWrite) || e == DaemonStops(true)
  }

  // ------------------------------------------------------------------------ invariant

  /** The client, if it is busy, is busy with a rotation to `q`. */
  ghost predicate Fits(client: Client, q: Password) {
    && (client.Waiting? ==> client.request.password == q)
    && (client.Vaulting? ==> client.password == q)
  }

  /** Every queued finalize is for the escrowed password, and so is whatever the client does. */
  ghost predicate QueueInv(s: State) {
    s.secret.Held? ==>
      forall r | r in s.queue && r.phase.Finalize? :: r.password == s.vault && Fits(s.client, r.password)
  }

  /** A finalize of `q` holds the slot: `q` is escrowed, it opens, and no other password is about to
      be escrowed. */
  ghost predicate Finalizing(s: State, q: Password) {
    s.vault == q && Opens(s.keys, q) && (s.client.Vaulting? ==> s.client.password == q)
  }

  ghost predicate SlotInv(s: State) {
    match s.slot
    case Free => true
    case BackupStarting => true
    case BackupRunning(loaded) => loaded.Some? ==> Opens(s.keys, loaded.value)
    case AddLoading(_) => true
    case AddChecking(_, _) => true
    case AddKeying(_, _) => true
    case AddVerifying(_) => true
    case Writing(q) => s.secret.Held? ==> Finalizing(s, q)
    case Checking(q) => Finalizing(s, q) && Stored(s.secret) == Some(q)
    case Listing(q) => Finalizing(s, q) && Stored(s.secret) == Some(q)
    case Removing(q, id, todo) =>
      && Finalizing(s, q) && Stored(s.secret) == Some(q)
      && id in s.keys && s.keys[id] == q && todo == s.keys.Keys - {id}
    case Replying(r, ok) => r.phase.Add? && ok ==> Opens(s.keys, r.password)
  }

  /** The vault and a readable secret open the repository, and nothing under way takes that away. */
  ghost predicate Inv(s: State) {
    && Opens(s.keys, s.vault)
    && (s.secret.Held? ==> Stored(s.secret).Some? && Opens(s.keys, Stored(s.secret).value))
    && (s.client.Vaulting? ==> Opens(s.keys, s.client.password))
    && QueueInv(s)
    && SlotInv(s)
  }

  lemma InsertOpens(keys: map<KeyId, Password>, id: KeyId, p: Password)
    requires id !in keys
    ensures Opens(keys[id := p], p)
    ensures forall q | Opens(keys, q) :: Opens(keys[id := p], q)
  {
    assert keys[id := p][id] == p;
    forall q | Opens(keys, q) ensures Opens(keys[id := p], q) {
      var k :| k in keys && keys[k] == q;
      assert keys[id := p][k] == q;
    }
  }

  lemma RemoveKeepsOpen(keys: map<KeyId, Password>, kept: KeyId, removed: KeyId)
    requires kept in keys && kept != removed
    ensures Opens(keys - {removed}, keys[kept])
  {
    assert (keys - {removed})[kept] == keys[kept];
  }

  lemma AddKeyInv(s: State, outcome: KeyAddOutcome, t: State)
    requires Inv(s) && Step(s, AddsKey(outcome), t)
    ensures Inv(t)
  {
    match outcome
    case Added(id) => InsertOpens(s.keys, id, s.slot.password);
    case AddedButFailed(id) => InsertOpens(s.keys, id, s.slot.password);
    case _ =>
  }

  lemma RemoveKeyInv(s: State, id: KeyId, effect: bool, reported: bool, t: State)
    requires Inv(s) && Step(s, RemovesKey(id, effect, reported), t)
    ensures Inv(t)
  {
    RemoveKeepsOpen(s.keys, s.slot.current, id);
    hide Opens;
  }

  lemma WriteInv(s: State, outcome: WriteOutcome, t: State)
    requires Inv(s) && Step(s, SecretWrites(outcome), t)
    ensures Inv(t)
  {
    hide Opens;
  }

  lemma ListInv(s: State, current: Option<KeyId>, t: State)
    requires Inv(s) && Step(s, ListsKeys(current), t)
    ensures Inv(t)
  {
    if current.None? && |s.keys| == 1 {
      // The single key is the one that opens with the slot's password.
      var p := s.slot.password;
      var id :| id in s.keys && t == s.(slot := Removing(p, id, {}));
      var k :| k in s.keys && s.keys[k] == p;
      OnlyOne(s.keys.Keys, id, k);
    }
  }

  lemma OnlyOne<T>(s: set<T>, x: T, y: T)
    requires |s| == 1 && x in s && y in s
    ensures x == y && s - {x} == {}
  {
    assert |s - {x}| == 0;
    assert y !in s - {x};
  }

  /** The remaining steps of a backup, a drill or the add phase. */
  lemma BackupInv(s: State, e: Event, t: State)
    requires Inv(s) && Step(s, e, t)
    requires e.BackupStarts? || e.BackupLoads? || e.BackupEnds? || e.AddLoads? || e.AddChecks?
    ensures Inv(t)
  {
    hide Opens;
  }

  lemma PhaseInv(s: State, e: Event, t: State)
    requires Inv(s) && Step(s, e, t)
    requires e.AddVerifies? || e.FinalizeChecks? || e.ListFails? || e.RemovalDone?
    ensures Inv(t)
  {
    hide Opens;
  }

  lemma RunsInv(s: State, e: Event, t: State)
    requires Inv(s) && Step(s, e, t)
    requires e.RequestRuns? || e.RequestExpires?
    ensures Inv(t)
  {
    hide Opens;
  }

  lemma RepliesInv(s: State, e: Event, t: State)
    requires Inv(s) && Step(s, e, t)
    requires e.Replies? || e.ClientStops? || e.DaemonStops?
    ensures Inv(t)
  {
    hide Opens;
  }

  lemma ClientInv(s: State, e: Event, t: State)
    requires Inv(s) && Step(s, e, t) && Orderly(s, e)
    requires e.ClientBegins? || e.VaultSaves?
    ensures Inv(t)
  {
    hide Opens;
  }

  lemma InvStep(s: State, e: Event, t: State)
    requires Inv(s) && Step(s, e, t) && Orderly(s, e)
    ensures Inv(t)
  {
    hide Inv, Step, Orderly;
    match e
    case AddsKey(outcome) => AddKeyInv(s, outcome, t);
    case RemovesKey(id, effect, reported) => RemoveKeyInv(s, id, effect, reported, t);
    case SecretWrites(outcome) => WriteInv(s, outcome, t);
    case ListsKeys(current) => ListInv(s, current, t);
    case RequestExpires(_) => RunsInv(s, e, t);
    case RequestRuns(_) => RunsInv(s, e, t);
    case ClientStops => RepliesInv(s, e, t);
    case Replies(_) => RepliesInv(s, e, t);
    case DaemonStops(_) => RepliesInv(s, e, t);
    case ClientBegins(_) => ClientInv(s, e, t);
    case VaultSaves(_, _) => ClientInv(s, e, t);
    case AddVerifies(_) => PhaseInv(s, e, t);
    case FinalizeChecks(_) => PhaseInv(s, e, t);
    case ListFails => PhaseInv(s, e, t);
    case RemovalDone => PhaseInv(s, e, t);
    case _ => BackupInv(s, e, t);
  }

  // ------------------------------------------------------------------- over whole runs

  lemma {:induction false} InvKept(states: seq<State>, events: seq<Event>, i: nat)
    requires IsOrderly(states, events) && Inv(states[0]) && i < |states|
    ensures Inv(states[i])
    decreases i
  {
    hide Inv, Step;
    if i > 0 {
      InvKept(states, events, i - 1);
      InvStep(states[i - 1], events[i - 1], states[i]);
    }
  }

  lemma StartInv(s: State)
    requires Start(s)
    ensures Inv(s)
  {
    hide Opens;
  }

  lemma InvHolds(states: seq<State>, events: seq<Event>, i: nat)
    requires IsRun(states, events) && i < |states|
    ensures Inv(states[i])
  {
    hide Inv, Step, Start;
    StartInv(states[0]);
    InvKept(states, events, i);
  }

  /** The secret is readable exactly while no write of it has been cut short, and apart from the
      restic password it never changes. */
  lemma {:induction false} SecretHeld(states: seq<State>, events: seq<Event>, i: nat)
    requires IsPath(states, events) && states[0].secret.Held? && i < |states|
    ensures states[i].secret.Held? <==> forall j | 0 <= j < i :: !Tears(events[j])
    ensures states[i].secret.Held? ==>
      states[i].secret.creds - {RESTIC_PASSWORD} == states[0].secret.creds - {RESTIC_PASSWORD}
    decreases i
  {
    hide Step;
    if i > 0 {
      SecretHeld(states, events, i - 1);
      SecretStep(states[i - 1], events[i - 1], states[i]);
    }
  }

  /** A secret that is readable later was readable all along, with the same other entries. */
  lemma {:induction false} SecretSince(states: seq<State>, events: seq<Event>, i: nat, j: nat)
    requires IsPath(states, events) && i <= j < |states| && states[j].secret.Held?
    ensures states[i].secret.Held?
    ensures states[j].secret.creds - {RESTIC_PASSWORD} == states[i].secret.creds - {RESTIC_PASSWORD}
    decreases j
  {
    hide Step;
    if i < j {
      SecretStep(states[j - 1], events[j - 1], states[j]);
      SecretSince(states, events, i, j - 1);
    }
  }

  lemma SecretEffect(s: State, e: Event, t: State)
    requires Step(s, e, t)
    ensures if Tears(e) then t.secret.Torn?
            else if e == SecretWrites(Written) then
              s.secret.Held? && s.slot.Writing?
              && t.secret == Held(s.secret.creds[RESTIC_PASSWORD := s.slot.password])
            else t.secret == s.secret
  {
    if e.SecretWrites? {
      hide WriteStep;
      WriteEffect(s, e.written, t);
    } else if !e.DaemonStops? {
      hide Step;
      OthersKeepSecret(s, e, t);
    }
  }

  lemma OthersKeepSecret(s: State, e: Event, t: State)
    requires Step(s, e, t) && !e.SecretWrites? && !e.DaemonStops?
    ensures t.secret == s.secret
  {
    hide Opens, Stored, AfterReply, AddKeyStep, WriteStep, ListStep;
    match e
    case AddsKey(outcome) => AddKeepsSecret(s, outcome, t);
    case ListsKeys(current) => ListKeepsSecret(s, current, t);
    case _ =>
  }

  lemma AddKeepsSecret(s: State, outcome: KeyAddOutcome, t: State)
    requires s.slot.AddKeying? && AddKeyStep(s, outcome, t)
    ensures t.secret == s.secret
  {
    hide Opens;
  }

  lemma ListKeepsSecret(s: State, current: Option<KeyId>, t: State)
    requires s.slot.Listing? && ListStep(s, current, t)
    ensures t.secret == s.secret
  {
  }

  lemma WriteEffect(s: State, outcome: WriteOutcome, t: State)
    requires s.slot.Writing? && WriteStep(s, outcome, t)
    ensures if Tears(SecretWrites(outcome)) then t.secret.Torn?
            else if outcome == Written then
              s.secret.Held? && t.secret == Held(s.secret.creds[RESTIC_PASSWORD := s.slot.password])
            else t.secret == s.secret
  {
  }

  lemma SecretStep(s: State, e: Event, t: State)
    requires Step(s, e, t)
    ensures t.secret.Held? <==> s.secret.Held? && !Tears(e)
    ensures t.secret.Held? ==> t.secret.creds - {RESTIC_PASSWORD} == s.secret.creds - {RESTIC_PASSWORD}
  {
    SecretEffect(s, e, t);
    hide Step;
    if e == SecretWrites(Written) {
      OtherCredsKept(s.secret.creds, s.slot.password);
    }
  }

  lemma OtherCredsKept(creds: map<string, string>, p: Password)
    ensures creds[RESTIC_PASSWORD := p] - {RESTIC_PASSWORD} == creds - {RESTIC_PASSWORD}
  {
  }

  /** Safety. In every state of every orderly run the escrowed password opens the repository;
      the Base's own password opens it too, unless a write of the secret was cut short; and a
      snapshot or drill in flight still holds a password that opens it. */
  lemma RekeySafety(states: seq<State>, events: seq<Event>, i: nat)
    requires IsRun(states, events) && i < |states|
    ensures var s := states[i];
      && Opens(s.keys, s.vault)
      && ((forall j | 0 <= j < i :: !Tears(events[j])) <==> Stored(s.secret).Some?)
      && (Stored(s.secret).Some? ==> Opens(s.keys, Stored(s.secret).value))
      && (s.slot.BackupRunning? && s.slot.loaded.Some? ==> Opens(s.keys, s.slot.loaded.value))
  {
    InvHolds(states, events, i);
    SecretHeld(states, events, i);
  }

  // -------------------------------------------- runs that are not orderly lose the vault

  /** A path that opens with the client beginning a rekey and in which it begins no other. */
  ghost predicate OneBegin(states: seq<State>, events: seq<Event>, s: State, p: Password) {
    && IsPath(states, events) && events != [] && states[0] == s && events[0] == ClientBegins(p)
    && forall i | 1 <= i < |events| :: !events[i].ClientBegins?
  }

  lemma OneBeginStarts(s: State, p: Password) returns (states: seq<State>, events: seq<Event>)
    requires s.client.Idle? && p != ""
    ensures OneBegin(states, events, s, p)
    ensures states[|states| - 1]
      == s.(client := Waiting(Request(Add, p)), queue := s.queue + multiset{Request(Add, p)})
  {
    var t := s.(client := Waiting(Request(Add, p)), queue := s.queue + multiset{Request(Add, p)});
    states, events := [s, t], [ClientBegins(p)];
  }

  lemma Longer(states: seq<State>, events: seq<Event>, s: State, p: Password, e: Event, t: State)
    returns (states': seq<State>, events': seq<Event>)
    requires OneBegin(states, events, s, p) && Step(states[|states| - 1], e, t) && !e.ClientBegins?
    ensures OneBegin(states', events', s, p) && states'[|states'| - 1] == t
  {
    hide Step;
    states', events' := states + [t], events + [e];
  }

  /** The step by which the holder of the slot gives up, or ends, and where that leaves it. */
  ghost function GiveUp(s: State): (Event, Slot)
    requires !s.slot.Free?
  {
    match s.slot
    case BackupStarting => (BackupLoads, BackupRunning(Stored(s.secret)))
    case BackupRunning(_) => (BackupEnds, Free)
    case AddLoading(p) => (AddLoads, AddChecking(p, Stored(s.secret)))
    case AddChecking(p, loaded) => (AddChecks(false), AddKeying(p, loaded))
    case AddKeying(p, _) => (AddsKey(NotAdded), Replying(Request(Add, p), false))
    case AddVerifying(p) => (AddVerifies(false), Replying(Request(Add, p), false))
    case Writing(p) => (SecretWrites(NotWritten), Replying(Request(Finalize, p), false))
    case Checking(p) => (FinalizeChecks(false), Replying(Request(Finalize, p), false))
    case Listing(p) => (ListFails, Replying(Request(Finalize, p), false))
    case Removing(p, _, todo) =>
      if todo == {} then (RemovalDone, Replying(Request(Finalize, p), true))
      else
        var id :| id in todo;
        (RemovesKey(id, false, false), Replying(Request(Finalize, p), false))
    case Replying(_, _) => (Replies(false), Free)
  }

  function StepsToFree(slot: Slot): nat {
    match slot
    case Free => 0
    case Replying(_, _) => 1
    case BackupRunning(_) => 1
    case BackupStarting => 2
    case AddKeying(_, _) => 2
    case AddChecking(_, _) => 3
    case AddLoading(_) => 4
    case _ => 2
  }

  lemma GiveUpStep(s: State)
    requires !s.slot.Free?
    ensures Step(s, GiveUp(s).0, s.(slot := GiveUp(s).1)) && !GiveUp(s).0.ClientBegins?
    ensures StepsToFree(GiveUp(s).1) < StepsToFree(s.slot)
  {
    hide Opens, Stored;
  }

  /** Whatever holds the slot can let go of it without any effect on the stores or the queue. */
  lemma {:induction false} SlotIsReleased(states: seq<State>, events: seq<Event>, s: State, p: Password)
    returns (states': seq<State>, events': seq<Event>)
    requires OneBegin(states, events, s, p)
    ensures OneBegin(states', events', s, p)
    ensures states'[|states'| - 1] == states[|states| - 1].(slot := Free)
    decreases StepsToFree(states[|states| - 1].slot)
  {
    hide OneBegin, Step, GiveUp, StepsToFree;
    states', events' := states, events;
    var t := LastOf(states, events, s, p);
    if !t.slot.Free? {
      GiveUpStep(t);
      states', events' := Longer(states, events, s, p, GiveUp(t).0, t.(slot := GiveUp(t).1));
      var u := LastOf(states', events', s, p);
      states', events' := SlotIsReleased(states', events', s, p);
    }
  }

  lemma LastOf(states: seq<State>, events: seq<Event>, s: State, p: Password) returns (t: State)
    requires OneBegin(states, events, s, p)
    ensures |states| > 0 && t == states[|states| - 1]
  {
    t := states[|states| - 1];
  }

  lemma {:induction false} Fresh(s: set<KeyId>) returns (id: KeyId)
    ensures id !in s && forall k | k in s :: k < id
    decreases |s|
  {
    id := 0;
    if s != {} {
      var k :| k in s;
      var rest := Fresh(s - {k});
      id := if rest <= k then k + 1 else rest;
      forall j | j in s ensures j < id {
        assert j == k || j in s - {k};
      }
    }
  }

  lemma RunsAdd(t: State, a: State, p: Password)
    requires t.slot.Free? && Request(Add, p) in t.queue
    requires a == t.(queue := t.queue - multiset{Request(Add, p)}, slot := AddLoading(p))
    ensures Step(t, RequestRuns(Request(Add, p)), a)
  {
  }

  lemma AddTakesSteps(a: State, b: State, c: State, d: State, f: State, g: State, p: Password, id: KeyId)
    requires a.slot == AddLoading(p) && a.client == Waiting(Request(Add, p)) && id !in a.keys
    requires Stored(a.secret).Some? && Opens(a.keys, Stored(a.secret).value)
    requires b == a.(slot := AddChecking(p, Stored(a.secret))) && c == b.(slot := AddKeying(p, Stored(a.secret)))
    requires d == c.(keys := a.keys[id := p], slot := AddVerifying(p))
    requires f == d.(slot := Replying(Request(Add, p), true)) && g == f.(slot := Free, client := Vaulting(p))
    ensures Step(a, AddLoads, b) && Step(b, AddChecks(false), c) && Step(c, AddsKey(Added(id)), d)
    ensures Step(d, AddVerifies(true), f) && Step(f, Replies(true), g)
  {
    InsertOpens(a.keys, id, p);
    hide Opens, Stored;
  }

  /** The add phase can succeed whenever the Base's own password opens the repository. */
  lemma AddSucceeds(states: seq<State>, events: seq<Event>, s: State, p: Password, id: KeyId)
    returns (states': seq<State>, events': seq<Event>)
    requires OneBegin(states, events, s, p)
    requires var t := states[|states| - 1];
      && t.slot.Free? && t.client == Waiting(Request(Add, p)) && Request(Add, p) in t.queue && id !in t.keys
      && Stored(t.secret).Some? && Opens(t.keys, Stored(t.secret).value)
    ensures OneBegin(states', events', s, p)
    ensures var t := states[|states| - 1];
      states'[|states'| - 1]
      == t.(keys := t.keys[id := p], queue := t.queue - multiset{Request(Add, p)}, client := Vaulting(p))
  {
    hide OneBegin, Step, Opens, Stored;
    var t := LastOf(states, events, s, p);
    var r, loaded := Request(Add, p), Stored(t.secret);
    var a := t.(queue := t.queue - multiset{r}, slot := AddLoading(p));
    var b := a.(slot := AddChecking(p, loaded));
    var c := b.(slot := AddKeying(p, loaded));
    var d := c.(keys := t.keys[id := p], slot := AddVerifying(p));
    var f := d.(slot := Replying(r, true));
    var g := f.(slot := Free, client := Vaulting(p));
    AddTakesSteps(a, b, c, d, f, g, p, id);
    RunsAdd(t, a, p);
    states', events' := Longer(states, events, s, p, RequestRuns(r), a);
    states', events' := Longer(states', events', s, p, AddLoads, b);
    states', events' := Longer(states', events', s, p, AddChecks(false), c);
    states', events' := Longer(states', events', s, p, AddsKey(Added(id)), d);
    states', events' := Longer(states', events', s, p, AddVerifies(true), f);
    states', events' := Longer(states', events', s, p, Replies(true), g);
  }

  /** A finalize of `a` that runs can get as far as removing the other keys. */
  lemma FinalizeReachesRemoval(states: seq<State>, events: seq<Event>, s: State, p: Password, a: Password, id: KeyId)
    returns (states': seq<State>, events': seq<Event>)
    requires OneBegin(states, events, s, p)
    requires var t := states[|states| - 1];
      t.slot.Free? && Request(Finalize, a) in t.queue && t.secret.Held? && id in t.keys && t.keys[id] == a
    ensures OneBegin(states', events', s, p)
    ensures var t, u := states[|states| - 1], states'[|states'| - 1];
      u.keys == t.keys && u.vault == t.vault && u.slot == Removing(a, id, t.keys.Keys - {id})
  {
    var t := LastOf(states, events, s, p);
    var fin := Request(Finalize, a);
    var b := t.(queue := t.queue - multiset{fin}, slot := Writing(a));
    var c := b.(secret := Held(t.secret.creds[RESTIC_PASSWORD := a]), slot := Checking(a));
    var d := c.(slot := Listing(a));
    var f := d.(slot := Removing(a, id, t.keys.Keys - {id}));
    assert Step(t, RequestRuns(fin), b) && Step(b, SecretWrites(Written), c);
    assert Step(c, FinalizeChecks(true), d) && Step(d, ListsKeys(Some(id)), f);
    hide OneBegin, Step, Opens, Stored;
    states', events' := Longer(states, events, s, p, RequestRuns(fin), b);
    states', events' := Longer(states', events', s, p, SecretWrites(Written), c);
    states', events' := Longer(states', events', s, p, FinalizeChecks(true), d);
    states', events' := Longer(states', events', s, p, ListsKeys(Some(id)), f);
  }

  /** And then to the end of it. */
  lemma {:induction false} RemovalGoesThrough(states: seq<State>, events: seq<Event>, s: State, p: Password)
    returns (states': seq<State>, events': seq<Event>)
    requires OneBegin(states, events, s, p)
    requires var t := states[|states| - 1];
      t.slot.Removing? && t.slot.current in t.keys && t.slot.todo == t.keys.Keys - {t.slot.current}
    ensures OneBegin(states', events', s, p)
    ensures var t, u := states[|states| - 1], states'[|states'| - 1];
      u.vault == t.vault && u.keys == map[t.slot.current := t.keys[t.slot.current]]
    decreases states[|states| - 1].slot.todo
  {
    hide OneBegin, Opens, Stored;
    states', events' := states, events;
    var t := LastOf(states, events, s, p);
    var current, todo := t.slot.current, t.slot.todo;
    if todo != {} {
      var id :| id in todo;
      var u := t.(keys := t.keys - {id}, slot := t.slot.(todo := todo - {id}));
      assert Step(t, RemovesKey(id, true, true), u);
      hide Step;
      states', events' := Longer(states, events, s, p, RemovesKey(id, true, true), u);
      assert u.slot.todo == u.keys.Keys - {current};
      var v := LastOf(states', events', s, p);
      states', events' := RemovalGoesThrough(states', events', s, p);
    } else {
      assert t.keys.Keys == {current};
    }
  }

  /** A rekey begun while a finalize of another password is queued can lose the vault: the new password
      is added and escrowed, and then the old finalize removes it. */
  lemma DisorderLosesTheVault(s: State, p: Password, a: Password)
    returns (states: seq<State>, events: seq<Event>)
    requires Inv(s) && s.secret.Held? && s.client.Idle? && p != ""
    requires Request(Finalize, a) in s.queue && a != p
    ensures OneBegin(states, events, s, p)
    ensures !Opens(states[|states| - 1].keys, states[|states| - 1].vault)
  {
    var stale: KeyId :| stale in s.keys && s.keys[stale] == a;
    assert Stored(s.secret).Some? && Opens(s.keys, Stored(s.secret).value);
    hide OneBegin, Opens, Stored, Inv;
    states, events := OneBeginStarts(s, p);
    states, events := SlotIsReleased(states, events, s, p);
    var id := Fresh(s.keys.Keys);
    states, events := AddSucceeds(states, events, s, p, id);
    var t := LastOf(states, events, s, p);
    var u := t.(vault := p, client := Waiting(Request(Finalize, p)), queue := t.queue + multiset{Request(Finalize, p)});
    assert Step(t, VaultSaves(true, true), u);
    states, events := Longer(states, events, s, p, VaultSaves(true, true), u);
    states, events := FinalizeReachesRemoval(states, events, s, p, a, stale);
    states, events := RemovalGoesThrough(states, events, s, p);
    OnlyOpens(stale, a, p);
  }

  lemma OnlyOpens(id: KeyId, a: Password, p: Password)
    requires a != p
    ensures !Opens(map[id := a], p)
  {
  }

  /** Everything that can follow when the client begins a rekey to `p` in state `s`, as long as later
      rekeys are begun in order. */
  ghost predicate Follows(s: State, p: Password, states: seq<State>, events: seq<Event>) {
    && IsPath(states, events) && events != [] && states[0] == s && events[0] == ClientBegins(p)
    && forall i | 1 <= i < |events| :: Orderly(states[i], events[i])
  }

  /** Whatever follows, the escrowed password opens the repository. */
  ghost predicate BeginIsSafe(s: State, p: Password) {
    forall states: seq<State>, events: seq<Event> | Follows(s, p, states, events) ::
      Opens(states[|states| - 1].keys, states[|states| - 1].vault)
  }

  /** The condition is exact: in every state of every orderly run, beginning a rekey to `p` is safe
      for all that can follow if and only if it is in order. */
  lemma BeginIsSafeWhen(states: seq<State>, events: seq<Event>, i: nat, p: Password)
    requires IsRun(states, events) && i < |states| && states[i].client.Idle? && p != ""
    ensures BeginIsSafe(states[i], p) <==> MayBegin(states[i], p)
  {
    var s := states[i];
    InvHolds(states, events, i);
    if MayBegin(s, p) {
      forall path: seq<State>, steps: seq<Event> | Follows(s, p, path, steps)
        ensures Opens(path[|path| - 1].keys, path[|path| - 1].vault)
      {
        InvKept(path, steps, |path| - 1);
        InvMeans(path[|path| - 1]);
      }
    } else {
      var r :| r in s.queue && r.phase.Finalize? && r.password != p;
      assert r == Request(Finalize, r.password);
      var path, steps := DisorderLosesTheVault(s, p, r.password);
      assert Follows(s, p, path, steps);
    }
  }

  /** What an operator can go by: a rekey with the escrowed password is always in order, so resuming with it
      is safe whatever has happened and whatever is still queued. */
  lemma ResumeIsSafe(states: seq<State>, events: seq<Event>, i: nat)
    requires IsRun(states, events) && i < |states|
    ensures var s := states[i];
      MayBegin(s, s.vault) && (s.client.Idle? && s.vault != "" ==> BeginIsSafe(s, s.vault))
  {
    InvHolds(states, events, i);
    assert MayBegin(states[i], states[i].vault);
    hide Inv, IsRun, MayBegin, BeginIsSafe;
    if states[i].client.Idle? && states[i].vault != "" {
      BeginIsSafeWhen(states, events, i, states[i].vault);
    }
  }

  lemma InvMeans(s: State)
    requires Inv(s)
    ensures Opens(s.keys, s.vault)
  {
  }

  /** A rekey to "a" that is abandoned after its escrow leaves such a state: a run in which nothing
      failed and nothing was torn, and in which another rekey could be begun. */
  lemma AbandonedRekey() returns (states: seq<State>, events: seq<Event>)
    ensures IsRun(states, events)
    ensures var s := states[|states| - 1];
      s.client.Idle? && s.secret.Held? && Request(Finalize, "a") in s.queue && !MayBegin(s, "b")
  {
    var s := State(map[0 := "old"], Held(map[RESTIC_PASSWORD := "old"]), "old", Free, multiset{}, Idle);
    assert s.keys[0] == "old";
    states, events := OneBeginStarts(s, "a");
    states, events := AddSucceeds(states, events, s, "a", 1);
    var t := LastOf(states, events, s, "a");
    var fin := Request(Finalize, "a");
    var u := t.(vault := "a", client := Waiting(fin), queue := t.queue + multiset{fin});
    states, events := Longer(states, events, s, "a", VaultSaves(true, true), u);
    states, events := Longer(states, events, s, "a", ClientStops, u.(client := Idle));
    var w := LastOf(states, events, s, "a");
    assert fin in w.queue && fin.phase.Finalize? && fin.password != "b";
  }
}
