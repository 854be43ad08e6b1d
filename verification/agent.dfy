/** The credential agent (internal/agentd/server.go) over the vault it serves (internal/vault/vault.go):
    one unlocked vault and the signing keyring derived from it, both behind one mutex, so every
    request is one atomic step. */
module Agent {
  import opened Text

  // ------------------------------------------------------------------------------ profiles

  /** Everything needed to reach one Base. */
  datatype Profile = Profile(
    host: string, sshUser: string, sshPort: int, apiPort: int, token: string,
    configRepoURL: string, configRef: string, localVM: Option<bool>,
    privateKey: string, publicKey: string,
    backupRepo: string, resticPassword: string,
    awsAccessKeyID: string, awsSecretAccessKey: string, b2AccountID: string, b2AccountKey: string,
    adminAWSAccessKeyID: string, adminAWSSecretAccessKey: string,
    adminB2AccountID: string, adminB2AccountKey: string)
  {
    function Redacted(): Profile {
      this.(privateKey := "", resticPassword := "", awsSecretAccessKey := "", b2AccountKey := "",
            adminAWSSecretAccessKey := "", adminB2AccountKey := "")
    }

    /** The profile with its empty sensitive fields, and the non-secret backup fields that go with
        them, filled in from `existing`. */
    function MergeSecretsFrom(existing: Profile): Profile {
      var p := if privateKey != "" then this
               else this.(privateKey := existing.privateKey, publicKey := OrElse(publicKey, existing.publicKey));
      p.(resticPassword := OrElse(p.resticPassword, existing.resticPassword),
         awsSecretAccessKey := OrElse(p.awsSecretAccessKey, existing.awsSecretAccessKey),
         b2AccountKey := OrElse(p.b2AccountKey, existing.b2AccountKey),
         adminAWSSecretAccessKey := OrElse(p.adminAWSSecretAccessKey, existing.adminAWSSecretAccessKey),
         adminB2AccountKey := OrElse(p.adminB2AccountKey, existing.adminB2AccountKey),
         backupRepo := OrElse(p.backupRepo, existing.backupRepo),
         awsAccessKeyID := OrElse(p.awsAccessKeyID, existing.awsAccessKeyID),
         b2AccountID := OrElse(p.b2AccountID, existing.b2AccountID),
         adminAWSAccessKeyID := OrElse(p.adminAWSAccessKeyID, existing.adminAWSAccessKeyID),
         adminB2AccountID := OrElse(p.adminB2AccountID, existing.adminB2AccountID))
    }

    function Secret(f: SecretField): string {
      match f
      case PrivateKey => privateKey
      case ResticPassword => resticPassword
      case AWSSecret => awsSecretAccessKey
      case B2Key => b2AccountKey
      case AdminAWSSecret => adminAWSSecretAccessKey
      case AdminB2Key => adminB2AccountKey
    }

    function Kept(f: KeptField): string {
      match f
      case Sensitive(secret) => Secret(secret)
      case BackupRepo => backupRepo
      case AWSKeyID => awsAccessKeyID
      case B2AccountID => b2AccountID
      case AdminAWSKeyID => adminAWSAccessKeyID
      case AdminB2AccountID => adminB2AccountID
    }
  }

  function OrElse(a: string, b: string): string {
    if a == "" then b else a
  }

  datatype SecretField = PrivateKey | ResticPassword | AWSSecret | B2Key | AdminAWSSecret | AdminB2Key

  /** The fields that a put which leaves them out does not clear. */
  datatype KeptField =
    | Sensitive(secret: SecretField)
    | BackupRepo | AWSKeyID | B2AccountID | AdminAWSKeyID | AdminB2AccountID

  /** The fields that are always those of the last put. */
  ghost predicate SamePlain(p: Profile, q: Profile) {
    && p.host == q.host && p.sshUser == q.sshUser && p.sshPort == q.sshPort && p.apiPort == q.apiPort
    && p.token == q.token && p.configRepoURL == q.configRepoURL && p.configRef == q.configRef && p.localVM == q.localVM
  }

  /** What a caller is shown carries no secret and everything else; and writing it back, with any of the
      other fields edited, leaves every secret as it was and keeps every edit. Only a backup field that is
      emptied, or the public key, gets back what was on record. */
  lemma RedactedRoundTrip(stored: Profile, edited: Profile)
    requires forall f: SecretField :: edited.Secret(f) == stored.Redacted().Secret(f)
    ensures forall f: SecretField :: stored.Redacted().Secret(f) == ""
    ensures SamePlain(stored.Redacted(), stored) && stored.Redacted().publicKey == stored.publicKey
    ensures forall f: KeptField | !f.Sensitive? :: stored.Redacted().Kept(f) == stored.Kept(f)
    ensures forall f: SecretField :: edited.MergeSecretsFrom(stored).Secret(f) == stored.Secret(f)
    ensures SamePlain(edited.MergeSecretsFrom(stored), edited)
    ensures forall f: KeptField | !f.Sensitive? ::
      edited.MergeSecretsFrom(stored).Kept(f) == if edited.Kept(f) == "" then stored.Kept(f) else edited.Kept(f)
    ensures edited.MergeSecretsFrom(stored).publicKey
      == if edited.publicKey == "" then stored.publicKey else edited.publicKey
  {
    forall f: SecretField ensures edited.Secret(f) == "" {
      assert edited.Secret(f) == stored.Redacted().Secret(f);
    }
    assert edited.privateKey == edited.Secret(PrivateKey);
    forall f: KeptField {
      MergedKept(edited, stored, f);
    }
    forall f: SecretField ensures edited.MergeSecretsFrom(stored).Secret(f) == stored.Secret(f) {
      MergedKept(edited, stored, Sensitive(f));
    }
  }

  lemma MergedKept(p: Profile, existing: Profile, f: KeptField)
    ensures p.MergeSecretsFrom(existing).Kept(f) == OrElse(p.Kept(f), existing.Kept(f))
  {
  }

  lemma MergedRest(p: Profile, existing: Profile)
    ensures SamePlain(p.MergeSecretsFrom(existing), p)
    ensures p.MergeSecretsFrom(existing).publicKey
      == if p.privateKey != "" then p.publicKey else OrElse(p.publicKey, existing.publicKey)
  {
  }

  // ------------------------------------------------------------------ the agent as a machine

  type Vault = map<string, Profile>
  type Key = string

  /** ssh.ParseRawPrivateKey. */
  type Parser = string -> Option<Key>

  /** The store is what the vault file holds; `vlt` is the decrypted copy while unlocked. */
  datatype State = State(vlt: Option<Vault>, store: Vault, keyring: set<Key>)

  datatype Request =
    | Unlock | Lock
    | List | Get(base: string) | GetBackup(base: string)
    | Put(base: string, profile: Option<Profile>) | Delete(base: string)
    | ChangePassword(newPassword: string)
    | Sign(key: Key)

  /** Vault.Get: the empty name is refused before the map is looked at. */
  function Find(v: Vault, base: string): Option<Profile> {
    if base != "" && base in v then Some(v[base]) else None
  }

  /** The keys of the profiles that a lookup by name finds and whose private key parses. */
  ghost function KeysOf(parse: Parser, v: Vault): set<Key> {
    set base | base in v && base != "" && v[base].privateKey != "" && parse(v[base].privateKey).Some?
      :: parse(v[base].privateKey).value
  }

  function Merged(v: Vault, base: string, p: Profile): Vault {
    v[base := if Find(v, base).Some? then p.MergeSecretsFrom(Find(v, base).value) else p]
  }

  /** One request. `ok` is the outcome of the one thing that can fail: opening the vault, or saving it. */
  ghost function Step(parse: Parser, s: State, r: Request, ok: bool): State {
    match r
    case Unlock => if ok then State(Some(s.store), s.store, KeysOf(parse, s.store)) else s
    case Lock => s.(vlt := None, keyring := {})
    case Put(base, profile) =>
      if s.vlt.None? || profile.None? then s
      else Written(parse, s, Merged(s.vlt.value, base, profile.value), ok)
    case Delete(base) =>
      if s.vlt.None? then s else Written(parse, s, s.vlt.value - {base}, ok)
    // Re-encrypting the vault writes the copy in memory, whatever it holds, and reloads nothing.
    case ChangePassword(password) => if s.vlt.Some? && password != "" && ok then s.(store := s.vlt.value) else s
    case _ => s
  }

  /** The vault is changed in memory first; only a successful save reaches the store and the keyring. */
  ghost function Written(parse: Parser, s: State, v: Vault, ok: bool): State {
    if ok then State(Some(v), v, KeysOf(parse, v)) else s.(vlt := Some(v))
  }

  datatype Call = Call(request: Request, ok: bool)

  ghost function Run(parse: Parser, s: State, calls: seq<Call>): State {
    if calls == [] then s
    else
      var n := |calls| - 1;
      Step(parse, Run(parse, s, calls[..n]), calls[n].request, calls[n].ok)
  }

  ghost predicate SavesSucceed(calls: seq<Call>) {
    forall i | 0 <= i < |calls| && (calls[i].request.Put? || calls[i].request.Delete?) :: calls[i].ok
  }

  /** A freshly started agent. */
  function Started(store: Vault): State {
    State(None, store, {})
  }

  /** Locked means no keys to sign with, whatever was called before and whatever failed. */
  lemma {:induction false} LockedHasNoKeys(parse: Parser, store: Vault, calls: seq<Call>)
    ensures var s := Run(parse, Started(store), calls); s.vlt.None? ==> s.keyring == {}
    decreases |calls|
  {
    if calls != [] {
      LockedHasNoKeys(parse, store, calls[..|calls| - 1]);
    }
  }

  /** While saves succeed, the keyring is exactly the parseable keys of the stored profiles, and
      the unlocked copy is what the store holds. */
  ghost predicate InStep(parse: Parser, s: State) {
    s.vlt.Some? ==> s.vlt.value == s.store && s.keyring == KeysOf(parse, s.store)
  }

  lemma {:induction false} KeyringInStep(parse: Parser, store: Vault, calls: seq<Call>)
    requires SavesSucceed(calls)
    ensures InStep(parse, Run(parse, Started(store), calls))
    decreases |calls|
  {
    if calls != [] {
      var n := |calls| - 1;
      assert SavesSucceed(calls[..n]);
      KeyringInStep(parse, store, calls[..n]);
      assert calls[n].request.Put? || calls[n].request.Delete? ==> calls[n].ok;
    }
  }

  /** The key a lookup by name comes to, if it has one that parses. */
  function KeyAt(parse: Parser, v: Vault, base: string): Option<Key> {
    if base != "" && base in v && v[base].privateKey != "" then parse(v[base].privateKey) else None
  }

  ghost predicate HeldElsewhere(parse: Parser, v: Vault, base: string, k: Key) {
    exists other :: other in v && other != base && KeyAt(parse, v, other) == Some(k)
  }

  lemma KeysOfMembers(parse: Parser, v: Vault)
    ensures forall k :: k in KeysOf(parse, v) <==> exists base :: base in v && KeyAt(parse, v, base) == Some(k)
  {
    forall k | k in KeysOf(parse, v) ensures exists base :: base in v && KeyAt(parse, v, base) == Some(k) {
      var base :| base in v && base != "" && v[base].privateKey != "" && parse(v[base].privateKey).Some?
        && parse(v[base].privateKey).value == k;
      assert KeyAt(parse, v, base) == Some(k);
    }
  }

  /** Changing what one Base holds leaves the set of keys as it was exactly if its key stays the same,
      or the key it had and the key it gets are held by other Bases as well. */
  lemma KeysKept(parse: Parser, v: Vault, w: Vault, base: string)
    requires forall other | other != base :: (other in v <==> other in w) && (other in v ==> v[other] == w[other])
    ensures var before, after := KeyAt(parse, v, base), KeyAt(parse, w, base);
      KeysOf(parse, w) == KeysOf(parse, v) <==>
        || before == after
        || ((before.Some? ==> HeldElsewhere(parse, v, base, before.value))
            && (after.Some? ==> HeldElsewhere(parse, v, base, after.value)))
  {
    KeysOfMembers(parse, v);
    KeysOfMembers(parse, w);
    hide KeysOf;
    forall other | other != base ensures KeyAt(parse, v, other) == KeyAt(parse, w, other) {}
    hide KeyAt;
    var before, after := KeyAt(parse, v, base), KeyAt(parse, w, base);
    KeyAtIn(parse, v, base);
    KeyAtIn(parse, w, base);
    if before != after && before.Some? && !HeldElsewhere(parse, v, base, before.value) {
      assert before.value in KeysOf(parse, v) && before.value !in KeysOf(parse, w);
    } else if before != after && after.Some? && !HeldElsewhere(parse, v, base, after.value) {
      assert after.value in KeysOf(parse, w) && after.value !in KeysOf(parse, v);
    } else {
      forall k ensures k in KeysOf(parse, v) <==> k in KeysOf(parse, w) {}
      assert KeysOf(parse, w) == KeysOf(parse, v);
    }
  }

  lemma KeyAtIn(parse: Parser, v: Vault, base: string)
    ensures KeyAt(parse, v, base).Some? ==> base in v
  {
  }

  /** What a put or a delete makes of the vault. */
  function Changed(v: Vault, r: Request): Vault
    requires r.Delete? || (r.Put? && r.profile.Some?)
  {
    if r.Delete? then v - {r.base} else Merged(v, r.base, r.profile.value)
  }

  /** The key the request leaves at its Base: none for a delete; for a put the profile's own, or, if
      that is left out, the one on record. */
  function KeyLeft(parse: Parser, v: Vault, r: Request): Option<Key>
    requires r.Delete? || (r.Put? && r.profile.Some?)
  {
    if r.Delete? || r.base == "" then None
    else if r.profile.value.privateKey != "" then parse(r.profile.value.privateKey)
    else KeyAt(parse, v, r.base)
  }

  /** A save that fails leaves the vault changed in memory, and the store and the keyring as they were.
      A keyring that matched the vault before still does exactly if the request leaves the Base its key,
      or the key it drops and the key it brings are held by other Bases anyway. */
  lemma FailedSave(parse: Parser, s: State, r: Request)
    requires s.vlt.Some? && s.keyring == KeysOf(parse, s.vlt.value)
    requires r.Delete? || (r.Put? && r.profile.Some?)
    ensures var v, t := s.vlt.value, Step(parse, s, r, false);
      && t == s.(vlt := Some(Changed(v, r)))
      && var before, after := KeyAt(parse, v, r.base), KeyLeft(parse, v, r);
         (t.keyring == KeysOf(parse, t.vlt.value) <==>
          || before == after
          || ((before.Some? ==> HeldElsewhere(parse, v, r.base, before.value))
              && (after.Some? ==> HeldElsewhere(parse, v, r.base, after.value))))
  {
    hide KeysOf, HeldElsewhere;
    KeysKept(parse, s.vlt.value, Changed(s.vlt.value, r), r.base);
  }

  /** And such a change exists: deleting the only Base while the store cannot be written. */
  lemma FailedSaveLeavesAKey(parse: Parser, p: Profile)
    requires p.privateKey != "" && parse(p.privateKey).Some?
    ensures var s := Run(parse, Started(map["b" := p]), [Call(Unlock, true), Call(Delete("b"), false)]);
      s.vlt == Some(map[]) && s.keyring == {parse(p.privateKey).value}
  {
    var calls := [Call(Unlock, true), Call(Delete("b"), false)];
    assert calls[..1] == [Call(Unlock, true)] && calls[..1][..0] == [];
    assert Run(parse, Started(map["b" := p]), []) == Started(map["b" := p]);
    var unlocked := Run(parse, Started(map["b" := p]), calls[..1]);
    assert unlocked == State(Some(map["b" := p]), map["b" := p], KeysOf(parse, map["b" := p]));
    assert map["b" := p]["b"] == p;
    assert map["b" := p] - {"b"} == map[];
  }

  // ------------------------------------------------------------------------ secrets over runs

  /** Whether the vault is unlocked after a run, from the requests alone. */
  predicate Unlocked(calls: seq<Call>) {
    calls != [] &&
    match calls[|calls| - 1].request
    case Unlock => calls[|calls| - 1].ok || Unlocked(calls[..|calls| - 1])
    case Lock => false
    case _ => Unlocked(calls[..|calls| - 1])
  }

  /** The value a field should have that a put does not clear: the last non-empty one written to the Base
      since it was last deleted, ignoring requests refused because the vault was locked. */
  function LastWritten(initial: string, calls: seq<Call>, base: string, f: KeptField): string {
    if calls == [] then initial
    else
      var before, r := calls[..|calls| - 1], calls[|calls| - 1].request;
      var earlier := LastWritten(initial, before, base, f);
      if !Unlocked(before) then earlier
      else if r == Delete(base) then ""
      else if r.Put? && r.base == base && r.profile.Some? then OrElse(r.profile.value.Kept(f), earlier)
      else earlier
  }

  /** The profile of the last put since the Base was last deleted. */
  function LastPut(initial: Option<Profile>, calls: seq<Call>, base: string): Option<Profile> {
    if calls == [] then initial
    else
      var before, r := calls[..|calls| - 1], calls[|calls| - 1].request;
      var earlier := LastPut(initial, before, base);
      if !Unlocked(before) then earlier
      else if r == Delete(base) then None
      else if r.Put? && r.base == base && r.profile.Some? then r.profile
      else earlier
  }

  /** The public key goes with the private key: a put that brings a private key brings both, and one that
      does not changes the public key only if it says so. */
  function LastPublicKey(initial: string, calls: seq<Call>, base: string): string {
    if calls == [] then initial
    else
      var before, r := calls[..|calls| - 1], calls[|calls| - 1].request;
      var earlier := LastPublicKey(initial, before, base);
      if !Unlocked(before) then earlier
      else if r == Delete(base) then ""
      else if r.Put? && r.base == base && r.profile.Some? then
        if r.profile.value.privateKey != "" then r.profile.value.publicKey
        else OrElse(r.profile.value.publicKey, earlier)
      else earlier
  }

  function StoredValue(v: Vault, base: string, f: KeptField): string {
    if Find(v, base).Some? then Find(v, base).value.Kept(f) else ""
  }

  function StoredPublicKey(v: Vault, base: string): string {
    if Find(v, base).Some? then Find(v, base).value.publicKey else ""
  }

  lemma {:induction false} UnlockedTracks(parse: Parser, store: Vault, calls: seq<Call>)
    ensures Run(parse, Started(store), calls).vlt.Some? <==> Unlocked(calls)
    decreases |calls|
  {
    if calls != [] {
      UnlockedTracks(parse, store, calls[..|calls| - 1]);
    }
  }

  /** Whether a request that comes after `before` rebuilds the keyring, or empties it. */
  predicate Reloads(before: seq<Call>, c: Call) {
    match c.request
    case Unlock => c.ok
    case Lock => true
    case Put(_, profile) => c.ok && profile.Some? && Unlocked(before)
    case Delete(_) => c.ok && Unlocked(before)
    case _ => false
  }

  /** How many requests there were up to the last one that did. */
  function LastReload(calls: seq<Call>): (n: nat)
    ensures n <= |calls|
  {
    if calls == [] then 0
    else if Reloads(calls[..|calls| - 1], calls[|calls| - 1]) then |calls|
    else LastReload(calls[..|calls| - 1])
  }

  /** Over any run, whatever fails to be saved: the keyring is that of the vault as it was when the
      keyring was last reloaded, and there it was in step with vault and store. So it is in step again
      after the first unlock, put or delete that succeeds, and stays so up to the next write that fails. */
  lemma {:induction false} KeyringSinceReload(parse: Parser, store: Vault, calls: seq<Call>)
    ensures var n := LastReload(calls);
      var reloaded, s := Run(parse, Started(store), calls[..n]), Run(parse, Started(store), calls);
      && InStep(parse, reloaded)
      && s.keyring == reloaded.keyring && (s.vlt.Some? <==> reloaded.vlt.Some?)
      && ((forall i | n <= i < |calls| :: !calls[i].request.Put? && !calls[i].request.Delete?) ==>
           s == reloaded)
    decreases |calls|
  {
    var n := LastReload(calls);
    if calls != [] {
      var last := |calls| - 1;
      var before := calls[..last];
      UnlockedTracks(parse, store, before);
      assert calls[..|calls|] == calls;
      hide KeysOf, Merged;
      if n <= last {
        KeyringSinceReload(parse, store, before);
        assert before[..n] == calls[..n];
        assert forall i | n <= i < last :: before[i] == calls[i];
      }
    }
  }

  /** What one write that is saved makes of one Base. */
  lemma ValueStep(v: Vault, r: Request, base: string, f: KeptField)
    requires base != "" && (r.Delete? || (r.Put? && r.profile.Some?))
    ensures var before := StoredValue(v, base, f);
      StoredValue(Changed(v, r), base, f) ==
        if r == Delete(base) then ""
        else if r.Put? && r.base == base then OrElse(r.profile.value.Kept(f), before)
        else before
  {
    if r.Put? && Find(v, r.base).Some? {
      MergedKept(r.profile.value, Find(v, r.base).value, f);
    }
    hide Profile.MergeSecretsFrom, Profile.Kept;
  }

  lemma RestStep(v: Vault, r: Request, base: string)
    requires base != "" && (r.Delete? || (r.Put? && r.profile.Some?))
    ensures var before, after := Find(v, base), Find(Changed(v, r), base);
      if r == Delete(base) then after.None?
      else if r.Put? && r.base == base then
        && after.Some? && SamePlain(after.value, r.profile.value)
        && after.value.publicKey ==
             if r.profile.value.privateKey != "" then r.profile.value.publicKey
             else OrElse(r.profile.value.publicKey, StoredPublicKey(v, base))
      else after == before
  {
    if r.Put? && Find(v, r.base).Some? {
      MergedRest(r.profile.value, Find(v, r.base).value);
    }
    hide Profile.MergeSecretsFrom;
  }

  lemma StoreStep(parse: Parser, s: State, c: Call)
    requires InStep(parse, s) && (c.request.Put? || c.request.Delete? ==> c.ok)
    ensures Step(parse, s, c.request, c.ok).store ==
      if s.vlt.Some? && (c.request.Delete? || (c.request.Put? && c.request.profile.Some?))
      then Changed(s.store, c.request) else s.store
  {
    hide KeysOf, Merged;
  }

  lemma RunStep(parse: Parser, store: Vault, calls: seq<Call>)
    requires SavesSucceed(calls) && calls != []
    ensures var before, r := calls[..|calls| - 1], calls[|calls| - 1].request;
      var s := Run(parse, Started(store), before);
      && SavesSucceed(before)
      && Run(parse, Started(store), calls).store ==
           if Unlocked(before) && (r.Delete? || (r.Put? && r.profile.Some?)) then Changed(s.store, r) else s.store
  {
    var n := |calls| - 1;
    assert SavesSucceed(calls[..n]);
    KeyringInStep(parse, store, calls[..n]);
    UnlockedTracks(parse, store, calls[..n]);
    assert calls[n].request.Put? || calls[n].request.Delete? ==> calls[n].ok;
    StoreStep(parse, Run(parse, Started(store), calls[..n]), calls[n]);
    hide Step, Changed, InStep, SavesSucceed;
  }

  /** No put clears a secret or a backup field: over any run of gets, edits, puts, deletes, locks and unlocks
      whose saves succeed, each of them is, for each Base, the last non-empty value written to it. */
  lemma {:induction false} SecretsSurvive(parse: Parser, store: Vault, calls: seq<Call>, base: string, f: KeptField)
    requires SavesSucceed(calls) && base != ""
    ensures StoredValue(Run(parse, Started(store), calls).store, base, f)
      == LastWritten(StoredValue(store, base, f), calls, base, f)
    decreases |calls|
  {
    if calls != [] {
      var n := |calls| - 1;
      var s, r := Run(parse, Started(store), calls[..n]), calls[n].request;
      RunStep(parse, store, calls);
      SecretsSurvive(parse, store, calls[..n], base, f);
      if r.Delete? || (r.Put? && r.profile.Some?) {
        ValueStep(s.store, r, base, f);
      }
      hide Run, Changed, StoredValue, SavesSucceed, Profile.Kept;
    }
  }

  /** And every other field is that of the last put; what was deleted is gone. */
  lemma {:induction false} PlainFieldsFollow(parse: Parser, store: Vault, calls: seq<Call>, base: string)
    requires SavesSucceed(calls) && base != ""
    ensures var v, q := Find(Run(parse, Started(store), calls).store, base), LastPut(Find(store, base), calls, base);
      && (v.Some? <==> q.Some?) && (v.Some? ==> SamePlain(v.value, q.value))
      && StoredPublicKey(Run(parse, Started(store), calls).store, base)
           == LastPublicKey(StoredPublicKey(store, base), calls, base)
    decreases |calls|
  {
    if calls != [] {
      var n := |calls| - 1;
      var s, r := Run(parse, Started(store), calls[..n]), calls[n].request;
      RunStep(parse, store, calls);
      PlainFieldsFollow(parse, store, calls[..n], base);
      if r.Delete? || (r.Put? && r.profile.Some?) {
        RestStep(s.store, r, base);
      }
      hide Run, Changed, SavesSucceed;
    }
  }

  // ----------------------------------------------------------------------- the server itself

  datatype BackupCredentials = BackupCredentials(
    repo: string, password: string, awsAccessKeyID: string, awsSecretAccessKey: string,
    b2AccountID: string, b2AccountKey: string, adminAWSAccessKeyID: string, adminAWSSecretAccessKey: string,
    adminB2AccountID: string, adminB2AccountKey: string)

  function CredentialsOf(p: Profile): BackupCredentials {
    BackupCredentials(p.backupRepo, p.resticPassword, p.awsAccessKeyID, p.awsSecretAccessKey,
      p.b2AccountID, p.b2AccountKey, p.adminAWSAccessKeyID, p.adminAWSSecretAccessKey,
      p.adminB2AccountID, p.adminB2AccountKey)
  }

  /** What a get and a get of the backup credentials answer after any run whose saves succeeded, field by
      field: what was put last, or, of the fields a put does not clear, what was last put there. */
  lemma AnswersAfter(parse: Parser, store: Vault, calls: seq<Call>, base: string)
    requires SavesSucceed(calls) && base != "" && Unlocked(calls)
    ensures var vlt := Run(parse, Started(store), calls).vlt;
      var put := LastPut(Find(store, base), calls, base);
      && vlt.Some? && (Find(vlt.value, base).Some? <==> put.Some?)
      && (put.Some? ==> IsAnswer(Find(vlt.value, base).value, put.value,
                                 LastPublicKey(StoredPublicKey(store, base), calls, base),
                                 f => LastWritten(StoredValue(store, base, f), calls, base, f)))
  {
    var s := Run(parse, Started(store), calls);
    KeyringInStep(parse, store, calls);
    UnlockedTracks(parse, store, calls);
    PlainFieldsFollow(parse, store, calls, base);
    forall f: KeptField ensures
      StoredValue(s.store, base, f) == LastWritten(StoredValue(store, base, f), calls, base, f)
    {
      SecretsSurvive(parse, store, calls, base, f);
    }
    hide Run, LastWritten, LastPut, LastPublicKey, Unlocked, SavesSucceed, KeysOf, CredentialsOf;
    if Find(s.store, base).Some? {
      IsAnswered(Find(s.store, base).value, LastPut(Find(store, base), calls, base).value,
                 LastPublicKey(StoredPublicKey(store, base), calls, base),
                 f => LastWritten(StoredValue(store, base, f), calls, base, f));
    }
  }

  ghost predicate IsAnswer(stored: Profile, put: Profile, publicKey: string, kept: KeptField -> string) {
    var shown, creds := stored.Redacted(), CredentialsOf(stored);
    && shown.host == put.host && shown.sshUser == put.sshUser
    && shown.sshPort == put.sshPort && shown.apiPort == put.apiPort && shown.token == put.token
    && shown.configRepoURL == put.configRepoURL && shown.configRef == put.configRef && shown.localVM == put.localVM
    && shown.publicKey == publicKey && shown.privateKey == ""
    && shown.backupRepo == creds.repo == kept(BackupRepo)
    && shown.resticPassword == "" && creds.password == kept(Sensitive(ResticPassword))
    && shown.awsAccessKeyID == creds.awsAccessKeyID == kept(AWSKeyID)
    && shown.awsSecretAccessKey == "" && creds.awsSecretAccessKey == kept(Sensitive(AWSSecret))
    && shown.b2AccountID == creds.b2AccountID == kept(B2AccountID)
    && shown.b2AccountKey == "" && creds.b2AccountKey == kept(Sensitive(B2Key))
    && shown.adminAWSAccessKeyID == creds.adminAWSAccessKeyID == kept(AdminAWSKeyID)
    && shown.adminAWSSecretAccessKey == "" && creds.adminAWSSecretAccessKey == kept(Sensitive(AdminAWSSecret))
    && shown.adminB2AccountID == creds.adminB2AccountID == kept(AdminB2AccountID)
    && shown.adminB2AccountKey == "" && creds.adminB2AccountKey == kept(Sensitive(AdminB2Key))
  }

  lemma IsAnswered(stored: Profile, put: Profile, publicKey: string, kept: KeptField -> string)
    requires SamePlain(stored, put) && stored.publicKey == publicKey
    requires forall f: KeptField :: stored.Kept(f) == kept(f)
    ensures IsAnswer(stored, put, publicKey, kept)
  {
    assert kept(Sensitive(ResticPassword)) == stored.Secret(ResticPassword);
    assert stored.Kept(BackupRepo) == kept(BackupRepo) && stored.Kept(AWSKeyID) == kept(AWSKeyID);
    assert stored.Kept(Sensitive(AWSSecret)) == kept(Sensitive(AWSSecret));
    assert stored.Kept(B2AccountID) == kept(B2AccountID) && stored.Kept(Sensitive(B2Key)) == kept(Sensitive(B2Key));
    assert stored.Kept(AdminAWSKeyID) == kept(AdminAWSKeyID);
    assert stored.Kept(Sensitive(AdminAWSSecret)) == kept(Sensitive(AdminAWSSecret));
    assert stored.Kept(AdminB2AccountID) == kept(AdminB2AccountID);
    assert stored.Kept(Sensitive(AdminB2Key)) == kept(Sensitive(AdminB2Key));
  }

  datatype Code = Locked | NotFound | Other

  datatype Response =
    | Error(code: Code)
    | OK
    | Names(names: set<string>)
    | Shown(profile: Profile)
    | Backup(creds: BackupCredentials)

  /** Refused before the vault is looked at. */
  predicate Malformed(r: Request) {
    (r.Put? && r.profile.None?) || (r.ChangePassword? && r.newPassword == "")
  }

  class Server {
    const parse: Parser
    var vlt: Option<Vault>
    var keyring: set<Key>
    var store: Vault
    var lastUse: int
    var unlockedAt: int
    var idleTimeout: int

    ghost function Abs(): State
      reads this
    {
      State(vlt, store, keyring)
    }

    constructor (parse: Parser, store: Vault, idleTimeout: int)
      ensures this.parse == parse && Abs() == Started(store) && this.idleTimeout == idleTimeout
    {
      this.parse, this.store := parse, store;
      vlt, keyring := None, {};
      lastUse, unlockedAt, this.idleTimeout := 0, 0, idleTimeout;
    }

    /** Rebuilds the signing keyring from a vault. */
    method ReloadKeyring(v: Vault)
      modifies this`keyring
      ensures keyring == KeysOf(parse, v)
    {
      var kr: set<Key> := {};
      var rest := v.Keys;
      while rest != {}
        invariant rest <= v.Keys
        invariant kr == KeysOf(parse, map b | b in v && b !in rest :: v[b])
      {
        var name :| name in rest;
        ghost var done := map b | b in v && b !in rest :: v[b];
        ghost var done' := map b | b in v && b !in rest - {name} :: v[b];
        rest := rest - {name};
        KeysOfMore(parse, v, done, done', name);
        var p := Find(v, name);
        if p.None? || p.value.privateKey == "" {
          continue;
        }
        var raw := parse(p.value.privateKey);
        if raw.None? {
          continue;
        }
        kr := kr + {raw.value};
      }
      assert (map b | b in v && b !in rest :: v[b]) == v;
      keyring := kr;
    }

    method Unlock(opens: bool, idleTimeoutSeconds: int, now: int) returns (resp: Response)
      modifies this
      ensures Abs() == Step(parse, old(Abs()), Request.Unlock, opens)
      ensures resp == if opens then OK else Error(Other)
      ensures opens && idleTimeoutSeconds >= 0 ==> idleTimeout == idleTimeoutSeconds
      ensures !opens || idleTimeoutSeconds < 0 ==> idleTimeout == old(idleTimeout)
      ensures opens ==> unlockedAt == lastUse == now
      ensures !opens ==> unlockedAt == old(unlockedAt) && lastUse == old(lastUse)
    {
      if !opens {
        return Error(Other);
      }
      vlt := Some(store);
      unlockedAt := now;
      lastUse := unlockedAt;
      if idleTimeoutSeconds >= 0 {
        idleTimeout := idleTimeoutSeconds;
      }
      ReloadKeyring(store);
      return OK;
    }

    method LockVault()
      modifies this`vlt, this`unlockedAt, this`keyring
      ensures Abs() == Step(parse, old(Abs()), Request.Lock, true) && unlockedAt == 0
    {
      vlt := None;
      unlockedAt := 0;
      keyring := {};
    }

    /** Dispatch of the operations that need the vault; `saves` is the outcome of Vault.Save. Every
        answer is read off the unlocked copy, and every effect is the machine's. */
    method Dispatch(r: Request, saves: bool, now: int) returns (resp: Response)
      requires !r.Unlock? && !r.Lock?
      modifies this
      ensures Abs() == Step(parse, old(Abs()), r, saves)
      ensures idleTimeout == old(idleTimeout) && unlockedAt == old(unlockedAt)
      ensures Malformed(r) ==> resp == Error(Other) && lastUse == old(lastUse)
      ensures !Malformed(r) && old(vlt).None? ==> resp == Error(Locked) && lastUse == old(lastUse)
      ensures !Malformed(r) && old(vlt).Some? ==> lastUse == now
      ensures old(vlt).Some? && r.List? ==> resp == Names(old(vlt).value.Keys)
      ensures old(vlt).Some? && r.Get? ==>
        resp == if r.base == "" then Error(Other)
                else if r.base !in old(vlt).value then Error(NotFound)
                else Shown(old(vlt).value[r.base].Redacted())
      ensures old(vlt).Some? && r.GetBackup? ==>
        resp == if r.base == "" then Error(Other)
                else if r.base !in old(vlt).value then Error(NotFound)
                else Backup(CredentialsOf(old(vlt).value[r.base]))
      ensures old(vlt).Some? && r.Sign? ==> resp == if r.key in old(keyring) then OK else Error(Other)
      ensures !Malformed(r) && old(vlt).Some? && (r.Delete? || r.Put? || r.ChangePassword?) ==>
        resp == if saves then OK else Error(Other)
    {
      hide KeysOf, Profile.MergeSecretsFrom;
      if r.Put? && r.profile.None? {
        return Error(Other);
      }
      if r.ChangePassword? && r.newPassword == "" {
        return Error(Other);
      }
      if vlt.None? {
        return Error(Locked);
      }
      lastUse := now;
      var v := vlt.value;
      match r
      case List => return Names(v.Keys);
      case Get(base) =>
        var p := Find(v, base);
        return if p.Some? then Shown(p.value.Redacted()) else Missing(base);
      case GetBackup(base) =>
        var p := Find(v, base);
        return if p.Some? then Backup(CredentialsOf(p.value)) else Missing(base);
      case Put(base, profile) =>
        var p := profile.value;
        var existing := Find(v, base);
        if existing.Some? {
          p := p.MergeSecretsFrom(existing.value);
        }
        v := v[base := p];
        resp := Save(v, saves);
      case Delete(base) =>
        v := v - {base};
        resp := Save(v, saves);
      case ChangePassword(_) =>
        if !saves {
          return Error(Other);
        }
        store := v;
        return OK;
      case Sign(key) =>
        return if key in keyring then OK else Error(Other);
    }

    /** The tail shared by put and delete: the changed copy is kept, then saved, then re-keyed. */
    method Save(v: Vault, saves: bool) returns (resp: Response)
      requires vlt.Some?
      modifies this`vlt, this`store, this`keyring
      ensures Abs() == Written(parse, old(Abs()), v, saves)
      ensures resp == if saves then OK else Error(Other)
    {
      vlt := Some(v);
      if !saves {
        return Error(Other);
      }
      store := v;
      ReloadKeyring(v);
      return OK;
    }
  }

  function Missing(base: string): Response {
    if base == "" then Error(Other) else Error(NotFound)
  }

  /** One more profile adds its key, if it has one that parses. */
  lemma KeysOfMore(parse: Parser, v: Vault, done: Vault, more: Vault, name: string)
    requires name in v && name !in done && more == done[name := v[name]]
    ensures KeysOf(parse, more) == KeysOf(parse, done)
      + (if name != "" && v[name].privateKey != "" && parse(v[name].privateKey).Some?
         then {parse(v[name].privateKey).value} else {})
  {
    KeysOfMembers(parse, done);
    KeysOfMembers(parse, more);
    hide KeysOf;
    var key := KeyAt(parse, more, name);
    assert key.Some? <==> name != "" && v[name].privateKey != "" && parse(v[name].privateKey).Some?;
    forall base | base in done ensures base != name && KeyAt(parse, more, base) == KeyAt(parse, done, base) {}
    hide KeyAt;
    forall k ensures k in KeysOf(parse, more) <==> k in KeysOf(parse, done) || key == Some(k) {
      if k in KeysOf(parse, more) {
        var base :| base in more && KeyAt(parse, more, base) == Some(k);
        assert base == name || base in done;
      }
    }
  }
}
