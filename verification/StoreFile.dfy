/** The store's file: records in the clear, secrets sealed in one map. */
module StoreFile {
  import opened Options
  import opened Records
  import opened Sequences
  import opened StoreFilters
  import opened DesktopStore
  import opened DesktopRuns

  const SEALED_VERSION := 1

  type Secrets = map<string, string>

  /** Authenticated encryption under the keychain's master key, for some nonce. */
  datatype Cipher = Cipher(seal: Secrets -> string, open: string -> Option<Secrets>)

  ghost predicate Faithful(c: Cipher) {
    forall m :: c.seal(m) != "" && c.open(c.seal(m)) == Some(m)
  }

  datatype File = File(
    keys: seq<AuthKey>, profiles: seq<Profile>, server: Option<ServerConfig>,
    loginItemSetUp: bool, sealed: string, version: nat)

  /** A loaded store, and why its secrets are missing if they are. */
  datatype Loaded = Loaded(store: Store, loginItemSetUp: bool, unsealFailed: bool, resetFrom: Option<nat>)

  datatype KeychainError = KeychainUnavailable

  // ---- The secrets ---------------------------------------------------------------------------

  type Entry = (string, string)

  function RelaySecretId(profileId: string): string {
    PROFILE_RELAY_PREFIX + profileId
  }

  function OrEmpty(token: Option<string>): string {
    if token.Some? then token.value else ""
  }

  function KeyEntries(keys: seq<AuthKey>): seq<Entry> {
    seq(|keys|, i requires 0 <= i < |keys| => (keys[i].id, keys[i].secret))
  }

  function ProfileEntries(profiles: seq<Profile>): seq<Entry> {
    seq(|profiles|, i requires 0 <= i < |profiles| =>
      (RelaySecretId(profiles[i].id), OrEmpty(profiles[i].relayAuthToken)))
  }

  function ServerEntries(server: Option<ServerConfig>): seq<Entry> {
    if server.None? then []
    else [(SERVER_SECRET_ID, server.value.secret), (SERVER_RELAY_SECRET_ID, OrEmpty(server.value.relayAuthToken))]
  }

  function SecretEntries(s: Store): seq<Entry> {
    KeyEntries(s.keys) + ProfileEntries(s.profiles) + ServerEntries(s.server)
  }

  predicate NoSecrets(entries: seq<Entry>) {
    forall i :: 0 <= i < |entries| ==> entries[i].1 == ""
  }

  /** The entries with a secret, collected into a map. */
  function SecretMap(entries: seq<Entry>): Secrets {
    if entries == [] then map[]
    else
      var before, last := SecretMap(entries[..|entries| - 1]), entries[|entries| - 1];
      if last.1 == "" then before else before[last.0 := last.1]
  }

  function Lookup(secrets: Secrets, id: string): Option<string> {
    if id in secrets then Some(secrets[id]) else None
  }

  // ---- Saving ----------------------------------------------------------------------------------

  function Off(forwards: seq<PortForward>): seq<PortForward> {
    seq(|forwards|, i requires 0 <= i < |forwards| => forwards[i].(enabled := false))
  }

  /** Fields that are never written read back as their defaults. */
  function ClearKeys(keys: seq<AuthKey>): seq<AuthKey> {
    seq(|keys|, i requires 0 <= i < |keys| => keys[i].(secret := ""))
  }

  function ClearProfiles(profiles: seq<Profile>): seq<Profile> {
    seq(|profiles|, i requires 0 <= i < |profiles| =>
      profiles[i].(relayAuthToken := None, forwards := Off(profiles[i].forwards)))
  }

  function ClearServer(server: Option<ServerConfig>): Option<ServerConfig> {
    if server.None? then None else Some(server.value.(secret := "", relayAuthToken := None))
  }

  function Sealed(keychain: Option<Cipher>, entries: seq<Entry>): Result<string, KeychainError> {
    if NoSecrets(entries) then Ok("")
    else if keychain.None? then Err(KeychainUnavailable)
    else Ok(keychain.value.seal(SecretMap(entries)))
  }

  function Saved(keychain: Option<Cipher>, s: Store, loginItemSetUp: bool): Result<File, KeychainError> {
    match Sealed(keychain, SecretEntries(s))
    case Err(e) => Err(e)
    case Ok(sealed) =>
      Ok(File(ClearKeys(s.keys), ClearProfiles(s.profiles), ClearServer(s.server), loginItemSetUp, sealed, SEALED_VERSION))
  }

  // ---- Loading ---------------------------------------------------------------------------------

  datatype Unsealed = Unsealed(secrets: Secrets, failed: bool, resetFrom: Option<nat>)

  function Unseal(keychain: Option<Cipher>, file: File): Result<Unsealed, KeychainError> {
    if file.sealed == "" then Ok(Unsealed(map[], false, None))
    else if file.version != SEALED_VERSION then Ok(Unsealed(map[], false, Some(file.version)))
    else if keychain.None? then Err(KeychainUnavailable)
    else
      match keychain.value.open(file.sealed)
      case Some(secrets) => Ok(Unsealed(secrets, false, None))
      case None => Ok(Unsealed(map[], true, None))
  }

  function FilledKeys(secrets: Secrets, keys: seq<AuthKey>): seq<AuthKey> {
    seq(|keys|, i requires 0 <= i < |keys| =>
      if keys[i].id in secrets then keys[i].(secret := secrets[keys[i].id]) else keys[i])
  }

  function FilledProfiles(secrets: Secrets, profiles: seq<Profile>): seq<Profile> {
    seq(|profiles|, i requires 0 <= i < |profiles| =>
      profiles[i].(relayAuthToken := Lookup(secrets, RelaySecretId(profiles[i].id))))
  }

  function FilledServer(parse: KeyParser, secrets: Secrets, s: ServerConfig): ServerConfig {
    s.(secret := if SERVER_SECRET_ID in secrets then secrets[SERVER_SECRET_ID] else s.secret,
       relayAuthToken := Lookup(secrets, SERVER_RELAY_SECRET_ID),
       authorizedClients := KeptClients(parse, s.authorizedClients))
  }

  function LoadedFrom(parse: KeyParser, file: File, u: Unsealed): Loaded {
    Loaded(
      Store(FilledKeys(u.secrets, KeptKeys(file.keys)),
            KeptProfiles(FilledProfiles(u.secrets, file.profiles)),
            if file.server.None? then None else Some(FilledServer(parse, u.secrets, file.server.value))),
      file.loginItemSetUp, u.failed, u.resetFrom)
  }

  function Load(keychain: Option<Cipher>, parse: KeyParser, file: File): Result<Loaded, KeychainError> {
    match Unseal(keychain, file)
    case Err(e) => Err(e)
    case Ok(u) => Ok(LoadedFrom(parse, file, u))
  }

  method SaveStore(keychain: Option<Cipher>, s: Store, loginItemSetUp: bool) returns (r: Result<File, KeychainError>)
    ensures r == Saved(keychain, s, loginItemSetUp)
  {
    var entries := SecretEntries(s);
    var sealed := "";
    if !NoSecrets(entries) {
      if keychain.None? {
        return Err(KeychainUnavailable);
      }
      var secrets := CollectSecrets(entries);
      sealed := keychain.value.seal(secrets);
    }
    return Ok(File(ClearKeys(s.keys), ClearProfiles(s.profiles), ClearServer(s.server), loginItemSetUp, sealed, SEALED_VERSION));
  }

  method CollectSecrets(entries: seq<Entry>) returns (secrets: Secrets)
    ensures secrets == SecretMap(entries)
  {
    secrets := map[];
    for i := 0 to |entries|
      invariant secrets == SecretMap(entries[..i])
    {
      assert entries[..i + 1][..i] == entries[..i];
      if entries[i].1 != "" {
        secrets := secrets[entries[i].0 := entries[i].1];
      }
    }
    assert entries[..|entries|] == entries;
  }

  method LoadStore(keychain: Option<Cipher>, parse: KeyParser, file: File) returns (r: Result<Loaded, KeychainError>)
    ensures r == Load(keychain, parse, file)
  {
    var keys := DropInvalidKeys(file.keys);
    var u := Unseal(keychain, file);
    if u.Err? {
      return Err(u.error);
    }
    var secrets := u.value.secrets;
    keys := FillKeys(secrets, keys);
    var profiles := FillProfiles(secrets, file.profiles);
    profiles := DropInvalid(profiles);
    var server := file.server;
    if server.Some? {
      var clients := DropInvalidClients(parse, server.value.authorizedClients);
      if SERVER_SECRET_ID in secrets {
        server := Some(server.value.(secret := secrets[SERVER_SECRET_ID]));
      }
      server := Some(server.value.(relayAuthToken := Lookup(secrets, SERVER_RELAY_SECRET_ID), authorizedClients := clients));
    }
    return Ok(Loaded(Store(keys, profiles, server), file.loginItemSetUp, u.value.failed, u.value.resetFrom));
  }

  method FillKeys(secrets: Secrets, keys: seq<AuthKey>) returns (filled: seq<AuthKey>)
    ensures filled == FilledKeys(secrets, keys)
  {
    filled := keys;
    for i := 0 to |keys|
      invariant |filled| == |keys| && filled[i..] == keys[i..]
      invariant filled[..i] == FilledKeys(secrets, keys)[..i]
    {
      if keys[i].id in secrets {
        filled := filled[i := keys[i].(secret := secrets[keys[i].id])];
      }
    }
  }

  method FillProfiles(secrets: Secrets, profiles: seq<Profile>) returns (filled: seq<Profile>)
    ensures filled == FilledProfiles(secrets, profiles)
  {
    filled := profiles;
    for i := 0 to |profiles|
      invariant |filled| == |profiles| && filled[i..] == profiles[i..]
      invariant filled[..i] == FilledProfiles(secrets, profiles)[..i]
    {
      filled := filled[i := profiles[i].(relayAuthToken := Lookup(secrets, RelaySecretId(profiles[i].id)))];
    }
  }

  // ---- The sealed map loses nothing -------------------------------------------------------------

  predicate EntriesApart(a: Entry, b: Entry) {
    a.0 != b.0
  }

  /** What the map holds comes from an entry, and every entry with a secret has its id in it. */
  lemma {:induction false} SecretMapExact(entries: seq<Entry>)
    ensures forall id :: id in SecretMap(entries) ==> (id, SecretMap(entries)[id]) in entries && SecretMap(entries)[id] != ""
    ensures forall e :: e in entries && e.1 != "" ==> e.0 in SecretMap(entries)
  {
    if entries != [] {
      var last := |entries| - 1;
      SecretMapExact(entries[..last]);
      assert entries == entries[..last] + [entries[last]];
    }
  }

  /** When no two entries share an id, looking one up gives its secret back. */
  lemma LookupEntry(entries: seq<Entry>, i: nat)
    requires Pairwise(EntriesApart, entries) && i < |entries|
    ensures Lookup(SecretMap(entries), entries[i].0) == if entries[i].1 == "" then None else Some(entries[i].1)
  {
    SecretMapExact(entries);
    var id := entries[i].0;
    assert entries[i] in entries;
    if id in SecretMap(entries) {
      var k :| 0 <= k < |entries| && entries[k] == (id, SecretMap(entries)[id]);
      assert k == i by {
        assert forall a, b :: 0 <= a < b < |entries| ==> EntriesApart(entries[a], entries[b]);
      }
    }
  }

  lemma PairwiseConcat(a: seq<Entry>, b: seq<Entry>)
    requires Pairwise(EntriesApart, a) && Pairwise(EntriesApart, b)
    requires forall i, j :: 0 <= i < |a| && 0 <= j < |b| ==> a[i].0 != b[j].0
    ensures Pairwise(EntriesApart, a + b)
  {
  }

  lemma RelayIdsReserved(a: string, b: string)
    ensures IsReservedSecretId(RelaySecretId(a))
    ensures RelaySecretId(a) != SERVER_SECRET_ID && RelaySecretId(a) != SERVER_RELAY_SECRET_ID
    ensures RelaySecretId(a) == RelaySecretId(b) ==> a == b
  {
    assert RelaySecretId(a)[0] == 'r' && SERVER_SECRET_ID[0] == 's' && SERVER_RELAY_SECRET_ID[0] == 's';
    assert RelaySecretId(a)[|PROFILE_RELAY_PREFIX|..] == a && RelaySecretId(b)[|PROFILE_RELAY_PREFIX|..] == b;
  }

  /** The ids of keys, relay tokens and the server never collide in the sealed map. */
  lemma SecretIdsApart(s: Store)
    requires KeysOk(s.keys) && ProfilesOk(s.profiles)
    ensures Pairwise(EntriesApart, SecretEntries(s))
  {
    var ks, ps, ss := KeyEntries(s.keys), ProfileEntries(s.profiles), ServerEntries(s.server);
    forall i, j | 0 <= i < j < |ps| ensures EntriesApart(ps[i], ps[j]) {
      RelayIdsReserved(s.profiles[i].id, s.profiles[j].id);
    }
    forall i, j | 0 <= i < |ks| && 0 <= j < |ps| ensures ks[i].0 != ps[j].0 {
      assert GoodKey(s.keys[i]);
      RelayIdsReserved(s.profiles[j].id, s.profiles[j].id);
    }
    PairwiseConcat(ks, ps);
    forall i, j | 0 <= i < |ks + ps| && 0 <= j < |ss| ensures (ks + ps)[i].0 != ss[j].0 {
      if i < |ks| {
        assert GoodKey(s.keys[i]);
      } else {
        RelayIdsReserved(s.profiles[i - |ks|].id, s.profiles[i - |ks|].id);
      }
    }
    assert SERVER_SECRET_ID[|SERVER_SECRET_ID| - 1] == 'r' && |SERVER_SECRET_ID| < |SERVER_RELAY_SECRET_ID|;
    PairwiseConcat(ks + ps, ss);
  }

  // ---- Save, then load ------------------------------------------------------------------------------

  /** What comes back: forwards are off, and an empty token is none. */
  function SettledToken(token: Option<string>): Option<string> {
    if token == Some("") then None else token
  }

  function SettledProfiles(profiles: seq<Profile>): seq<Profile> {
    seq(|profiles|, i requires 0 <= i < |profiles| =>
      profiles[i].(relayAuthToken := SettledToken(profiles[i].relayAuthToken), forwards := Off(profiles[i].forwards)))
  }

  function Settled(s: Store): Store {
    Store(s.keys, SettledProfiles(s.profiles),
          if s.server.None? then None
          else Some(s.server.value.(relayAuthToken := SettledToken(s.server.value.relayAuthToken))))
  }

  lemma KeysReturn(s: Store, secrets: Secrets)
    requires secrets == SecretMap(SecretEntries(s)) && Pairwise(EntriesApart, SecretEntries(s))
    ensures FilledKeys(secrets, ClearKeys(s.keys)) == s.keys
  {
    var entries := SecretEntries(s);
    forall i | 0 <= i < |s.keys| ensures FilledKeys(secrets, ClearKeys(s.keys))[i] == s.keys[i] {
      assert entries[i] == (s.keys[i].id, s.keys[i].secret);
      LookupEntry(entries, i);
    }
  }

  lemma ProfilesReturn(s: Store, secrets: Secrets)
    requires secrets == SecretMap(SecretEntries(s)) && Pairwise(EntriesApart, SecretEntries(s))
    ensures FilledProfiles(secrets, ClearProfiles(s.profiles)) == SettledProfiles(s.profiles)
  {
    var entries := SecretEntries(s);
    forall i | 0 <= i < |s.profiles|
      ensures FilledProfiles(secrets, ClearProfiles(s.profiles))[i] == SettledProfiles(s.profiles)[i]
    {
      assert entries[|s.keys| + i] == (RelaySecretId(s.profiles[i].id), OrEmpty(s.profiles[i].relayAuthToken));
      LookupEntry(entries, |s.keys| + i);
    }
  }

  lemma ServerReturns(parse: KeyParser, s: Store, secrets: Secrets)
    requires secrets == SecretMap(SecretEntries(s)) && Pairwise(EntriesApart, SecretEntries(s))
    requires s.server.Some? && KeptClients(parse, Clients(s)) == Clients(s)
    ensures FilledServer(parse, secrets, ClearServer(s.server).value) == Settled(s).server.value
  {
    var entries, n := SecretEntries(s), |s.keys| + |s.profiles|;
    assert entries[n] == (SERVER_SECRET_ID, s.server.value.secret);
    assert entries[n + 1] == (SERVER_RELAY_SECRET_ID, OrEmpty(s.server.value.relayAuthToken));
    LookupEntry(entries, n);
    LookupEntry(entries, n + 1);
  }

  lemma {:induction false} NothingSealed(entries: seq<Entry>)
    requires NoSecrets(entries)
    ensures SecretMap(entries) == map[]
  {
    if entries != [] {
      NothingSealed(entries[..|entries| - 1]);
    }
  }

  /** What was sealed is what is opened, and a store without secrets needs no keychain. */
  lemma Unseals(keychain: Option<Cipher>, s: Store, loginItemSetUp: bool)
    requires keychain.Some? ==> Faithful(keychain.value)
    requires Saved(keychain, s, loginItemSetUp).Ok?
    ensures Unseal(keychain, Saved(keychain, s, loginItemSetUp).value)
            == Ok(Unsealed(SecretMap(SecretEntries(s)), false, None))
  {
    if NoSecrets(SecretEntries(s)) {
      NothingSealed(SecretEntries(s));
    }
  }

  lemma FiltersKeepKeys(keys: seq<AuthKey>)
    requires KeysOk(keys)
    ensures KeptKeys(ClearKeys(keys)) == ClearKeys(keys)
  {
    KeysExact(ClearKeys(keys));
  }

  /** Only the id, name and server of a profile matter to its filter. */
  lemma FiltersKeepProfiles(profiles: seq<Profile>, changed: seq<Profile>)
    requires ProfilesOk(profiles) && |changed| == |profiles|
    requires forall i :: 0 <= i < |profiles| ==>
                           && changed[i].id == profiles[i].id && changed[i].name == profiles[i].name
                           && changed[i].serverNodeId == profiles[i].serverNodeId
    ensures KeptProfiles(changed) == changed
  {
    ProfilesExact(changed);
  }

  /** Saving a sound store and loading it restores everything, with every secret. It
      can only fail for want of a keychain, and only if there is a secret to seal. */
  lemma SaveThenLoad(lib: Libraries, keychain: Option<Cipher>, s: Store, loginItemSetUp: bool)
    requires StoreOk(lib, s) && (keychain.Some? ==> Faithful(keychain.value))
    ensures var saved := Saved(keychain, s, loginItemSetUp);
            if saved.Err? then keychain.None? && !NoSecrets(SecretEntries(s))
            else Load(keychain, lib.parse, saved.value) == Ok(Loaded(Settled(s), loginItemSetUp, false, None))
  {
    if Saved(keychain, s, loginItemSetUp).Ok? {
      Unseals(keychain, s, loginItemSetUp);
      SecretIdsApart(s);
      Restores(lib, s, loginItemSetUp, Saved(keychain, s, loginItemSetUp).value.sealed);
    }
  }

  lemma Restores(lib: Libraries, s: Store, loginItemSetUp: bool, sealed: string)
    requires StoreOk(lib, s) && Pairwise(EntriesApart, SecretEntries(s))
    ensures LoadedFrom(lib.parse,
                       File(ClearKeys(s.keys), ClearProfiles(s.profiles), ClearServer(s.server), loginItemSetUp, sealed, SEALED_VERSION),
                       Unsealed(SecretMap(SecretEntries(s)), false, None))
            == Loaded(Settled(s), loginItemSetUp, false, None)
  {
    var secrets := SecretMap(SecretEntries(s));
    FiltersKeepKeys(s.keys);
    FiltersKeepProfiles(s.profiles, SettledProfiles(s.profiles));
    ClientsExact(lib.parse, Clients(s));
    KeysReturn(s, secrets);
    ProfilesReturn(s, secrets);
    if s.server.Some? {
      ServerReturns(lib.parse, s, secrets);
    }
  }

  /** Quitting and launching again after any run of saves, deletions and imports. */
  lemma RelaunchRestores(lib: Libraries, keychain: Cipher, start: Store, run: seq<Action>, loginItemSetUp: bool)
    requires StoreOk(lib, start) && Valid(lib, start, run) && Canonical(lib.parse) && Faithful(keychain)
    ensures var s := After(lib, start, run);
            var saved := Saved(Some(keychain), s, loginItemSetUp);
            saved.Ok? && Load(Some(keychain), lib.parse, saved.value) == Ok(Loaded(Settled(s), loginItemSetUp, false, None))
  {
    RunsKeepStore(lib, start, run);
    SaveThenLoad(lib, Some(keychain), After(lib, start, run), loginItemSetUp);
  }

  // ---- Launch after launch -------------------------------------------------------------------------

  lemma FilledKeysOk(secrets: Secrets, keys: seq<AuthKey>)
    requires KeysOk(keys)
    ensures KeysOk(FilledKeys(secrets, keys))
  {
  }

  /** Whatever the file holds, hand-edited or not, a load gives a sound store. */
  lemma LoadIsSound(lib: Libraries, keychain: Option<Cipher>, file: File)
    requires Load(keychain, lib.parse, file).Ok?
    ensures StoreOk(lib, Load(keychain, lib.parse, file).value.store)
  {
    var secrets := Unseal(keychain, file).value.secrets;
    KeysExact(file.keys);
    FilledKeysOk(secrets, KeptKeys(file.keys));
    ProfilesExact(FilledProfiles(secrets, file.profiles));
    if file.server.Some? {
      ClientsExact(lib.parse, file.server.value.authorizedClients);
    }
  }

  lemma SettledIsSound(lib: Libraries, s: Store)
    requires StoreOk(lib, s)
    ensures StoreOk(lib, Settled(s))
  {
    FiltersKeepProfiles(s.profiles, SettledProfiles(s.profiles));
    ProfilesExact(SettledProfiles(s.profiles));
  }

  /** Each launch does its run, and the next starts from what was saved. */
  ghost predicate ValidLaunches(lib: Libraries, start: Store, launches: seq<seq<Action>>)
    decreases |launches|, 0
  {
    launches == [] ||
    (&& ValidLaunches(lib, start, launches[..|launches| - 1])
     && Valid(lib, Launched(lib, start, launches[..|launches| - 1]), launches[|launches| - 1]))
  }

  ghost function Launched(lib: Libraries, start: Store, launches: seq<seq<Action>>): Store
    requires ValidLaunches(lib, start, launches)
    decreases |launches|, 1
  {
    if launches == [] then start
    else Settled(After(lib, Launched(lib, start, launches[..|launches| - 1]), launches[|launches| - 1]))
  }

  /** From any loaded store, after any number of launches, the store is sound and what the
      last launch saved is what the next one loads. */
  lemma {:induction false} LaunchesChain(lib: Libraries, keychain: Cipher, start: Store, launches: seq<seq<Action>>, login: bool)
    requires StoreOk(lib, start) && Canonical(lib.parse) && Faithful(keychain) && ValidLaunches(lib, start, launches)
    ensures StoreOk(lib, Launched(lib, start, launches))
    ensures launches != [] ==>
              var s := After(lib, Launched(lib, start, launches[..|launches| - 1]), launches[|launches| - 1]);
              var saved := Saved(Some(keychain), s, login);
              saved.Ok? && Load(Some(keychain), lib.parse, saved.value)
                           == Ok(Loaded(Launched(lib, start, launches), login, false, None))
  {
    if launches != [] {
      var shorter, run := launches[..|launches| - 1], launches[|launches| - 1];
      LaunchesChain(lib, keychain, start, shorter, login);
      var before := Launched(lib, start, shorter);
      RelaunchRestores(lib, keychain, before, run, login);
      RunsKeepStore(lib, before, run);
      SettledIsSound(lib, After(lib, before, run));
    }
  }

  // ---- When the secrets cannot be had -----------------------------------------------------------------

  function Forgotten(s: Store): Store {
    Store(ClearKeys(s.keys), ClearProfiles(s.profiles), ClearServer(s.server))
  }

  /** A blob of another version, or one the keychain's key does not open, loses every
      secret and nothing else, and the load says which. */
  lemma SecretsLostWhole(lib: Libraries, keychain: Option<Cipher>, s: Store, file: File)
    requires StoreOk(lib, s) && file.sealed != ""
    requires file.keys == ClearKeys(s.keys) && file.profiles == ClearProfiles(s.profiles) && file.server == ClearServer(s.server)
    requires file.version == SEALED_VERSION ==> keychain.Some? && keychain.value.open(file.sealed).None?
    ensures Load(keychain, lib.parse, file) ==
            Ok(Loaded(Forgotten(s), file.loginItemSetUp, file.version == SEALED_VERSION,
                      if file.version == SEALED_VERSION then None else Some(file.version)))
  {
    FiltersKeepKeys(s.keys);
    FiltersKeepProfiles(s.profiles, ClearProfiles(s.profiles));
    ClientsExact(lib.parse, Clients(s));
    assert FilledKeys(map[], ClearKeys(s.keys)) == ClearKeys(s.keys);
    assert FilledProfiles(map[], ClearProfiles(s.profiles)) == ClearProfiles(s.profiles);
  }
}
