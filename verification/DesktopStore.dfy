/** Everything the desktop app stores, and what every save, deletion and import
    keeps true of it. */
module DesktopStore {
  import opened Options
  import opened Records
  import opened Sequences
  import opened Names
  import opened Ports
  import opened StoreFilters
  import opened Forms
  import opened Merging

  datatype Store = Store(keys: seq<AuthKey>, profiles: seq<Profile>, server: Option<ServerConfig>)

  /** The key libraries: the public half of a secret, and a public key's canonical token. */
  datatype Libraries = Libraries(publicOf: string -> Option<string>, parse: KeyParser)

  // ---- What is kept true ---------------------------------------------------------------------

  function Clients(s: Store): seq<AuthorizedClient> {
    if s.server.Some? then s.server.value.authorizedClients else []
  }

  predicate StoreOk(lib: Libraries, s: Store) {
    KeysOk(s.keys) && ProfilesOk(s.profiles) && ClientsOk(lib.parse, Clients(s))
  }

  /** The random ids: sixteen hexadecimal digits. */
  predicate HexId(id: string) {
    |id| == 16 && forall i :: 0 <= i < |id| ==> '0' <= id[i] <= '9' || 'a' <= id[i] <= 'f'
  }

  lemma HexIdIsNotReserved(id: string)
    requires HexId(id)
    ensures id != "" && !IsReservedSecretId(id)
  {
    assert PROFILE_RELAY_PREFIX[0] == 'r';
  }

  // ---- Profiles ----------------------------------------------------------------------------------

  function SavedProfile(s: Store, form: ProfileForm, freshId: string): Store {
    match ValidateProfile(form, freshId, s.profiles, s.keys)
    case Err(_) => s
    case Ok(q) =>
      match PositionOf(s.profiles, q.id)
      case Some(pos) => s.(profiles := s.profiles[pos := q])
      case None => s.(profiles := s.profiles + [q])
  }

  function DeletedProfile(s: Store, id: string): Store {
    match PositionOf(s.profiles, id)
    case Some(pos) => s.(profiles := s.profiles[..pos] + s.profiles[pos + 1..])
    case None => s
  }

  /** With unique ids the position found is the only one. */
  lemma SolePosition(profiles: seq<Profile>, id: string)
    requires ProfilesOk(profiles) && PositionOf(profiles, id).Some?
    ensures SoleProfile(profiles, PositionOf(profiles, id).value, id)
  {
  }

  lemma SaveProfileKeeps(lib: Libraries, s: Store, form: ProfileForm, freshId: string)
    requires StoreOk(lib, s) && (form.editing.None? ==> NoProfile(s.profiles, freshId))
    ensures StoreOk(lib, SavedProfile(s, form, freshId))
  {
    if ValidateProfile(form, freshId, s.profiles, s.keys).Ok? {
      ValidatedProfile(form, freshId, s.profiles, s.keys);
      PlacedProfile(s, form, freshId, ValidateProfile(form, freshId, s.profiles, s.keys).value);
    }
  }

  lemma PlacedProfile(s: Store, form: ProfileForm, freshId: string, q: Profile)
    requires ProfilesOk(s.profiles) && FitsProfile(form, freshId, s.profiles, s.keys, q)
    requires form.editing.None? ==> NoProfile(s.profiles, freshId)
    ensures var pos := PositionOf(s.profiles, q.id);
            ProfilesOk(if pos.Some? then s.profiles[pos.value := q] else s.profiles + [q])
  {
    var pos := PositionOf(s.profiles, q.id);
    if pos.Some? {
      SolePosition(s.profiles, q.id);
      ReplaceKeepsOk(s.profiles, pos.value, q);
    } else {
      AddKeepsOk(s.profiles, q);
    }
  }

  lemma DeleteProfileKeeps(lib: Libraries, s: Store, id: string)
    requires StoreOk(lib, s)
    ensures StoreOk(lib, DeletedProfile(s, id))
  {
  }

  // ---- Keys --------------------------------------------------------------------------------------

  function KeyPosition(keys: seq<AuthKey>, id: string): (r: Option<nat>)
    ensures r.Some? ==> r.value < |keys| && keys[r.value].id == id
    ensures r.None? ==> forall i :: 0 <= i < |keys| ==> keys[i].id != id
  {
    Position((k: AuthKey) => k.id == id, keys)
  }

  function SavedKey(lib: Libraries, s: Store, form: KeyForm, freshId: string): Store {
    match ValidateKey(lib.publicOf, form, freshId, s.keys)
    case Err(_) => s
    case Ok(k) =>
      match KeyPosition(s.keys, k.id)
      case Some(pos) => s.(keys := s.keys[pos := k])
      case None => s.(keys := s.keys + [k])
  }

  /** The profile form's "New key" prompt adds a generated key pair. */
  function CreatedKey(s: Store, input: string, freshId: string, publicKey: string, secret: string): Store {
    match ValidateKeyName(input, s.keys, None)
    case Err(_) => s
    case Ok(name) => s.(keys := s.keys + [AuthKey(freshId, name, publicKey, secret)])
  }

  predicate KeyInUse(profiles: seq<Profile>, id: string) {
    exists i :: 0 <= i < |profiles| && profiles[i].authKeyId == id
  }

  function NotKey(id: string): AuthKey -> bool {
    (k: AuthKey) => k.id != id
  }

  function DeletedKey(s: Store, id: string): Store {
    if KeyInUse(s.profiles, id) then s else s.(keys := Filter(NotKey(id), s.keys))
  }

  predicate NewKeyId(keys: seq<AuthKey>, id: string) {
    HexId(id) && !HasKey(keys, id)
  }

  predicate KeysApart(k: AuthKey, l: AuthKey) {
    k.id != l.id && k.name != l.name && k.publicKey != l.publicKey
  }

  lemma ReplacedKeyOk(keys: seq<AuthKey>, pos: nat, k: AuthKey)
    requires KeysOk(keys) && GoodKey(k) && pos < |keys|
    requires forall i :: 0 <= i < |keys| && i != pos ==> KeysApart(keys[i], k)
    ensures KeysOk(keys[pos := k])
  {
  }

  lemma AddedKeyOk(keys: seq<AuthKey>, k: AuthKey)
    requires KeysOk(keys) && GoodKey(k) && forall i :: 0 <= i < |keys| ==> KeysApart(keys[i], k)
    ensures KeysOk(keys + [k])
  {
  }

  lemma PlacedKey(keys: seq<AuthKey>, own: Option<string>, k: AuthKey)
    requires KeysOk(keys) && GoodKey(k)
    requires own == Some(k.id) || (own.None? && !HasKey(keys, k.id))
    requires !KeyNameUsed(keys, k.name, own) && !PublicUsed(keys, k.publicKey, own)
    ensures var pos := KeyPosition(keys, k.id);
            KeysOk(if pos.Some? then keys[pos.value := k] else keys + [k])
  {
    var pos := KeyPosition(keys, k.id);
    if pos.Some? {
      assert forall i :: 0 <= i < |keys| && i != pos.value ==> KeysApart(keys[i], k);
      ReplacedKeyOk(keys, pos.value, k);
    } else {
      assert forall i :: 0 <= i < |keys| ==> KeysApart(keys[i], k);
      AddedKeyOk(keys, k);
    }
  }

  predicate GoodKeyId(id: string) {
    id != "" && !IsReservedSecretId(id)
  }

  lemma SaveKeyKeeps(lib: Libraries, s: Store, form: KeyForm, freshId: string)
    requires StoreOk(lib, s) && (form.editing.None? ==> NewKeyId(s.keys, freshId))
    requires form.editing.Some? ==> GoodKeyId(form.editing.value)
    ensures StoreOk(lib, SavedKey(lib, s, form, freshId))
  {
    var result := ValidateKey(lib.publicOf, form, freshId, s.keys);
    if result.Ok? {
      ValidatedKeyName(form.name, s.keys, form.editing);
      if form.editing.None? {
        HexIdIsNotReserved(freshId);
      }
      PlacedKey(s.keys, form.editing, result.value);
    }
  }

  /** Saving the key form keeps the store sound if and only if it does not put a key
      under an empty or reserved id. No key of a sound store has such an id, so no form
      opened on one does. */
  lemma SaveKeyExact(lib: Libraries, s: Store, form: KeyForm, freshId: string)
    requires StoreOk(lib, s) && (form.editing.None? ==> NewKeyId(s.keys, freshId))
    ensures StoreOk(lib, SavedKey(lib, s, form, freshId)) <==>
              (form.editing.Some? && ValidateKey(lib.publicOf, form, freshId, s.keys).Ok? ==> GoodKeyId(form.editing.value))
  {
    if form.editing.None? || GoodKeyId(form.editing.value) {
      SaveKeyKeeps(lib, s, form, freshId);
    } else if ValidateKey(lib.publicOf, form, freshId, s.keys).Ok? {
      assert forall i :: 0 <= i < |s.keys| ==> GoodKey(s.keys[i]);
      var after := SavedKey(lib, s, form, freshId).keys;
      assert !GoodKey(after[|after| - 1]);
    }
  }

  lemma CreateKeyKeeps(lib: Libraries, s: Store, input: string, freshId: string, publicKey: string, secret: string)
    requires StoreOk(lib, s) && NewKeyId(s.keys, freshId) && !PublicUsed(s.keys, publicKey, None)
    ensures StoreOk(lib, CreatedKey(s, input, freshId, publicKey, secret))
  {
    if ValidateKeyName(input, s.keys, None).Ok? {
      ValidatedKeyName(input, s.keys, None);
      HexIdIsNotReserved(freshId);
      PlacedKey(s.keys, None, AuthKey(freshId, ValidateKeyName(input, s.keys, None).value, publicKey, secret));
    }
  }

  lemma FilteredKeysOk(keep: AuthKey -> bool, keys: seq<AuthKey>)
    requires KeysOk(keys)
    ensures KeysOk(Filter(keep, keys))
  {
    FilterMembers(keep, keys);
    FilterPairwise(keep, KeysApart, keys);
    var kept := Filter(keep, keys);
    assert forall i :: 0 <= i < |kept| ==> kept[i] in keys;
    assert forall i, j :: 0 <= i < j < |kept| ==> KeysApart(kept[i], kept[j]);
  }

  lemma DeleteKeyKeeps(lib: Libraries, s: Store, id: string)
    requires StoreOk(lib, s)
    ensures StoreOk(lib, DeletedKey(s, id))
  {
    FilteredKeysOk(NotKey(id), s.keys);
  }

  // ---- The server's clients ------------------------------------------------------------------------

  function SetUpServer(s: Store, endpointId: string, secret: string): Store {
    s.(server := Some(ServerConfig(endpointId, secret, [], [], [], [], None, true)))
  }

  function WithClients(s: Store, clients: seq<AuthorizedClient>): Store
    requires s.server.Some?
  {
    s.(server := Some(s.server.value.(authorizedClients := clients)))
  }

  function SavedClient(lib: Libraries, s: Store, form: ClientForm): Store {
    if s.server.None? then s
    else
      match ValidateClient(lib.parse, form, Clients(s))
      case Err(_) => s
      case Ok(c) => WithClients(s, Clients(s) + [c])
  }

  function NotClient(publicKey: string): AuthorizedClient -> bool {
    (c: AuthorizedClient) => c.publicKey != publicKey
  }

  function RemovedClient(s: Store, publicKey: string): Store {
    if s.server.None? then s else WithClients(s, Filter(NotClient(publicKey), Clients(s)))
  }

  lemma SaveClientKeeps(lib: Libraries, s: Store, form: ClientForm)
    requires StoreOk(lib, s) && Canonical(lib.parse)
    ensures StoreOk(lib, SavedClient(lib, s, form))
  {
    if s.server.Some? && ValidateClient(lib.parse, form, Clients(s)).Ok? {
      ValidatedClient(lib.parse, form, Clients(s));
    }
  }

  predicate ClientsApart(c: AuthorizedClient, d: AuthorizedClient) {
    c.name != d.name && c.publicKey != d.publicKey
  }

  lemma FilteredClientsOk(parse: KeyParser, keep: AuthorizedClient -> bool, clients: seq<AuthorizedClient>)
    requires ClientsOk(parse, clients)
    ensures ClientsOk(parse, Filter(keep, clients))
  {
    FilterMembers(keep, clients);
    FilterPairwise(keep, ClientsApart, clients);
    var kept := Filter(keep, clients);
    assert forall i :: 0 <= i < |kept| ==> kept[i] in clients;
    assert forall i, j :: 0 <= i < j < |kept| ==> ClientsApart(kept[i], kept[j]);
  }

  lemma RemoveClientKeeps(lib: Libraries, s: Store, publicKey: string)
    requires StoreOk(lib, s)
    ensures StoreOk(lib, RemovedClient(s, publicKey))
    ensures !ClientKeyed(Clients(RemovedClient(s, publicKey)), publicKey)
  {
    FilteredClientsOk(lib.parse, NotClient(publicKey), Clients(s));
    FilterMembers(NotClient(publicKey), Clients(s));
    assert forall i :: 0 <= i < |Clients(RemovedClient(s, publicKey))| ==>
        Clients(RemovedClient(s, publicKey))[i] in Clients(RemovedClient(s, publicKey));
  }

  // ---- Forwards ------------------------------------------------------------------------------------

  function ForwardPosition(forwards: seq<PortForward>, id: string): (r: Option<nat>)
    ensures r.Some? ==> r.value < |forwards| && forwards[r.value].id == id
    ensures r.None? ==> forall i :: 0 <= i < |forwards| ==> forwards[i].id != id
  {
    Position((f: PortForward) => f.id == id, forwards)
  }

  function PlacedForward(forwards: seq<PortForward>, f: PortForward): seq<PortForward> {
    match ForwardPosition(forwards, f.id)
    case Some(k) => forwards[k := f]
    case None => forwards + [f]
  }

  function SavedForward(s: Store, profileId: string, form: ForwardForm, freshId: string): Store {
    var result, pos := ValidateForward(form, freshId, s.profiles), PositionOf(s.profiles, profileId);
    if result.Err? || pos.None? then s
    else s.(profiles := WithForward(s.profiles, pos.value, PlacedForward(s.profiles[pos.value].forwards, result.value)))
  }

  function NotForward(id: string): PortForward -> bool {
    (f: PortForward) => f.id != id
  }

  function DeletedForward(s: Store, profileId: string, id: string): Store {
    match PositionOf(s.profiles, profileId)
    case None => s
    case Some(pos) => s.(profiles := WithForward(s.profiles, pos, Filter(NotForward(id), s.profiles[pos].forwards)))
  }

  lemma ForwardsAreFree(lib: Libraries, s: Store, pos: nat, forwards: seq<PortForward>)
    requires StoreOk(lib, s) && pos < |s.profiles|
    ensures StoreOk(lib, s.(profiles := WithForward(s.profiles, pos, forwards)))
  {
    ReplaceKeepsOk(s.profiles, pos, s.profiles[pos].(forwards := forwards));
  }

  // ---- Imports ---------------------------------------------------------------------------------------

  /** The random ids drawn for one imported profile. */
  datatype Drawn = Drawn(profileId: string, forwardIds: seq<string>)

  function Incomings(profiles: seq<Profile>, drawn: seq<Drawn>): seq<Incoming>
    requires |drawn| == |profiles|
  {
    seq(|profiles|, i requires 0 <= i < |profiles| =>
      Incoming(profiles[i], drawn[i].profileId, drawn[i].forwardIds))
  }

  predicate DrawnFor(s: Store, file: seq<Profile>, drawn: seq<Drawn>) {
    var read := KeptProfiles(file);
    && |drawn| == |read| && AllWellFormed(Incomings(read, drawn))
    && |s.profiles| + |read| + 2 <= MAX_COUNTER
    && FreshAlong(s.profiles, Incomings(read, drawn))
  }

  /** The profiles read from a file, filtered and merged. */
  function Imported(s: Store, file: seq<Profile>, drawn: seq<Drawn>): Store
    requires DrawnFor(s, file, drawn)
  {
    s.(profiles := Merged(s.profiles, Incomings(KeptProfiles(file), drawn)).profiles)
  }

  lemma ImportKeeps(lib: Libraries, s: Store, file: seq<Profile>, drawn: seq<Drawn>)
    requires StoreOk(lib, s) && DrawnFor(s, file, drawn)
    ensures StoreOk(lib, Imported(s, file, drawn))
  {
    ProfilesExact(file);
    var incs := Incomings(KeptProfiles(file), drawn);
    MergedOk(s.profiles, incs);
    MergeKeeps(s.profiles, incs);
  }
}
