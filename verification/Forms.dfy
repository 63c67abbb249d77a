/** The desktop app's forms and the checks they make before a save. */
module Forms {
  import opened Options
  import opened Records
  import opened Sequences
  import opened Text
  import opened Names
  import opened Ports
  import Authority
  import ForwardConfig
  import StoreFilters

  // ---- Fields ------------------------------------------------------------------------------

  /** A port field: a nonzero 16-bit number. */
  function ParsePort(input: string): Option<Port> {
    match Authority.ParseU16(Trim(input))
    case Some(p) => if p == 0 then None else Some(p)
    case None => None
  }

  function TrimmedParts(parts: seq<string>): seq<string> {
    if parts == [] then []
    else (if Trim(parts[0]) == "" then [] else [Trim(parts[0])]) + TrimmedParts(parts[1..])
  }

  /** A comma-separated list field. */
  function SplitList(value: string): seq<string> {
    TrimmedParts(Split(value, ','))
  }

  function Token(field: string): Option<string> {
    if Trim(field) == "" then None else Some(Trim(field))
  }

  // ---- Profiles ------------------------------------------------------------------------------

  datatype ProfileForm = ProfileForm(
    editing: Option<string>, name: string, serverNodeId: string, authKeyId: string,
    socksEnabled: bool, socksPort: string, httpEnabled: bool, httpPort: string,
    relayUrls: string, relayAuthToken: string)

  datatype ProfileError =
    | NameRequired | NameTooLong | NameTaken | ServerRequired | ServerTaken | NoKey
    | BadSocksPort | SocksPortTaken(owner: Owner)
    | BadHttpPort | SamePorts | HttpPortTaken(httpOwner: Owner)
    | TokenWithoutRelay

  predicate NameUsed(profiles: seq<Profile>, name: string, own: Option<string>) {
    exists i :: 0 <= i < |profiles| && profiles[i].name == name && Some(profiles[i].id) != own
  }

  predicate ServerUsed(profiles: seq<Profile>, server: string, own: Option<string>) {
    exists i :: 0 <= i < |profiles| && profiles[i].serverNodeId == server && Some(profiles[i].id) != own
  }

  predicate HasKey(keys: seq<AuthKey>, id: string) {
    exists i :: 0 <= i < |keys| && keys[i].id == id
  }

  function PositionOf(profiles: seq<Profile>, id: string): (r: Option<nat>)
    ensures r.Some? ==> r.value < |profiles| && profiles[r.value].id == id
    ensures r.None? ==> forall i :: 0 <= i < |profiles| ==> profiles[i].id != id
  {
    Position((p: Profile) => p.id == id, profiles)
  }

  function SocksField(form: ProfileForm, profiles: seq<Profile>): Result<Option<Port>, ProfileError> {
    if !form.socksEnabled then Ok(None)
    else
      match ParsePort(form.socksPort)
      case None => Err(BadSocksPort)
      case Some(port) =>
        match PortOwner(profiles, port, form.editing, None)
        case Some(owner) => Err(SocksPortTaken(owner))
        case None => Ok(Some(port))
  }

  function HttpField(form: ProfileForm, profiles: seq<Profile>, socks: Option<Port>): Result<Option<Port>, ProfileError> {
    if !form.httpEnabled then Ok(None)
    else
      match ParsePort(form.httpPort)
      case None => Err(BadHttpPort)
      case Some(port) =>
        if socks == Some(port) then Err(SamePorts)
        else
          match PortOwner(profiles, port, form.editing, None)
          case Some(owner) => Err(HttpPortTaken(owner))
          case None => Ok(Some(port))
  }

  /** What is wrong before the ports are looked at. */
  function IdentityFault(form: ProfileForm, profiles: seq<Profile>, keys: seq<AuthKey>): Option<ProfileError> {
    var name, server := Normalize(form.name), Trim(form.serverNodeId);
    if name == "" then Some(NameRequired)
    else if ByteLen(name) > MAX_NAME then Some(NameTooLong)
    else if NameUsed(profiles, name, form.editing) then Some(NameTaken)
    else if server == "" then Some(ServerRequired)
    else if ServerUsed(profiles, server, form.editing) then Some(ServerTaken)
    else if !HasKey(keys, form.authKeyId) then Some(NoKey)
    else None
  }

  function KeptForwards(profiles: seq<Profile>, editing: Option<string>): seq<PortForward> {
    if editing.None? then []
    else
      match PositionOf(profiles, editing.value)
      case Some(i) => profiles[i].forwards
      case None => []
  }

  function ValidateProfile(form: ProfileForm, freshId: string, profiles: seq<Profile>, keys: seq<AuthKey>)
    : Result<Profile, ProfileError>
  {
    var fault := IdentityFault(form, profiles, keys);
    if fault.Some? then Err(fault.value)
    else
      match SocksField(form, profiles)
      case Err(e) => Err(e)
      case Ok(socks) =>
        match HttpField(form, profiles, socks)
        case Err(e) => Err(e)
        case Ok(http) =>
          var urls, token := SplitList(form.relayUrls), Token(form.relayAuthToken);
          if token.Some? && urls == [] then Err(TokenWithoutRelay)
          else
            Ok(Profile(
              if form.editing.Some? then form.editing.value else freshId,
              Normalize(form.name), Trim(form.serverNodeId), form.authKeyId, socks, http, urls, token,
              KeptForwards(profiles, form.editing)))
  }

  /** Everything a saved profile may be relied on for. */
  ghost predicate FitsProfile(form: ProfileForm, freshId: string, profiles: seq<Profile>, keys: seq<AuthKey>, q: Profile) {
    && q.id == (if form.editing.Some? then form.editing.value else freshId)
    && IsValidName(q.name) && !NameUsed(profiles, q.name, form.editing)
    && q.serverNodeId != "" && !ServerUsed(profiles, q.serverNodeId, form.editing)
    && HasKey(keys, q.authKeyId)
    && ProxiesFit(profiles, q, form.editing)
    && q.forwards == KeptForwards(profiles, form.editing)
    && (q.relayAuthToken.Some? ==> q.relayAuthToken.value != "" && q.relayUrls != [])
  }

  lemma SoundIdentity(form: ProfileForm, profiles: seq<Profile>, keys: seq<AuthKey>)
    requires IdentityFault(form, profiles, keys).None?
    ensures IsValidName(Normalize(form.name)) && !NameUsed(profiles, Normalize(form.name), form.editing)
    ensures Trim(form.serverNodeId) != "" && !ServerUsed(profiles, Trim(form.serverNodeId), form.editing)
    ensures HasKey(keys, form.authKeyId)
  {
    NormalizeExact(form.name);
  }

  lemma SoundPorts(form: ProfileForm, profiles: seq<Profile>, q: Profile)
    requires SocksField(form, profiles) == Ok(q.socksPort) && HttpField(form, profiles, q.socksPort) == Ok(q.httpPort)
    ensures ProxiesFit(profiles, q, form.editing)
  {
  }

  lemma ValidatedProfile(form: ProfileForm, freshId: string, profiles: seq<Profile>, keys: seq<AuthKey>)
    requires ValidateProfile(form, freshId, profiles, keys).Ok?
    ensures FitsProfile(form, freshId, profiles, keys, ValidateProfile(form, freshId, profiles, keys).value)
  {
    SoundIdentity(form, profiles, keys);
    SoundPorts(form, profiles, ValidateProfile(form, freshId, profiles, keys).value);
  }

  // ---- Keys ------------------------------------------------------------------------------------

  datatype KeyForm = KeyForm(editing: Option<string>, name: string, secret: string)

  datatype KeyError = KeyNameRequired | KeyNameTooLong | KeyNameTaken | SecretRequired | BadSecret | SecretTaken

  predicate KeyNameUsed(keys: seq<AuthKey>, name: string, own: Option<string>) {
    exists i :: 0 <= i < |keys| && keys[i].name == name && Some(keys[i].id) != own
  }

  predicate PublicUsed(keys: seq<AuthKey>, publicKey: string, own: Option<string>) {
    exists i :: 0 <= i < |keys| && keys[i].publicKey == publicKey && Some(keys[i].id) != own
  }

  function ValidateKeyName(input: string, keys: seq<AuthKey>, own: Option<string>): Result<string, KeyError> {
    var name := Normalize(input);
    if name == "" then Err(KeyNameRequired)
    else if |name| > MAX_NAME then Err(KeyNameTooLong)
    else if KeyNameUsed(keys, name, own) then Err(KeyNameTaken)
    else Ok(name)
  }

  /** `publicOf` derives the public half of a secret that parses. */
  function ValidateKey(publicOf: string -> Option<string>, form: KeyForm, freshId: string, keys: seq<AuthKey>)
    : Result<AuthKey, KeyError>
  {
    match ValidateKeyName(form.name, keys, form.editing)
    case Err(e) => Err(e)
    case Ok(name) =>
      var secret := Trim(form.secret);
      if secret == "" then Err(SecretRequired)
      else
        match publicOf(secret)
        case None => Err(BadSecret)
        case Some(publicKey) =>
          if PublicUsed(keys, publicKey, form.editing) then Err(SecretTaken)
          else Ok(AuthKey(if form.editing.Some? then form.editing.value else freshId, name, publicKey, secret))
  }

  lemma ValidatedKeyName(input: string, keys: seq<AuthKey>, own: Option<string>)
    requires ValidateKeyName(input, keys, own).Ok?
    ensures IsValidName(ValidateKeyName(input, keys, own).value)
    ensures !KeyNameUsed(keys, ValidateKeyName(input, keys, own).value, own)
  {
    NormalizeExact(input);
  }

  // ---- Clients -----------------------------------------------------------------------------------

  datatype ClientForm = ClientForm(name: string, publicKey: string)

  datatype ClientError = ClientNameRequired | ClientNameTooLong | ClientNameTaken | KeyRequired | BadKey | KeyTaken

  predicate ClientNamed(clients: seq<AuthorizedClient>, name: string) {
    exists i :: 0 <= i < |clients| && clients[i].name == name
  }

  predicate ClientKeyed(clients: seq<AuthorizedClient>, publicKey: string) {
    exists i :: 0 <= i < |clients| && clients[i].publicKey == publicKey
  }

  function ValidateClient(parse: StoreFilters.KeyParser, form: ClientForm, clients: seq<AuthorizedClient>)
    : Result<AuthorizedClient, ClientError>
  {
    var name := Normalize(form.name);
    if name == "" then Err(ClientNameRequired)
    else if |name| > MAX_NAME then Err(ClientNameTooLong)
    else if ClientNamed(clients, name) then Err(ClientNameTaken)
    else if Trim(form.publicKey) == "" then Err(KeyRequired)
    else
      match parse(form.publicKey)
      case None => Err(BadKey)
      case Some(publicKey) =>
        if ClientKeyed(clients, publicKey) then Err(KeyTaken) else Ok(AuthorizedClient(name, publicKey))
  }

  lemma ValidatedClient(parse: StoreFilters.KeyParser, form: ClientForm, clients: seq<AuthorizedClient>)
    requires StoreFilters.Canonical(parse) && ValidateClient(parse, form, clients).Ok?
    ensures var c := ValidateClient(parse, form, clients).value;
            && c.name == Normalize(form.name) && parse(form.publicKey) == Some(c.publicKey)
            && StoreFilters.GoodClient(parse, c) && !ClientNamed(clients, c.name) && !ClientKeyed(clients, c.publicKey)
  {
    NormalizeExact(form.name);
  }

  // ---- Forwards ------------------------------------------------------------------------------------

  datatype ForwardForm = ForwardForm(
    editing: Option<string>, displayLabel: string, localPort: string, remoteHost: string, remotePort: string, enabled: bool)

  datatype ForwardError =
    | LabelOverlong | BadLocalPort | BadRemoteHost(error: Authority.HostError) | BadRemotePort
    | LocalPortTaken(localOwner: Owner)

  datatype ForwardFields = ForwardFields(name: string, localPort: Port, host: string, remotePort: Port)

  function ReadForward(form: ForwardForm): Result<ForwardFields, ForwardError> {
    match ForwardConfig.ValidateLabel(form.displayLabel)
    case None => Err(LabelOverlong)
    case Some(name) =>
      match ParsePort(form.localPort)
      case None => Err(BadLocalPort)
      case Some(localPort) =>
        match Authority.ValidateRemoteHost(form.remoteHost)
        case Err(e) => Err(BadRemoteHost(e))
        case Ok(host) =>
          match ParsePort(form.remotePort)
          case None => Err(BadRemotePort)
          case Some(remotePort) => Ok(ForwardFields(name, localPort, host, remotePort))
  }

  function ValidateForward(form: ForwardForm, freshId: string, profiles: seq<Profile>): Result<PortForward, ForwardError> {
    match ReadForward(form)
    case Err(e) => Err(e)
    case Ok(f) =>
      match PortOwner(profiles, f.localPort, None, form.editing)
      case Some(owner) => Err(LocalPortTaken(owner))
      case None =>
        Ok(PortForward(if form.editing.Some? then form.editing.value else freshId,
                       f.name, f.localPort, f.host, f.remotePort, form.enabled))
  }

  lemma ReadForwardIsSound(form: ForwardForm)
    requires ReadForward(form).Ok?
    ensures ReadForward(form).value.localPort > 0 && ReadForward(form).value.remotePort > 0
    ensures Authority.ValidateRemoteHost(form.remoteHost) == Ok(ReadForward(form).value.host)
  {
  }

  /** A saved forward has the id of the form, a free local port, and a remote host that
      stays as it is when saved again. */
  lemma ValidatedForward(form: ForwardForm, freshId: string, profiles: seq<Profile>, f: PortForward)
    requires ValidateForward(form, freshId, profiles) == Ok(f)
    ensures f.id == (if form.editing.Some? then form.editing.value else freshId)
    ensures PortOwner(profiles, f.localPort, None, form.editing).None?
    ensures f.localPort > 0 && f.remotePort > 0
    ensures Authority.ValidateRemoteHost(f.remoteHost) == Ok(f.remoteHost)
  {
    ReadForwardIsSound(form);
    Authority.ValidateIdempotent(form.remoteHost);
  }
}
