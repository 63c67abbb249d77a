/** What each form is answered with: the first of the faults that apply to it, in the
    form's order, or the record with the form's fields if none does. */
module FormFaults {
  import opened Options
  import opened Records
  import opened Text
  import opened Names
  import opened Ports
  import opened Forms
  import Authority
  import StoreFilters

  // ---- Profiles ------------------------------------------------------------------------------

  function ProfileOrder(e: ProfileError): nat {
    match e
    case NameRequired => 0
    case NameTooLong => 1
    case NameTaken => 2
    case ServerRequired => 3
    case ServerTaken => 4
    case NoKey => 5
    case BadSocksPort => 6
    case SocksPortTaken(_) => 7
    case BadHttpPort => 8
    case SamePorts => 9
    case HttpPortTaken(_) => 10
    case TokenWithoutRelay => 11
  }

  /** The fault is the form's, whatever else is wrong with it. */
  predicate ProfileFault(form: ProfileForm, profiles: seq<Profile>, keys: seq<AuthKey>, e: ProfileError) {
    var name, server := Normalize(form.name), Trim(form.serverNodeId);
    var socks, http := ParsePort(form.socksPort), ParsePort(form.httpPort);
    match e
    case NameRequired => name == ""
    case NameTooLong => ByteLen(name) > 64
    case NameTaken => exists i :: 0 <= i < |profiles| && profiles[i].name == name && form.editing != Some(profiles[i].id)
    case ServerRequired => server == ""
    case ServerTaken =>
      exists i :: 0 <= i < |profiles| && profiles[i].serverNodeId == server && form.editing != Some(profiles[i].id)
    case NoKey => forall i :: 0 <= i < |keys| ==> keys[i].id != form.authKeyId
    case BadSocksPort => form.socksEnabled && socks.None?
    case SocksPortTaken(owner) =>
      form.socksEnabled && socks.Some? && PortOwner(profiles, socks.value, form.editing, None) == Some(owner)
    case BadHttpPort => form.httpEnabled && http.None?
    case SamePorts => form.socksEnabled && form.httpEnabled && socks.Some? && socks == http
    case HttpPortTaken(owner) =>
      form.httpEnabled && http.Some? && PortOwner(profiles, http.value, form.editing, None) == Some(owner)
    case TokenWithoutRelay => Trim(form.relayAuthToken) != "" && SplitList(form.relayUrls) == []
  }

  /** The profile has the form's fields. */
  predicate FromProfileForm(form: ProfileForm, freshId: string, profiles: seq<Profile>, q: Profile) {
    && q.id == (match form.editing case Some(id) => id case None => freshId)
    && q.name == Normalize(form.name) && q.serverNodeId == Trim(form.serverNodeId) && q.authKeyId == form.authKeyId
    && q.socksPort == (if form.socksEnabled then ParsePort(form.socksPort) else None)
    && q.httpPort == (if form.httpEnabled then ParsePort(form.httpPort) else None)
    && q.relayUrls == SplitList(form.relayUrls)
    && q.relayAuthToken == (if Trim(form.relayAuthToken) == "" then None else Some(Trim(form.relayAuthToken)))
    && q.forwards == KeptForwards(profiles, form.editing)
  }

  ghost predicate FirstProfileFault(form: ProfileForm, profiles: seq<Profile>, keys: seq<AuthKey>, e: ProfileError) {
    ProfileFault(form, profiles, keys, e) &&
    forall o :: ProfileFault(form, profiles, keys, o) ==> ProfileOrder(e) <= ProfileOrder(o)
  }

  /** The faults that are looked for before the ports. */
  lemma IdentityExact(form: ProfileForm, profiles: seq<Profile>, keys: seq<AuthKey>)
    ensures match IdentityFault(form, profiles, keys)
            case Some(e) => FirstProfileFault(form, profiles, keys, e)
            case None => forall o :: ProfileFault(form, profiles, keys, o) ==> ProfileOrder(o) >= 6
  {
  }

  lemma SocksExact(form: ProfileForm, profiles: seq<Profile>, keys: seq<AuthKey>)
    requires forall o :: ProfileFault(form, profiles, keys, o) ==> ProfileOrder(o) >= 6
    ensures match SocksField(form, profiles)
            case Err(e) => FirstProfileFault(form, profiles, keys, e)
            case Ok(socks) =>
              && socks == (if form.socksEnabled then ParsePort(form.socksPort) else None)
              && forall o :: ProfileFault(form, profiles, keys, o) ==> ProfileOrder(o) >= 8
  {
  }

  lemma HttpExact(form: ProfileForm, profiles: seq<Profile>, keys: seq<AuthKey>, socks: Option<Port>)
    requires socks == if form.socksEnabled then ParsePort(form.socksPort) else None
    requires form.socksEnabled ==> socks.Some?
    requires forall o :: ProfileFault(form, profiles, keys, o) ==> ProfileOrder(o) >= 8
    ensures match HttpField(form, profiles, socks)
            case Err(e) => FirstProfileFault(form, profiles, keys, e)
            case Ok(http) =>
              && http == (if form.httpEnabled then ParsePort(form.httpPort) else None)
              && forall o :: ProfileFault(form, profiles, keys, o) ==> ProfileOrder(o) >= 11
  {
  }

  lemma ProfileFormExact(form: ProfileForm, freshId: string, profiles: seq<Profile>, keys: seq<AuthKey>)
    ensures match ValidateProfile(form, freshId, profiles, keys)
            case Err(e) => FirstProfileFault(form, profiles, keys, e)
            case Ok(q) => FromProfileForm(form, freshId, profiles, q) && forall o :: !ProfileFault(form, profiles, keys, o)
  {
    IdentityExact(form, profiles, keys);
    if IdentityFault(form, profiles, keys).None? {
      SocksExact(form, profiles, keys);
      var socks := SocksField(form, profiles);
      if socks.Ok? {
        HttpExact(form, profiles, keys, socks.value);
        if HttpField(form, profiles, socks.value).Ok? {
          LastFault(form, profiles, keys);
        }
      }
    }
  }

  lemma LastFault(form: ProfileForm, profiles: seq<Profile>, keys: seq<AuthKey>)
    requires forall o :: ProfileFault(form, profiles, keys, o) ==> ProfileOrder(o) >= 11
    ensures if ProfileFault(form, profiles, keys, TokenWithoutRelay) then FirstProfileFault(form, profiles, keys, TokenWithoutRelay)
            else forall o :: !ProfileFault(form, profiles, keys, o)
  {
    forall o | ProfileFault(form, profiles, keys, o) ensures o == TokenWithoutRelay {
      assert ProfileOrder(o) >= 11;
    }
  }

  // ---- Keys ------------------------------------------------------------------------------------

  function KeyOrder(e: KeyError): nat {
    match e
    case KeyNameRequired => 0
    case KeyNameTooLong => 1
    case KeyNameTaken => 2
    case SecretRequired => 3
    case BadSecret => 4
    case SecretTaken => 5
  }

  predicate KeyFault(publicOf: string -> Option<string>, form: KeyForm, keys: seq<AuthKey>, e: KeyError) {
    var name, secret := Normalize(form.name), Trim(form.secret);
    match e
    case KeyNameRequired => name == ""
    case KeyNameTooLong => |name| > 64
    case KeyNameTaken => exists i :: 0 <= i < |keys| && keys[i].name == name && form.editing != Some(keys[i].id)
    case SecretRequired => secret == ""
    case BadSecret => publicOf(secret).None?
    case SecretTaken =>
      publicOf(secret).Some? &&
      exists i :: 0 <= i < |keys| && keys[i].publicKey == publicOf(secret).value && form.editing != Some(keys[i].id)
  }

  lemma KeyFormExact(publicOf: string -> Option<string>, form: KeyForm, freshId: string, keys: seq<AuthKey>)
    ensures match ValidateKey(publicOf, form, freshId, keys)
            case Err(e) =>
              && KeyFault(publicOf, form, keys, e)
              && forall o :: KeyFault(publicOf, form, keys, o) ==> KeyOrder(e) <= KeyOrder(o)
            case Ok(k) =>
              && (forall o :: !KeyFault(publicOf, form, keys, o))
              && k.id == (match form.editing case Some(id) => id case None => freshId)
              && k.name == Normalize(form.name) && k.secret == Trim(form.secret) && Some(k.publicKey) == publicOf(k.secret)
  {
  }

  // ---- Clients -----------------------------------------------------------------------------------

  function ClientOrder(e: ClientError): nat {
    match e
    case ClientNameRequired => 0
    case ClientNameTooLong => 1
    case ClientNameTaken => 2
    case KeyRequired => 3
    case BadKey => 4
    case KeyTaken => 5
  }

  predicate ClientFault(parse: StoreFilters.KeyParser, form: ClientForm, clients: seq<AuthorizedClient>, e: ClientError) {
    var name, key := Normalize(form.name), parse(form.publicKey);
    match e
    case ClientNameRequired => name == ""
    case ClientNameTooLong => |name| > 64
    case ClientNameTaken => exists i :: 0 <= i < |clients| && clients[i].name == name
    case KeyRequired => Trim(form.publicKey) == ""
    case BadKey => key.None?
    case KeyTaken => key.Some? && exists i :: 0 <= i < |clients| && clients[i].publicKey == key.value
  }

  lemma ClientFormExact(parse: StoreFilters.KeyParser, form: ClientForm, clients: seq<AuthorizedClient>)
    ensures match ValidateClient(parse, form, clients)
            case Err(e) =>
              && ClientFault(parse, form, clients, e)
              && forall o :: ClientFault(parse, form, clients, o) ==> ClientOrder(e) <= ClientOrder(o)
            case Ok(c) =>
              && (forall o :: !ClientFault(parse, form, clients, o))
              && c.name == Normalize(form.name) && parse(form.publicKey) == Some(c.publicKey)
  {
  }

  // ---- Forwards ------------------------------------------------------------------------------------

  function ForwardOrder(e: ForwardError): nat {
    match e
    case LabelOverlong => 0
    case BadLocalPort => 1
    case BadRemoteHost(_) => 2
    case BadRemotePort => 3
    case LocalPortTaken(_) => 4
  }

  predicate ForwardFault(form: ForwardForm, profiles: seq<Profile>, e: ForwardError) {
    var local := ParsePort(form.localPort);
    match e
    case LabelOverlong => |Trim(form.displayLabel)| > 64
    case BadLocalPort => local.None?
    case BadRemoteHost(error) => Authority.ValidateRemoteHost(form.remoteHost) == Err(error)
    case BadRemotePort => ParsePort(form.remotePort).None?
    case LocalPortTaken(owner) => local.Some? && PortOwner(profiles, local.value, None, form.editing) == Some(owner)
  }

  lemma ForwardFormExact(form: ForwardForm, freshId: string, profiles: seq<Profile>)
    ensures match ValidateForward(form, freshId, profiles)
            case Err(e) =>
              && ForwardFault(form, profiles, e)
              && forall o :: ForwardFault(form, profiles, o) ==> ForwardOrder(e) <= ForwardOrder(o)
            case Ok(f) =>
              && (forall o :: !ForwardFault(form, profiles, o))
              && f.id == (match form.editing case Some(id) => id case None => freshId)
              && f.displayLabel == Trim(form.displayLabel) && f.enabled == form.enabled
              && ParsePort(form.localPort) == Some(f.localPort) && ParsePort(form.remotePort) == Some(f.remotePort)
              && Authority.ValidateRemoteHost(form.remoteHost) == Ok(f.remoteHost)
  {
  }

  // ---- Fields ------------------------------------------------------------------------------------

  /** A port field is a number from 1 to 65535, perhaps signed, in white space. */
  lemma PortFieldExact(input: string, p: Port)
    ensures ParsePort(input) == Some(p) <==>
              p != 0 && exists sign, digits :: (sign == "" || sign == "+") && Trim(input) == sign + digits
                                               && digits != "" && AllDigits(digits) && Value(digits) == p
  {
    Authority.ParseU16Exact(Trim(input), p);
  }

  /** A list field is its comma-separated pieces, trimmed, the empty ones left out. */
  lemma {:induction false} ListFieldExact(parts: seq<string>, x: string)
    ensures x in TrimmedParts(parts) <==> x != "" && exists i :: 0 <= i < |parts| && Trim(parts[i]) == x
  {
    if parts != [] {
      ListFieldExact(parts[1..], x);
      if exists i :: 0 <= i < |parts| && Trim(parts[i]) == x {
        var i :| 0 <= i < |parts| && Trim(parts[i]) == x;
        if i > 0 {
          assert parts[1..][i - 1] == parts[i];
        }
      }
    }
  }
}
