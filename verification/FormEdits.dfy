/** Opening a stored profile or forward in its form and saving it unchanged. */
module FormEdits {
  import opened Options
  import opened Records
  import opened Text
  import opened Names
  import opened Ports
  import opened Forms
  import opened StoreFilters
  import Authority
  import ForwardConfig

  const DEFAULT_HTTP_PORT: Port := 18080

  // ---- The forms a record opens in -------------------------------------------------------------

  function JoinList(items: seq<string>): string {
    if items == [] then "" else if |items| == 1 then items[0] else items[0] + ", " + JoinList(items[1..])
  }

  function PortText(port: Option<Port>, default: Port): string {
    Decimal(if port.Some? then port.value else default)
  }

  function EditOf(p: Profile): ProfileForm {
    ProfileForm(
      Some(p.id), p.name, p.serverNodeId, p.authKeyId,
      p.socksPort.Some?, PortText(p.socksPort, DEFAULT_SOCKS_PORT),
      p.httpPort.Some?, PortText(p.httpPort, DEFAULT_HTTP_PORT),
      JoinList(p.relayUrls), if p.relayAuthToken.Some? then p.relayAuthToken.value else "")
  }

  function ForwardEditOf(f: PortForward): ForwardForm {
    ForwardForm(Some(f.id), f.displayLabel, Decimal(f.localPort), f.remoteHost, Decimal(f.remotePort), f.enabled)
  }

  // ---- Fields read back --------------------------------------------------------------------------

  predicate Trimmed(s: string) {
    Trim(s) == s
  }

  lemma {:induction false} TrimStartEnds(s: string)
    ensures TrimStart(s) == "" || !IsWhite(TrimStart(s)[0])
    ensures |TrimStart(s)| <= |s| && TrimStart(s) == s[|s| - |TrimStart(s)|..]
  {
    if s != "" && IsWhite(s[0]) {
      TrimStartEnds(s[1..]);
    }
  }

  lemma TrimTwice(s: string)
    ensures Trimmed(Trim(s))
    ensures forall c :: c in Trim(s) ==> c in s
  {
    TrimStartEnds(s);
    assert Trim(s) <= TrimStart(s);
  }

  lemma PortReadsBack(port: Port)
    requires port > 0
    ensures ParsePort(Decimal(port)) == Some(port)
  {
    assert Black(Decimal(port)) by {
      assert AllDigits(Decimal(port));
    }
    TrimOfBlackIsSame(Decimal(port));
    Authority.DecimalParses(port);
  }

  predicate Listed(item: string) {
    item != "" && Trimmed(item) && ',' !in item
  }

  predicate AllListed(items: seq<string>) {
    forall i :: 0 <= i < |items| ==> Listed(items[i])
  }

  lemma PaddedTrim(pad: string, item: string)
    requires pad == "" || pad == " "
    ensures Trim(pad + item) == Trim(item)
  {
    if pad == " " {
      assert (pad + item)[1..] == item;
    } else {
      assert pad + item == item;
    }
  }

  lemma OnePart(s: string)
    requires ',' !in s
    ensures Split(s, ',') == [s]
  {
  }

  lemma TrimmedCons(part: string, parts: seq<string>)
    requires Trim(part) != ""
    ensures TrimmedParts([part] + parts) == [Trim(part)] + TrimmedParts(parts)
  {
    assert ([part] + parts)[1..] == parts;
  }

  /** `list` is the text's comma-separated list. */
  ghost predicate Reads(text: string, list: seq<string>) {
    SplitList(text) == list
  }

  lemma ReadsOne(part: string, item: string)
    requires ',' !in part && Trim(part) == item && item != ""
    ensures Reads(part, [item])
  {
    OnePart(part);
    TrimmedCons(part, []);
    assert [part] + [] == [part];
  }

  lemma ReadsMore(part: string, item: string, rest: string, list: seq<string>)
    requires ',' !in part && Trim(part) == item && item != "" && Reads(rest, list)
    ensures Reads(part + [','] + rest, [item] + list)
  {
    SplitCons(part, ',', rest);
    TrimmedCons(part, Split(rest, ','));
  }

  lemma Padded(pad: string, item: string)
    requires (pad == "" || pad == " ") && Listed(item)
    ensures ',' !in pad + item && Trim(pad + item) == item && item != ""
  {
    PaddedTrim(pad, item);
  }

  lemma Regroup(pad: string, item: string, rest: string)
    ensures pad + (item + ", " + rest) == (pad + item) + [','] + (" " + rest)
  {
  }

  lemma MoreItems(pad: string, item: string, rest: string, list: seq<string>)
    requires (pad == "" || pad == " ") && Listed(item) && Reads(" " + rest, list)
    ensures Reads(pad + (item + ", " + rest), [item] + list)
  {
    Padded(pad, item);
    ReadsMore(pad + item, item, " " + rest, list);
    Regroup(pad, item, rest);
  }

  lemma {:induction false} ListReadsBackPadded(pad: string, items: seq<string>)
    requires (pad == "" || pad == " ") && items != [] && AllListed(items)
    ensures Reads(pad + JoinList(items), items)
    decreases |items|
  {
    var first, others := items[0], items[1..];
    assert Listed(first);
    assert items == [first] + others;
    if others == [] {
      Padded(pad, first);
      ReadsOne(pad + first, first);
    } else {
      ListReadsBackPadded(" ", others);
      MoreItems(pad, first, JoinList(others), others);
    }
  }

  lemma ListReadsBack(items: seq<string>)
    requires AllListed(items)
    ensures SplitList(JoinList(items)) == items
  {
    if items == [] {
      OnePart("");
      assert [""][1..] == [];
    } else {
      assert "" + JoinList(items) == JoinList(items);
      ListReadsBackPadded("", items);
    }
  }

  lemma {:induction false} PartsAreListed(parts: seq<string>)
    requires forall i :: 0 <= i < |parts| ==> ',' !in parts[i]
    ensures AllListed(TrimmedParts(parts))
  {
    if parts != [] {
      PartsAreListed(parts[1..]);
      TrimTwice(parts[0]);
    }
  }

  // ---- Profiles ----------------------------------------------------------------------------------

  /** The shape of the free fields of a profile that the form has saved. */
  predicate FormShaped(p: Profile) {
    && p.serverNodeId != "" && Trimmed(p.serverNodeId)
    && (p.socksPort.Some? ==> p.socksPort.value > 0) && (p.httpPort.Some? ==> p.httpPort.value > 0)
    && AllListed(p.relayUrls)
    && (p.relayAuthToken.Some? ==>
          p.relayAuthToken.value != "" && Trimmed(p.relayAuthToken.value) && p.relayUrls != [])
  }

  lemma PortsParsed(form: ProfileForm, profiles: seq<Profile>, q: Profile)
    requires SocksField(form, profiles) == Ok(q.socksPort) && HttpField(form, profiles, q.socksPort) == Ok(q.httpPort)
    ensures (q.socksPort.Some? ==> q.socksPort.value > 0) && (q.httpPort.Some? ==> q.httpPort.value > 0)
  {
  }

  /** Whatever the form saves has that shape, and a name of at most 64 bytes. */
  lemma SavedIsShaped(form: ProfileForm, freshId: string, profiles: seq<Profile>, keys: seq<AuthKey>)
    requires ValidateProfile(form, freshId, profiles, keys).Ok?
    ensures FormShaped(ValidateProfile(form, freshId, profiles, keys).value)
    ensures ByteLen(ValidateProfile(form, freshId, profiles, keys).value.name) <= MAX_NAME
  {
    TrimTwice(form.serverNodeId);
    TrimTwice(form.relayAuthToken);
    PartsAreListed(Split(form.relayUrls, ','));
    PortsParsed(form, profiles, ValidateProfile(form, freshId, profiles, keys).value);
  }

  lemma OwnPortFits(profiles: seq<Profile>, pos: nat, port: Port)
    requires PortsOk(profiles) && pos < |profiles| && SoleProfile(profiles, pos, profiles[pos].id)
    requires ProxyCount(profiles[pos], port) > 0
    ensures PortOwner(profiles, port, Some(profiles[pos].id), None).None? && ProxyCount(profiles[pos], port) == 1
  {
    assert Uses(profiles, port) <= 1;
    WithoutProxies(profiles, pos, profiles[pos].id, port);
    OwnerExact(profiles, port, Some(profiles[pos].id), None);
  }

  /** While local ports are apart, a stored profile's own ports pass the form's check. */
  lemma OwnPortsFit(profiles: seq<Profile>, pos: nat)
    requires PortsOk(profiles) && pos < |profiles| && SoleProfile(profiles, pos, profiles[pos].id)
    ensures ProxiesFit(profiles, profiles[pos], Some(profiles[pos].id))
  {
    var p := profiles[pos];
    if p.socksPort.Some? {
      OwnPortFits(profiles, pos, p.socksPort.value);
    }
    if p.httpPort.Some? {
      OwnPortFits(profiles, pos, p.httpPort.value);
    }
  }

  lemma PortFieldsReadBack(profiles: seq<Profile>, p: Profile)
    requires FormShaped(p) && ProxiesFit(profiles, p, Some(p.id))
    ensures SocksField(EditOf(p), profiles) == Ok(p.socksPort)
    ensures HttpField(EditOf(p), profiles, p.socksPort) == Ok(p.httpPort)
  {
    if p.socksPort.Some? {
      PortReadsBack(p.socksPort.value);
    }
    if p.httpPort.Some? {
      PortReadsBack(p.httpPort.value);
    }
  }

  lemma NoOtherClaims(profiles: seq<Profile>, pos: nat)
    requires ProfilesOk(profiles) && pos < |profiles|
    ensures var p := profiles[pos];
            && !NameUsed(profiles, p.name, Some(p.id)) && !ServerUsed(profiles, p.serverNodeId, Some(p.id))
            && SoleProfile(profiles, pos, p.id) && KeptForwards(profiles, Some(p.id)) == p.forwards
  {
    var p := profiles[pos];
    assert SoleProfile(profiles, pos, p.id);
    assert PositionOf(profiles, p.id) == Some(pos);
  }

  lemma IdentityReadsBack(profiles: seq<Profile>, keys: seq<AuthKey>, pos: nat)
    requires ProfilesOk(profiles) && pos < |profiles| && FormShaped(profiles[pos])
    ensures IdentityFault(EditOf(profiles[pos]), profiles, keys).None?
            <==> ByteLen(profiles[pos].name) <= MAX_NAME && HasKey(keys, profiles[pos].authKeyId)
    ensures Normalize(profiles[pos].name) == profiles[pos].name
  {
    NoOtherClaims(profiles, pos);
    NormalizeExact(profiles[pos].name);
  }

  /** What a stored profile needs to pass through its form unchanged: fields of the
      form's shape, a name of at most 64 bytes (loading and importing count characters),
      a key that exists, and proxy ports nothing else holds. */
  ghost predicate Resavable(profiles: seq<Profile>, keys: seq<AuthKey>, p: Profile) {
    FormShaped(p) && ByteLen(p.name) <= MAX_NAME && HasKey(keys, p.authKeyId) && ProxiesFit(profiles, p, Some(p.id))
  }

  /** The form's fields, read one by one, make up the profile. */
  lemma FieldsMakeProfile(form: ProfileForm, freshId: string, profiles: seq<Profile>, keys: seq<AuthKey>, q: Profile)
    requires IdentityFault(form, profiles, keys).None? && form.editing == Some(q.id)
    requires Normalize(form.name) == q.name && Trim(form.serverNodeId) == q.serverNodeId && form.authKeyId == q.authKeyId
    requires SocksField(form, profiles) == Ok(q.socksPort) && HttpField(form, profiles, q.socksPort) == Ok(q.httpPort)
    requires SplitList(form.relayUrls) == q.relayUrls && Token(form.relayAuthToken) == q.relayAuthToken
    requires q.relayAuthToken.Some? ==> q.relayUrls != []
    requires KeptForwards(profiles, form.editing) == q.forwards
    ensures ValidateProfile(form, freshId, profiles, keys) == Ok(q)
  {
  }

  lemma ResavableSaves(profiles: seq<Profile>, keys: seq<AuthKey>, pos: nat, freshId: string)
    requires ProfilesOk(profiles) && pos < |profiles| && Resavable(profiles, keys, profiles[pos])
    ensures ValidateProfile(EditOf(profiles[pos]), freshId, profiles, keys) == Ok(profiles[pos])
  {
    NoOtherClaims(profiles, pos);
    IdentityReadsBack(profiles, keys, pos);
    PortFieldsReadBack(profiles, profiles[pos]);
    ListReadsBack(profiles[pos].relayUrls);
    FieldsMakeProfile(EditOf(profiles[pos]), freshId, profiles, keys, profiles[pos]);
  }

  /** Any stored profile, imported ones included, opens in its form and saves back
      unchanged if and only if it is resavable. */
  lemma EditThenSave(profiles: seq<Profile>, keys: seq<AuthKey>, pos: nat, freshId: string)
    requires ProfilesOk(profiles) && pos < |profiles|
    ensures ValidateProfile(EditOf(profiles[pos]), freshId, profiles, keys) == Ok(profiles[pos])
            <==> Resavable(profiles, keys, profiles[pos])
  {
    if Resavable(profiles, keys, profiles[pos]) {
      ResavableSaves(profiles, keys, pos, freshId);
    } else if ValidateProfile(EditOf(profiles[pos]), freshId, profiles, keys) == Ok(profiles[pos]) {
      SavedIsShaped(EditOf(profiles[pos]), freshId, profiles, keys);
      ValidatedProfile(EditOf(profiles[pos]), freshId, profiles, keys);
    }
  }

  /** So what the form has saved, it saves again, as long as its key and ports are kept. */
  lemma SaveIsStable(form: ProfileForm, freshId: string, profiles: seq<Profile>, keys: seq<AuthKey>,
                     later: seq<Profile>, laterKeys: seq<AuthKey>, pos: nat, laterId: string)
    requires ProfilesOk(later) && PortsOk(later) && pos < |later|
    requires ValidateProfile(form, freshId, profiles, keys) == Ok(later[pos]) && HasKey(laterKeys, later[pos].authKeyId)
    ensures ValidateProfile(EditOf(later[pos]), laterId, later, laterKeys) == Ok(later[pos])
  {
    SavedIsShaped(form, freshId, profiles, keys);
    NoOtherClaims(later, pos);
    OwnPortsFit(later, pos);
    EditThenSave(later, laterKeys, pos, laterId);
  }

  /** A relay URL with a comma in it: loaded and imported, but split in two by the form. */
  lemma CommaUrlIsSplit(p: Profile, keys: seq<AuthKey>, freshId: string)
    requires IsValidName(p.name) && "a,b" in p.relayUrls
    ensures KeptProfiles([p]) == [p] && ValidateProfile(EditOf(p), freshId, [p], keys) != Ok(p)
  {
    ProfilesExact([p]);
    EditThenSave([p], keys, 0, freshId);
    var i :| 0 <= i < |p.relayUrls| && p.relayUrls[i] == "a,b";
    assert "a,b"[1] == ',';
    assert !Listed(p.relayUrls[i]);
  }

  /** Thirty-three two-byte letters: loaded and imported, but refused by the form. */
  lemma LongNameCannotBeSaved(p: Profile, keys: seq<AuthKey>, freshId: string)
    requires |p.name| == 33 && forall i :: 0 <= i < |p.name| ==> p.name[i] == '\U{00e9}'
    ensures KeptProfiles([p]) == [p] && ValidateProfile(EditOf(p), freshId, [p], keys) == Err(NameTooLong)
  {
    AccentBytes(p.name);
    ProfilesExact([p]);
    NormalizeExact(p.name);
  }

  lemma {:induction false} AccentBytes(s: string)
    requires forall i :: 0 <= i < |s| ==> s[i] == '\U{00e9}'
    ensures ByteLen(s) == 2 * |s|
  {
    if s != "" {
      AccentBytes(s[..|s| - 1]);
    }
  }

  // ---- Keys --------------------------------------------------------------------------------------

  function KeyEditOf(k: AuthKey): KeyForm {
    KeyForm(Some(k.id), k.name, k.secret)
  }

  /** A stored key opens in its form and saves back unchanged if and only if its secret
      is at hand, trimmed, and the one its public key comes from. */
  lemma KeyEditThenSave(publicOf: string -> Option<string>, keys: seq<AuthKey>, pos: nat, freshId: string)
    requires KeysOk(keys) && pos < |keys|
    ensures ValidateKey(publicOf, KeyEditOf(keys[pos]), freshId, keys) == Ok(keys[pos])
            <==> keys[pos].secret != "" && Trimmed(keys[pos].secret)
                 && publicOf(keys[pos].secret) == Some(keys[pos].publicKey)
    ensures Trim(keys[pos].secret) == "" ==>
              ValidateKey(publicOf, KeyEditOf(keys[pos]), freshId, keys) == Err(SecretRequired)
  {
    assert GoodKey(keys[pos]);
    NormalizeExact(keys[pos].name);
  }

  // ---- Forwards ------------------------------------------------------------------------------------

  predicate ForwardShaped(f: PortForward) {
    && Trimmed(f.displayLabel) && |f.displayLabel| <= ForwardConfig.MAX_LABEL_LEN
    && f.localPort > 0 && f.remotePort > 0
    && Authority.ValidateRemoteHost(f.remoteHost) == Ok(f.remoteHost)
  }

  /** A forward opens in its form and saves back unchanged if and only if it has that
      shape and no other proxy or forward holds its local port. */
  lemma ForwardEditThenSave(profiles: seq<Profile>, f: PortForward, freshId: string)
    ensures ValidateForward(ForwardEditOf(f), freshId, profiles) == Ok(f)
            <==> ForwardShaped(f) && PortOwner(profiles, f.localPort, None, Some(f.id)).None?
  {
    if ForwardShaped(f) {
      FieldsReadBack(f);
    }
    if ValidateForward(ForwardEditOf(f), freshId, profiles) == Ok(f) {
      SavedForwardIsShaped(ForwardEditOf(f), freshId, profiles, f);
    }
  }

  lemma FieldsReadBack(f: PortForward)
    requires ForwardShaped(f)
    ensures ReadForward(ForwardEditOf(f)) == Ok(ForwardFields(f.displayLabel, f.localPort, f.remoteHost, f.remotePort))
  {
    PortReadsBack(f.localPort);
    PortReadsBack(f.remotePort);
  }

  lemma SavedForwardIsShaped(form: ForwardForm, freshId: string, profiles: seq<Profile>, f: PortForward)
    requires ValidateForward(form, freshId, profiles) == Ok(f)
    ensures ForwardShaped(f)
  {
    ValidatedForward(form, freshId, profiles, f);
    LabelIsTrimmed(form);
  }

  lemma LabelIsTrimmed(form: ForwardForm)
    requires ReadForward(form).Ok?
    ensures Trimmed(ReadForward(form).value.name) && |ReadForward(form).value.name| <= ForwardConfig.MAX_LABEL_LEN
  {
    TrimTwice(form.displayLabel);
  }
}
