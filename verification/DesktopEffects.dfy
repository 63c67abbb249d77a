/** What each action does to the store, told by what is in it before and after. */
module DesktopEffects {
  import opened Options
  import opened Records
  import opened Sequences
  import opened Ports
  import opened StoreFilters
  import opened Forms
  import opened Merging
  import opened DesktopStore
  import opened DesktopRuns

  // ---- Lists ---------------------------------------------------------------------------------

  /** The first element that `own` holds of is replaced, or the new one goes to the end. */
  ghost predicate Put<T(!new)>(own: T -> bool, before: seq<T>, after: seq<T>, x: T) {
    if exists i :: 0 <= i < |before| && own(before[i]) then
      exists i :: 0 <= i < |before| && own(before[i]) && PutAt(own, before, after, i, x)
    else
      |after| == |before| + 1 && after[|before|] == x && forall j :: 0 <= j < |before| ==> after[j] == before[j]
  }

  ghost predicate PutAt<T(!new)>(own: T -> bool, before: seq<T>, after: seq<T>, i: nat, x: T)
    requires i < |before|
  {
    && |after| == |before| && after[i] == x && (forall j :: 0 <= j < i ==> !own(before[j]))
    && forall j :: 0 <= j < |before| && j != i ==> after[j] == before[j]
  }

  predicate Subsequence<T(==)>(a: seq<T>, b: seq<T>) {
    a == [] || (b != [] && ((a[0] == b[0] && Subsequence(a[1..], b[1..])) || Subsequence(a, b[1..])))
  }

  /** What `gone` holds of is taken out, and the rest stays in order. */
  ghost predicate Without<T(!new)>(gone: T -> bool, before: seq<T>, after: seq<T>) {
    Subsequence(after, before) && forall x :: x in after <==> x in before && !gone(x)
  }

  lemma {:induction false} FilterIsSubsequence<T(!new)>(keep: T -> bool, s: seq<T>)
    ensures Subsequence(Filter(keep, s), s)
  {
    if s != [] {
      FilterIsSubsequence(keep, s[1..]);
      if keep(s[0]) {
        assert Filter(keep, s)[1..] == Filter(keep, s[1..]);
      } else {
        assert Filter(keep, s) == Filter(keep, s[1..]);
      }
    }
  }

  lemma Filters<T(!new)>(keep: T -> bool, gone: T -> bool, s: seq<T>)
    requires forall x :: x in s ==> (gone(x) <==> !keep(x))
    ensures Without(gone, s, Filter(keep, s))
  {
    FilterIsSubsequence(keep, s);
    FilterMembers(keep, s);
  }

  lemma {:induction false} SubsequenceRefl<T>(s: seq<T>)
    ensures Subsequence(s, s)
  {
    if s != [] {
      SubsequenceRefl(s[1..]);
    }
  }

  lemma {:induction false} CutIsSubsequence<T>(s: seq<T>, pos: nat)
    requires pos < |s|
    ensures Subsequence(s[..pos] + s[pos + 1..], s)
  {
    var cut := s[..pos] + s[pos + 1..];
    if pos == 0 {
      assert cut == s[1..];
      SubsequenceRefl(s[1..]);
      assert cut == [] || Subsequence(cut, s[1..]);
    } else {
      CutIsSubsequence(s[1..], pos - 1);
      assert cut[0] == s[0] && cut[1..] == s[1..][..pos - 1] + s[1..][pos..];
    }
  }

  lemma CutMembers<T(!new)>(s: seq<T>, pos: nat, gone: T -> bool)
    requires pos < |s| && forall i :: 0 <= i < |s| ==> (gone(s[i]) <==> i == pos)
    ensures forall x :: x in s[..pos] + s[pos + 1..] <==> x in s && !gone(x)
  {
    var cut := s[..pos] + s[pos + 1..];
    forall x ensures x in cut <==> x in s && !gone(x) {
      if x in s && !gone(x) {
        var i :| 0 <= i < |s| && s[i] == x;
        assert cut[if i < pos then i else i - 1] == x;
      }
      if x in cut {
        var i :| 0 <= i < |cut| && cut[i] == x;
        assert s[if i < pos then i else i + 1] == x;
      }
    }
  }

  // ---- Profiles and their forwards ---------------------------------------------------------------

  /** A save puts the validated profile in place of the one with its id, or adds it; a
      refused one changes nothing. */
  lemma SaveProfileEffect(lib: Libraries, s: Store, form: ProfileForm, freshId: string)
    requires Possible(s, SaveProfile(form, freshId))
    ensures var t, r := Perform(lib, s, SaveProfile(form, freshId)), ValidateProfile(form, freshId, s.profiles, s.keys);
            && t.keys == s.keys && t.server == s.server
            && if r.Err? then t.profiles == s.profiles
               else Put((p: Profile) => p.id == r.value.id, s.profiles, t.profiles, r.value)
  {
    var r := ValidateProfile(form, freshId, s.profiles, s.keys);
    if r.Ok? {
      PutProfile(s.profiles, r.value);
    }
  }

  lemma PutProfile(profiles: seq<Profile>, q: Profile)
    ensures var pos := PositionOf(profiles, q.id);
            Put((p: Profile) => p.id == q.id, profiles, if pos.Some? then profiles[pos.value := q] else profiles + [q], q)
  {
    var own := (p: Profile) => p.id == q.id;
    var pos := Position(own, profiles);
    if pos.Some? {
      assert own(profiles[pos.value]) && PutAt(own, profiles, profiles[pos.value := q], pos.value, q);
    }
  }

  /** A deletion takes out the profile with the id and nothing else. */
  lemma DeleteProfileEffect(lib: Libraries, s: Store, id: string)
    requires ProfilesOk(s.profiles)
    ensures var t := Perform(lib, s, DeleteProfile(id));
            t.keys == s.keys && t.server == s.server && Without((p: Profile) => p.id == id, s.profiles, t.profiles)
  {
    var pos := PositionOf(s.profiles, id);
    if pos.Some? {
      CutIsSubsequence(s.profiles, pos.value);
      SolePosition(s.profiles, id);
      CutMembers(s.profiles, pos.value, (p: Profile) => p.id == id);
    } else {
      SubsequenceRefl(s.profiles);
    }
  }

  /** Only this profile's forwards change. */
  ghost predicate ForwardsOnly(before: seq<Profile>, after: seq<Profile>, id: string) {
    && |after| == |before|
    && forall i :: 0 <= i < |before| ==>
         if before[i].id == id then after[i] == before[i].(forwards := after[i].forwards) else after[i] == before[i]
  }

  lemma SaveForwardEffect(lib: Libraries, s: Store, profileId: string, form: ForwardForm, freshId: string)
    requires ProfilesOk(s.profiles) && Possible(s, SaveForward(profileId, form, freshId))
    ensures var t, r := Perform(lib, s, SaveForward(profileId, form, freshId)), ValidateForward(form, freshId, s.profiles);
            && t.keys == s.keys && t.server == s.server && ForwardsOnly(s.profiles, t.profiles, profileId)
            && forall i :: 0 <= i < |s.profiles| && s.profiles[i].id == profileId ==>
                 if r.Err? then t.profiles[i] == s.profiles[i]
                 else Put((f: PortForward) => f.id == r.value.id, s.profiles[i].forwards, t.profiles[i].forwards, r.value)
  {
    var pos, r := PositionOf(s.profiles, profileId), ValidateForward(form, freshId, s.profiles);
    if pos.Some? {
      SolePosition(s.profiles, profileId);
      if r.Ok? {
        PutForward(s.profiles[pos.value].forwards, r.value);
      }
    }
  }

  lemma PutForward(forwards: seq<PortForward>, f: PortForward)
    ensures Put((g: PortForward) => g.id == f.id, forwards, PlacedForward(forwards, f), f)
  {
    var own := (g: PortForward) => g.id == f.id;
    var pos := Position(own, forwards);
    if pos.Some? {
      assert own(forwards[pos.value]) && PutAt(own, forwards, forwards[pos.value := f], pos.value, f);
    }
  }

  lemma DeleteForwardEffect(lib: Libraries, s: Store, profileId: string, id: string)
    requires ProfilesOk(s.profiles)
    ensures var t := Perform(lib, s, DeleteForward(profileId, id));
            && t.keys == s.keys && t.server == s.server && ForwardsOnly(s.profiles, t.profiles, profileId)
            && forall i :: 0 <= i < |s.profiles| && s.profiles[i].id == profileId ==>
                 Without((f: PortForward) => f.id == id, s.profiles[i].forwards, t.profiles[i].forwards)
  {
    var pos := PositionOf(s.profiles, profileId);
    if pos.Some? {
      SolePosition(s.profiles, profileId);
      Filters(NotForward(id), (f: PortForward) => f.id == id, s.profiles[pos.value].forwards);
    }
  }

  // ---- Keys -----------------------------------------------------------------------------------------

  lemma PutKey(keys: seq<AuthKey>, k: AuthKey)
    ensures var pos := KeyPosition(keys, k.id);
            Put((l: AuthKey) => l.id == k.id, keys, if pos.Some? then keys[pos.value := k] else keys + [k], k)
  {
    var own := (l: AuthKey) => l.id == k.id;
    var pos := Position(own, keys);
    if pos.Some? {
      assert own(keys[pos.value]) && PutAt(own, keys, keys[pos.value := k], pos.value, k);
    }
  }

  lemma SaveKeyEffect(lib: Libraries, s: Store, form: KeyForm, freshId: string)
    requires Possible(s, SaveKey(form, freshId))
    ensures var t, r := Perform(lib, s, SaveKey(form, freshId)), ValidateKey(lib.publicOf, form, freshId, s.keys);
            && t.profiles == s.profiles && t.server == s.server
            && if r.Err? then t.keys == s.keys else Put((l: AuthKey) => l.id == r.value.id, s.keys, t.keys, r.value)
  {
    var r := ValidateKey(lib.publicOf, form, freshId, s.keys);
    if r.Ok? {
      PutKey(s.keys, r.value);
    }
  }

  lemma CreateKeyEffect(lib: Libraries, s: Store, input: string, freshId: string, publicKey: string, secret: string)
    requires Possible(s, CreateKey(input, freshId, publicKey, secret))
    ensures var t, r := Perform(lib, s, CreateKey(input, freshId, publicKey, secret)), ValidateKeyName(input, s.keys, None);
            && t.profiles == s.profiles && t.server == s.server
            && if r.Err? then t.keys == s.keys
               else Put((l: AuthKey) => l.id == freshId, s.keys, t.keys, AuthKey(freshId, r.value, publicKey, secret))
  {
  }

  /** A key is deleted unless a profile uses it. */
  lemma DeleteKeyEffect(lib: Libraries, s: Store, id: string)
    ensures var t := Perform(lib, s, DeleteKey(id));
            && t.profiles == s.profiles && t.server == s.server
            && if exists p :: p in s.profiles && p.authKeyId == id then t.keys == s.keys
               else Without((k: AuthKey) => k.id == id, s.keys, t.keys)
  {
    if KeyInUse(s.profiles, id) {
      var i :| 0 <= i < |s.profiles| && s.profiles[i].authKeyId == id;
      assert s.profiles[i] in s.profiles;
    } else {
      Filters(NotKey(id), (k: AuthKey) => k.id == id, s.keys);
    }
  }

  // ---- The server ------------------------------------------------------------------------------------

  lemma ServerEffects(lib: Libraries, s: Store, endpointId: string, secret: string)
    ensures var t := Perform(lib, s, CreateServer(endpointId, secret));
            && t.keys == s.keys && t.profiles == s.profiles
            && t.server == Some(ServerConfig(endpointId, secret, [], [], [], [], None, true))
    ensures Perform(lib, s, DeleteServer) == Store(s.keys, s.profiles, None)
  {
  }

  /** Only the server's clients change. */
  ghost predicate ClientsOnly(before: Store, after: Store) {
    && after.keys == before.keys && after.profiles == before.profiles && (after.server.Some? <==> before.server.Some?)
    && (before.server.Some? ==>
          after.server.value == before.server.value.(authorizedClients := after.server.value.authorizedClients))
  }

  lemma SaveClientEffect(lib: Libraries, s: Store, form: ClientForm)
    ensures var t := Perform(lib, s, SaveClient(form));
            && ClientsOnly(s, t)
            && (s.server.Some? ==>
                  var before, after := s.server.value.authorizedClients, t.server.value.authorizedClients;
                  var r := ValidateClient(lib.parse, form, before);
                  after == if r.Err? then before else before + [r.value])
  {
  }

  lemma RemoveClientEffect(lib: Libraries, s: Store, publicKey: string)
    ensures var t := Perform(lib, s, RemoveClient(publicKey));
            && ClientsOnly(s, t)
            && (s.server.Some? ==>
                  Without((c: AuthorizedClient) => c.publicKey == publicKey,
                          s.server.value.authorizedClients, t.server.value.authorizedClients))
  {
    if s.server.Some? {
      Filters(NotClient(publicKey), (c: AuthorizedClient) => c.publicKey == publicKey, s.server.value.authorizedClients);
    }
  }
}
