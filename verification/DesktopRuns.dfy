/** Every sequence of saves, deletions and imports. */
module DesktopRuns {
  import opened Options
  import opened Records
  import opened Sequences
  import opened Ports
  import opened StoreFilters
  import opened Forms
  import opened Merging
  import opened DesktopStore

  datatype Action =
    | SaveProfile(profileForm: ProfileForm, freshId: string)
    | DeleteProfile(id: string)
    | SaveKey(keyForm: KeyForm, freshId: string)
    | CreateKey(input: string, freshId: string, publicKey: string, secret: string)
    | DeleteKey(id: string)
    | CreateServer(endpointId: string, secret: string)
    | DeleteServer
    | SaveClient(clientForm: ClientForm)
    | RemoveClient(publicKey: string)
    | SaveForward(profileId: string, forwardForm: ForwardForm, freshId: string)
    | DeleteForward(profileId: string, id: string)
    | Import(file: seq<Profile>, drawn: seq<Drawn>)

  /** A forward being edited, if it still exists, is in the profile it was opened from. */
  predicate ForwardHome(profiles: seq<Profile>, id: string, profileId: string) {
    forall i, j :: 0 <= i < |profiles| && 0 <= j < |profiles[i].forwards| && profiles[i].forwards[j].id == id ==>
                     profiles[i].id == profileId
  }

  /** The form is accepted for a profile other than the one its forward is in. */
  predicate MovesForward(s: Store, profileId: string, form: ForwardForm, freshId: string) {
    && form.editing.Some? && !ForwardHome(s.profiles, form.editing.value, profileId)
    && ValidateForward(form, freshId, s.profiles).Ok? && PositionOf(s.profiles, profileId).Some?
  }

  /** Random ids and generated keys are new when drawn; an edited key or forward was
      one of the store's. */
  predicate Possible(s: Store, a: Action) {
    match a
    case SaveProfile(form, freshId) => form.editing.None? ==> NoProfile(s.profiles, freshId)
    case SaveKey(form, freshId) =>
      if form.editing.None? then NewKeyId(s.keys, freshId)
      else GoodKeyId(form.editing.value)
    case CreateKey(_, freshId, publicKey, _) => NewKeyId(s.keys, freshId) && !PublicUsed(s.keys, publicKey, None)
    case SaveForward(profileId, form, freshId) =>
      if form.editing.None? then NoForward(s.profiles, freshId)
      else ForwardHome(s.profiles, form.editing.value, profileId)
    case Import(file, drawn) => DrawnFor(s, file, drawn)
    case _ => true
  }

  function Perform(lib: Libraries, s: Store, a: Action): Store
    requires Possible(s, a)
  {
    match a
    case SaveProfile(form, freshId) => SavedProfile(s, form, freshId)
    case DeleteProfile(id) => DeletedProfile(s, id)
    case SaveKey(form, freshId) => SavedKey(lib, s, form, freshId)
    case CreateKey(input, freshId, publicKey, secret) => CreatedKey(s, input, freshId, publicKey, secret)
    case DeleteKey(id) => DeletedKey(s, id)
    case CreateServer(endpointId, secret) => SetUpServer(s, endpointId, secret)
    case DeleteServer => s.(server := None)
    case SaveClient(form) => SavedClient(lib, s, form)
    case RemoveClient(publicKey) => RemovedClient(s, publicKey)
    case SaveForward(profileId, form, freshId) => SavedForward(s, profileId, form, freshId)
    case DeleteForward(profileId, id) => DeletedForward(s, profileId, id)
    case Import(file, drawn) => Imported(s, file, drawn)
  }

  ghost predicate Valid(lib: Libraries, start: Store, run: seq<Action>)
    decreases |run|, 0
  {
    run == [] || (Valid(lib, start, run[..|run| - 1]) && Possible(After(lib, start, run[..|run| - 1]), run[|run| - 1]))
  }

  ghost function After(lib: Libraries, start: Store, run: seq<Action>): Store
    requires Valid(lib, start, run)
    decreases |run|, 1
  {
    if run == [] then start else Perform(lib, After(lib, start, run[..|run| - 1]), run[|run| - 1])
  }

  // ---- Records stay apart ------------------------------------------------------------------------

  lemma PerformKeeps(lib: Libraries, s: Store, a: Action)
    requires StoreOk(lib, s) && Possible(s, a) && Canonical(lib.parse)
    ensures StoreOk(lib, Perform(lib, s, a))
  {
    match a
    case SaveProfile(form, freshId) => SaveProfileKeeps(lib, s, form, freshId);
    case DeleteProfile(id) => DeleteProfileKeeps(lib, s, id);
    case SaveKey(form, freshId) => SaveKeyKeeps(lib, s, form, freshId);
    case CreateKey(input, freshId, publicKey, secret) => CreateKeyKeeps(lib, s, input, freshId, publicKey, secret);
    case DeleteKey(id) => DeleteKeyKeeps(lib, s, id);
    case CreateServer(_, _) =>
    case DeleteServer =>
    case SaveClient(form) => SaveClientKeeps(lib, s, form);
    case RemoveClient(publicKey) => RemoveClientKeeps(lib, s, publicKey);
    case SaveForward(profileId, form, freshId) => SaveForwardKeeps(lib, s, profileId, form, freshId);
    case DeleteForward(profileId, id) => DeleteForwardKeeps(lib, s, profileId, id);
    case Import(file, drawn) => ImportKeeps(lib, s, file, drawn);
  }

  lemma SaveForwardKeeps(lib: Libraries, s: Store, profileId: string, form: ForwardForm, freshId: string)
    requires StoreOk(lib, s)
    ensures StoreOk(lib, SavedForward(s, profileId, form, freshId))
  {
    var result, pos := ValidateForward(form, freshId, s.profiles), PositionOf(s.profiles, profileId);
    if result.Ok? && pos.Some? {
      ForwardsAreFree(lib, s, pos.value, PlacedForward(s.profiles[pos.value].forwards, result.value));
    }
  }

  lemma DeleteForwardKeeps(lib: Libraries, s: Store, profileId: string, id: string)
    requires StoreOk(lib, s)
    ensures StoreOk(lib, DeletedForward(s, profileId, id))
  {
    var pos := PositionOf(s.profiles, profileId);
    if pos.Some? {
      ForwardsAreFree(lib, s, pos.value, Filter(NotForward(id), s.profiles[pos.value].forwards));
    }
  }

  /** After any run from a sound store, every record is valid and can be told apart. */
  lemma {:induction false} RunsKeepStore(lib: Libraries, start: Store, run: seq<Action>)
    requires StoreOk(lib, start) && Valid(lib, start, run) && Canonical(lib.parse)
    ensures StoreOk(lib, After(lib, start, run))
  {
    if run != [] {
      RunsKeepStore(lib, start, run[..|run| - 1]);
      PerformKeeps(lib, After(lib, start, run[..|run| - 1]), run[|run| - 1]);
    }
  }

  lemma FiltersDropNothing(lib: Libraries, start: Store, run: seq<Action>)
    requires StoreOk(lib, start) && Valid(lib, start, run) && Canonical(lib.parse)
    ensures var s := After(lib, start, run);
            KeptKeys(s.keys) == s.keys && KeptProfiles(s.profiles) == s.profiles
            && KeptClients(lib.parse, Clients(s)) == Clients(s)
  {
    RunsKeepStore(lib, start, run);
    var s := After(lib, start, run);
    KeysExact(s.keys);
    ProfilesExact(s.profiles);
    ClientsExact(lib.parse, Clients(s));
  }

  // ---- Local ports stay apart ----------------------------------------------------------------------

  ghost predicate PortsApart(profiles: seq<Profile>) {
    PortsOk(profiles) && ForwardIdsOk(profiles)
  }

  lemma SaveProfilePorts(lib: Libraries, s: Store, form: ProfileForm, freshId: string)
    requires StoreOk(lib, s) && PortsApart(s.profiles) && (form.editing.None? ==> NoProfile(s.profiles, freshId))
    ensures PortsApart(SavedProfile(s, form, freshId).profiles)
  {
    var result := ValidateProfile(form, freshId, s.profiles, s.keys);
    if result.Ok? {
      ValidatedProfile(form, freshId, s.profiles, s.keys);
      PlacedProfilePorts(s.profiles, s.keys, form, freshId, result.value);
    }
  }

  lemma PlacedProfilePorts(profiles: seq<Profile>, keys: seq<AuthKey>, form: ProfileForm, freshId: string, q: Profile)
    requires ProfilesOk(profiles) && PortsApart(profiles) && FitsProfile(form, freshId, profiles, keys, q)
    requires form.editing.None? ==> NoProfile(profiles, freshId)
    ensures var pos := PositionOf(profiles, q.id);
            PortsApart(if pos.Some? then profiles[pos.value := q] else profiles + [q])
  {
    var pos := PositionOf(profiles, q.id);
    if pos.Some? {
      SolePosition(profiles, q.id);
      EditKeepsPorts(profiles, pos.value, q);
      SameForwardsKeepIds(profiles, pos.value, q);
    } else {
      AddKeepsPorts(profiles, q, form.editing);
      AddForwardsKeepsIds(profiles, q);
    }
  }

  lemma SameForwardsKeepIds(profiles: seq<Profile>, pos: nat, q: Profile)
    requires ForwardIdsOk(profiles) && pos < |profiles| && q.forwards == profiles[pos].forwards
    ensures ForwardIdsOk(profiles[pos := q])
  {
    var after := profiles[pos := q];
    assert forall i :: 0 <= i < |after| ==> after[i].forwards == profiles[i].forwards;
  }

  lemma DeleteProfilePorts(s: Store, id: string)
    requires PortsApart(s.profiles)
    ensures PortsApart(DeletedProfile(s, id).profiles)
  {
    var found := PositionOf(s.profiles, id);
    if found.Some? {
      var pos := found.value;
      var a, p, b := s.profiles[..pos], s.profiles[pos], s.profiles[pos + 1..];
      forall port: Port ensures Uses(a + b, port) <= 1 {
        assert Uses(s.profiles, port) <= 1;
        CountAt(s.profiles, pos, p, None, None, port);
        assert s.profiles[pos := p] == s.profiles;
        CountConcat(a, b, None, None, port);
      }
      assert forall i :: 0 <= i < |a + b| ==> (a + b)[i] == s.profiles[if i < pos then i else i + 1];
    }
  }

  lemma {:induction false} FilteredCount(keep: PortForward -> bool, forwards: seq<PortForward>, port: Port)
    ensures ForwardCount(Filter(keep, forwards), None, port) <= ForwardCount(forwards, None, port)
  {
    if forwards != [] {
      var rest := Filter(keep, forwards[1..]);
      FilteredCount(keep, forwards[1..], port);
      assert ([forwards[0]] + rest)[1..] == rest;
      assert [] + rest == rest;
    }
  }

  lemma DeleteForwardPorts(s: Store, profileId: string, id: string)
    requires PortsApart(s.profiles)
    ensures PortsApart(DeletedForward(s, profileId, id).profiles)
  {
    var found := PositionOf(s.profiles, profileId);
    if found.Some? {
      var pos := found.value;
      var p := s.profiles[pos];
      var kept := Filter(NotForward(id), p.forwards);
      var after := WithForward(s.profiles, pos, kept);
      forall port: Port ensures Uses(after, port) <= 1 {
        assert Uses(s.profiles, port) <= 1;
        CountReplaced(s.profiles, pos, p.(forwards := kept), None, None, port);
        FilteredCount(NotForward(id), p.forwards, port);
      }
      FewerForwardsKeepIds(s.profiles, pos, NotForward(id));
    }
  }

  predicate IdsDiffer(f: PortForward, g: PortForward) {
    f.id != g.id
  }

  lemma FewerForwardsKeepIds(profiles: seq<Profile>, pos: nat, keep: PortForward -> bool)
    requires ForwardIdsOk(profiles) && pos < |profiles|
    ensures ForwardIdsOk(WithForward(profiles, pos, Filter(keep, profiles[pos].forwards)))
  {
    var forwards := profiles[pos].forwards;
    assert Pairwise(IdsDiffer, forwards);
    FilterPairwise(keep, IdsDiffer, forwards);
    FilterMembers(keep, forwards);
    SubsetKeepsIds(profiles, pos, Filter(keep, forwards));
  }

  lemma SubsetKeepsIds(profiles: seq<Profile>, pos: nat, kept: seq<PortForward>)
    requires ForwardIdsOk(profiles) && pos < |profiles| && Pairwise(IdsDiffer, kept)
    requires forall f :: f in kept ==> f in profiles[pos].forwards
    ensures ForwardIdsOk(WithForward(profiles, pos, kept))
  {
    forall j, i, l | 0 <= j < |kept| && 0 <= i < |profiles| && i != pos && 0 <= l < |profiles[i].forwards|
      ensures profiles[i].forwards[l].id != kept[j].id
    {
      assert kept[j] in profiles[pos].forwards;
    }
    assert forall j, l :: 0 <= j < l < |kept| ==> IdsDiffer(kept[j], kept[l]);
  }

  lemma SaveForwardPorts(s: Store, profileId: string, form: ForwardForm, freshId: string)
    requires ProfilesOk(s.profiles) && PortsApart(s.profiles) && Possible(s, SaveForward(profileId, form, freshId))
    ensures PortsApart(SavedForward(s, profileId, form, freshId).profiles)
  {
    var result, found := ValidateForward(form, freshId, s.profiles), PositionOf(s.profiles, profileId);
    if result.Ok? && found.Some? {
      ValidatedForward(form, freshId, s.profiles, result.value);
      SolePosition(s.profiles, profileId);
      EditedIsHere(s.profiles, profileId, found.value, form.editing);
      PlacedForwardPorts(s.profiles, found.value, form.editing, result.value);
    }
  }

  lemma ForwardElsewhere(profiles: seq<Profile>, pos: nat, f: PortForward, i: nat, j: nat)
    requires pos < |profiles| && i < |profiles| && i != pos && j < |profiles[i].forwards| && profiles[i].forwards[j].id == f.id
    ensures !ForwardIdsOk(WithForward(profiles, pos, PlacedForward(profiles[pos].forwards, f)))
  {
    var placed := PlacedForward(profiles[pos].forwards, f);
    var after := WithForward(profiles, pos, placed);
    var k := ForwardPosition(profiles[pos].forwards, f.id);
    var l := if k.Some? then k.value else |profiles[pos].forwards|;
    assert after[pos].forwards[l].id == f.id == after[i].forwards[j].id;
  }

  /** Saving the forward form keeps ports and forward ids apart if and only if it does
      not save the edited forward into another profile than the one that has it. */
  lemma SaveForwardExact(s: Store, profileId: string, form: ForwardForm, freshId: string)
    requires ProfilesOk(s.profiles) && PortsApart(s.profiles) && (form.editing.None? ==> NoForward(s.profiles, freshId))
    ensures PortsApart(SavedForward(s, profileId, form, freshId).profiles) <==> !MovesForward(s, profileId, form, freshId)
  {
    if form.editing.None? || ForwardHome(s.profiles, form.editing.value, profileId) {
      SaveForwardPorts(s, profileId, form, freshId);
    } else if MovesForward(s, profileId, form, freshId) {
      var f, pos := ValidateForward(form, freshId, s.profiles).value, PositionOf(s.profiles, profileId).value;
      ValidatedForward(form, freshId, s.profiles, f);
      var i, j :| 0 <= i < |s.profiles| && 0 <= j < |s.profiles[i].forwards|
                  && s.profiles[i].forwards[j].id == form.editing.value && s.profiles[i].id != profileId;
      ForwardElsewhere(s.profiles, pos, f, i, j);
    }
  }

  lemma EditedIsHere(profiles: seq<Profile>, profileId: string, pos: nat, editing: Option<string>)
    requires SoleProfile(profiles, pos, profileId) && (editing.Some? ==> ForwardHome(profiles, editing.value, profileId))
    ensures editing.Some? ==> forall i, j :: 0 <= i < |profiles| && 0 <= j < |profiles[i].forwards| && i != pos ==>
                                               profiles[i].forwards[j].id != editing.value
  {
  }

  /** The forward replaces the edited one, if it is still there, or is added. */
  lemma PlacedForwardPorts(profiles: seq<Profile>, pos: nat, editing: Option<string>, f: PortForward)
    requires PortsApart(profiles) && pos < |profiles|
    requires PortOwner(profiles, f.localPort, None, editing).None?
    requires if editing.None? then NoForward(profiles, f.id)
             else f.id == editing.value
                  && forall i, j :: 0 <= i < |profiles| && 0 <= j < |profiles[i].forwards| && i != pos ==>
                                      profiles[i].forwards[j].id != f.id
    ensures PortsApart(WithForward(profiles, pos, PlacedForward(profiles[pos].forwards, f)))
  {
    var forwards := profiles[pos].forwards;
    var k := ForwardPosition(forwards, f.id);
    if k.Some? {
      assert forwards[k.value].id == f.id;
      assert OnlyAt(profiles, pos, k.value, f.id);
      ForwardEditKeepsPorts(profiles, pos, k.value, f);
      EditedForwardKeepsIds(profiles, pos, k.value, f);
    } else {
      assert NoForward(profiles, f.id);
      ForwardAddKeepsPorts(profiles, pos, f, editing);
      AddedForwardKeepsIds(profiles, pos, f);
    }
  }

  lemma EditedForwardKeepsIds(profiles: seq<Profile>, pos: nat, k: nat, f: PortForward)
    requires ForwardIdsOk(profiles) && OnlyAt(profiles, pos, k, f.id)
    ensures ForwardIdsOk(WithForward(profiles, pos, profiles[pos].forwards[k := f]))
  {
    var after := WithForward(profiles, pos, profiles[pos].forwards[k := f]);
    assert profiles[pos].forwards[k].id == f.id;
    assert forall i, j :: 0 <= i < |after| && 0 <= j < |after[i].forwards| ==>
        |after[i].forwards| == |profiles[i].forwards| && after[i].forwards[j].id == profiles[i].forwards[j].id;
  }

  lemma AddedForwardKeepsIds(profiles: seq<Profile>, pos: nat, f: PortForward)
    requires ForwardIdsOk(profiles) && pos < |profiles| && NoForward(profiles, f.id)
    ensures ForwardIdsOk(WithForward(profiles, pos, profiles[pos].forwards + [f]))
  {
    var after := WithForward(profiles, pos, profiles[pos].forwards + [f]);
    var n := |profiles[pos].forwards|;
    assert forall i, j :: 0 <= i < |after| && 0 <= j < |after[i].forwards| ==>
        if i == pos && j == n then after[i].forwards[j] == f
        else j < |profiles[i].forwards| && after[i].forwards[j] == profiles[i].forwards[j];
  }

  /** The imports of the run bring no port that is in use. */
  ghost predicate ImportsFit(lib: Libraries, start: Store, run: seq<Action>)
    requires Valid(lib, start, run)
  {
    run == [] ||
    (&& ImportsFit(lib, start, run[..|run| - 1])
     && (run[|run| - 1].Import? ==> Fits(After(lib, start, run[..|run| - 1]), run[|run| - 1])))
  }

  ghost predicate Fits(s: Store, a: Action)
    requires a.Import? && Possible(s, a)
  {
    ImportFits(s.profiles, Incomings(KeptProfiles(a.file), a.drawn))
  }

  lemma ImportPorts(lib: Libraries, s: Store, a: Action)
    requires StoreOk(lib, s) && PortsApart(s.profiles) && a.Import? && Possible(s, a)
    ensures PortsApart(Perform(lib, s, a).profiles) <==> Fits(s, a)
  {
    ProfilesExact(a.file);
    var incs := Incomings(KeptProfiles(a.file), a.drawn);
    MergedIds(s.profiles, incs);
    ImportKeepsPortsExactly(s.profiles, incs, Merged(s.profiles, incs).profiles);
  }

  lemma PerformKeepsPorts(lib: Libraries, s: Store, a: Action)
    requires StoreOk(lib, s) && PortsApart(s.profiles) && Possible(s, a) && !a.Import?
    ensures PortsApart(Perform(lib, s, a).profiles)
  {
    match a
    case SaveProfile(form, freshId) => SaveProfilePorts(lib, s, form, freshId);
    case DeleteProfile(id) => DeleteProfilePorts(s, id);
    case SaveForward(profileId, form, freshId) => SaveForwardPorts(s, profileId, form, freshId);
    case DeleteForward(profileId, id) => DeleteForwardPorts(s, profileId, id);
    case _ =>
  }

  /** After any run whose imports bring no port in use, no local port is configured
      twice in all profiles' proxies and forwards. */
  lemma {:induction false} RunsKeepPorts(lib: Libraries, start: Store, run: seq<Action>)
    requires StoreOk(lib, start) && PortsApart(start.profiles) && Canonical(lib.parse)
    requires Valid(lib, start, run) && ImportsFit(lib, start, run)
    ensures PortsApart(After(lib, start, run).profiles)
  {
    if run != [] {
      var before, a := After(lib, start, run[..|run| - 1]), run[|run| - 1];
      RunsKeepPorts(lib, start, run[..|run| - 1]);
      RunsKeepStore(lib, start, run[..|run| - 1]);
      if a.Import? {
        ImportPorts(lib, before, a);
      } else {
        PerformKeepsPorts(lib, before, a);
      }
    }
  }
}
