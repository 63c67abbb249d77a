/** The desktop app object: what its save, delete and import methods do to the lists
    it holds, and that the store stays sound through them. */
module DesktopApp {
  import opened Options
  import opened Records
  import opened Sequences
  import opened StoreFilters
  import opened Ports
  import opened Forms
  import opened Merging
  import opened DesktopStore
  import opened DesktopRuns

  class App {
    const lib: Libraries
    var keys: seq<AuthKey>
    var profiles: seq<Profile>
    var server: Option<ServerConfig>

    ghost function Value(): Store
      reads this
    {
      Store(keys, profiles, server)
    }

    /** Every record is valid and can be told apart. */
    ghost predicate Valid()
      reads this
    {
      StoreOk(lib, Value()) && Canonical(lib.parse)
    }

    constructor (lib: Libraries, s: Store)
      requires StoreOk(lib, s) && Canonical(lib.parse)
      ensures Valid() && Value() == s && this.lib == lib
    {
      this.lib := lib;
      keys, profiles, server := s.keys, s.profiles, s.server;
    }

    method SaveProfileForm(form: ProfileForm, freshId: string)
      requires Valid() && Possible(Value(), SaveProfile(form, freshId))
      modifies `profiles
      ensures Valid() && Value() == SavedProfile(old(Value()), form, freshId)
      ensures old(PortsApart(profiles)) ==> PortsApart(profiles)
    {
      ghost var before := Value();
      SaveProfileKeeps(lib, before, form, freshId);
      if PortsApart(profiles) {
        SaveProfilePorts(lib, before, form, freshId);
      }
      var result := ValidateProfile(form, freshId, profiles, keys);
      if result.Err? {
        return;
      }
      var pos := PositionOf(profiles, result.value.id);
      profiles := if pos.Some? then profiles[pos.value := result.value] else profiles + [result.value];
    }

    method DeleteProfile(id: string)
      requires Valid()
      modifies `profiles
      ensures Valid() && Value() == DeletedProfile(old(Value()), id)
      ensures old(PortsApart(profiles)) ==> PortsApart(profiles)
    {
      ghost var before := Value();
      DeleteProfileKeeps(lib, before, id);
      if PortsApart(profiles) {
        DeleteProfilePorts(before, id);
      }
      var pos := PositionOf(profiles, id);
      if pos.Some? {
        profiles := profiles[..pos.value] + profiles[pos.value + 1..];
      }
    }

    method SaveKeyForm(form: KeyForm, freshId: string)
      requires Valid() && Possible(Value(), SaveKey(form, freshId))
      modifies `keys
      ensures Valid() && Value() == SavedKey(lib, old(Value()), form, freshId)
    {
      SaveKeyKeeps(lib, Value(), form, freshId);
      var result := ValidateKey(lib.publicOf, form, freshId, keys);
      if result.Err? {
        return;
      }
      var pos := KeyPosition(keys, result.value.id);
      keys := if pos.Some? then keys[pos.value := result.value] else keys + [result.value];
    }

    method CreateKeyForProfileForm(input: string, freshId: string, publicKey: string, secret: string)
      requires Valid() && Possible(Value(), CreateKey(input, freshId, publicKey, secret))
      modifies `keys
      ensures Valid() && Value() == CreatedKey(old(Value()), input, freshId, publicKey, secret)
    {
      CreateKeyKeeps(lib, Value(), input, freshId, publicKey, secret);
      var name := ValidateKeyName(input, keys, None);
      if name.Ok? {
        keys := keys + [AuthKey(freshId, name.value, publicKey, secret)];
      }
    }

    method DeleteKey(id: string)
      requires Valid()
      modifies `keys
      ensures Valid() && Value() == DeletedKey(old(Value()), id)
    {
      DeleteKeyKeeps(lib, Value(), id);
      for i := 0 to |profiles|
        invariant keys == old(keys) && forall j :: 0 <= j < i ==> profiles[j].authKeyId != id
      {
        if profiles[i].authKeyId == id {
          return;
        }
      }
      keys := Filter(NotKey(id), keys);
    }

    method SaveClientForm(form: ClientForm)
      requires Valid()
      modifies `server
      ensures Valid() && Value() == SavedClient(lib, old(Value()), form)
    {
      SaveClientKeeps(lib, Value(), form);
      if server.None? {
        return;
      }
      var result := ValidateClient(lib.parse, form, server.value.authorizedClients);
      if result.Ok? {
        server := Some(server.value.(authorizedClients := server.value.authorizedClients + [result.value]));
      }
    }

    method RemoveClient(publicKey: string)
      requires Valid()
      modifies `server
      ensures Valid() && Value() == RemovedClient(old(Value()), publicKey)
      ensures !ClientKeyed(Clients(Value()), publicKey)
    {
      RemoveClientKeeps(lib, Value(), publicKey);
      if server.None? {
        return;
      }
      var kept := Filter(NotClient(publicKey), server.value.authorizedClients);
      FilterIdentity(NotClient(publicKey), server.value.authorizedClients);
      if |kept| == |server.value.authorizedClients| {
        return;
      }
      server := Some(server.value.(authorizedClients := kept));
    }

    method SaveForwardForm(profileId: string, form: ForwardForm, freshId: string)
      requires Valid() && (form.editing.None? ==> NoForward(profiles, freshId))
      modifies `profiles
      ensures Valid() && Value() == SavedForward(old(Value()), profileId, form, freshId)
      ensures old(PortsApart(profiles)) ==> (PortsApart(profiles) <==> !MovesForward(old(Value()), profileId, form, freshId))
    {
      ghost var before := Value();
      SaveForwardKeeps(lib, before, profileId, form, freshId);
      if PortsApart(profiles) {
        SaveForwardExact(before, profileId, form, freshId);
      }
      var result := ValidateForward(form, freshId, profiles);
      var pos := PositionOf(profiles, profileId);
      if result.Err? || pos.None? {
        return;
      }
      var profile := profiles[pos.value];
      var slot := ForwardPosition(profile.forwards, result.value.id);
      if slot.Some? {
        profile := profile.(forwards := profile.forwards[slot.value := result.value]);
      } else {
        profile := profile.(forwards := profile.forwards + [result.value]);
      }
      profiles := profiles[pos.value := profile];
    }

    method ImportProfiles(file: seq<Profile>, drawn: seq<Drawn>) returns (added: nat, replaced: seq<string>)
      requires Valid() && Possible(Value(), Import(file, drawn))
      modifies `profiles
      ensures Valid() && Value() == Imported(old(Value()), file, drawn)
      ensures old(PortsApart(profiles)) ==> (PortsApart(profiles) <==> Fits(old(Value()), Import(file, drawn)))
      ensures |profiles| == |old(profiles)| + added && added + |replaced| == |KeptProfiles(file)|
    {
      ghost var before := Value();
      ImportKeeps(lib, before, file, drawn);
      if PortsApart(profiles) {
        ImportPorts(lib, before, Import(file, drawn));
      }
      var read := DropInvalid(file);
      var after;
      after, added, replaced := MergeImported(profiles, Incomings(read, drawn));
      profiles := after;
    }
  }
}
