/** Profiles' references to keys: a load may leave one without its key, but nothing done
    in the app does. */
module DesktopRefs {
  import opened Options
  import opened Records
  import opened Sequences
  import opened StoreFilters
  import opened Ports
  import opened Forms
  import opened Merging
  import opened DesktopStore
  import opened DesktopRuns

  /** The profile of the id names a key that is not there. */
  predicate Dangling(s: Store, id: string, key: string) {
    key != "" && !HasKey(s.keys, key)
    && exists i :: 0 <= i < |s.profiles| && s.profiles[i].id == id && s.profiles[i].authKeyId == key
  }

  /** What dangles in the second store dangled in the first. */
  ghost predicate RefsFollow(s: Store, t: Store) {
    forall id, key :: Dangling(t, id, key) ==> Dangling(s, id, key)
  }

  /** Every profile names a key that exists, or none. */
  predicate RefsOk(s: Store) {
    forall i :: 0 <= i < |s.profiles| && s.profiles[i].authKeyId != "" ==> HasKey(s.keys, s.profiles[i].authKeyId)
  }

  lemma FollowsOk(s: Store, t: Store)
    requires RefsOk(s) && RefsFollow(s, t)
    ensures RefsOk(t)
  {
    forall i | 0 <= i < |t.profiles| && t.profiles[i].authKeyId != "" ensures HasKey(t.keys, t.profiles[i].authKeyId) {
      assert !Dangling(s, t.profiles[i].id, t.profiles[i].authKeyId);
    }
  }

  /** No key id is lost, and each profile's reference was there before, or is met. */
  lemma RefsCarried(s: Store, t: Store)
    requires forall key :: HasKey(s.keys, key) ==> HasKey(t.keys, key)
    requires forall i :: 0 <= i < |t.profiles| ==>
                           || t.profiles[i].authKeyId == "" || HasKey(t.keys, t.profiles[i].authKeyId)
                           || exists j :: 0 <= j < |s.profiles| && s.profiles[j].id == t.profiles[i].id
                                          && s.profiles[j].authKeyId == t.profiles[i].authKeyId
    ensures RefsFollow(s, t)
  {
  }

  lemma KeysGrow(keys: seq<AuthKey>, after: seq<AuthKey>)
    requires |keys| <= |after| && forall i :: 0 <= i < |keys| ==> after[i].id == keys[i].id
    ensures forall key :: HasKey(keys, key) ==> HasKey(after, key)
  {
    forall key | HasKey(keys, key) ensures HasKey(after, key) {
      var i :| 0 <= i < |keys| && keys[i].id == key;
      assert after[i].id == key;
    }
  }

  lemma SaveProfileFollows(s: Store, form: ProfileForm, freshId: string)
    ensures RefsFollow(s, SavedProfile(s, form, freshId))
  {
    var t := SavedProfile(s, form, freshId);
    if ValidateProfile(form, freshId, s.profiles, s.keys).Ok? {
      ValidatedProfile(form, freshId, s.profiles, s.keys);
      var q := ValidateProfile(form, freshId, s.profiles, s.keys).value;
      assert forall i :: 0 <= i < |t.profiles| ==> t.profiles[i] == q || (i < |s.profiles| && t.profiles[i] == s.profiles[i]);
      RefsCarried(s, t);
    }
  }

  lemma DeleteProfileFollows(s: Store, id: string)
    ensures RefsFollow(s, DeletedProfile(s, id))
  {
    var t := DeletedProfile(s, id);
    assert forall i :: 0 <= i < |t.profiles| ==> t.profiles[i] in s.profiles;
    RefsCarried(s, t);
  }

  lemma DeleteKeyFollows(s: Store, id: string)
    ensures RefsFollow(s, DeletedKey(s, id))
  {
    var t := DeletedKey(s, id);
    FilterMembers(NotKey(id), s.keys);
    forall key | HasKey(s.keys, key) && key != id ensures HasKey(t.keys, key) {
      var k :| 0 <= k < |s.keys| && s.keys[k].id == key;
      assert s.keys[k] in t.keys;
    }
  }

  lemma ForwardsFollow(s: Store, pos: nat, forwards: seq<PortForward>)
    requires pos < |s.profiles|
    ensures RefsFollow(s, s.(profiles := WithForward(s.profiles, pos, forwards)))
  {
    RefsCarried(s, s.(profiles := WithForward(s.profiles, pos, forwards)));
  }

  lemma ImportFollows(s: Store, file: seq<Profile>, drawn: seq<Drawn>)
    requires DrawnFor(s, file, drawn)
    ensures RefsFollow(s, Imported(s, file, drawn))
  {
    MergeKeeps(s.profiles, Incomings(KeptProfiles(file), drawn));
    var t := Imported(s, file, drawn);
    assert forall i :: 0 <= i < |s.profiles| ==> SameIdentity(s.profiles[i], t.profiles[i]);
    RefsCarried(s, t);
  }

  lemma PerformFollows(lib: Libraries, s: Store, a: Action)
    requires Possible(s, a)
    ensures RefsFollow(s, Perform(lib, s, a))
  {
    match a
    case SaveProfile(form, freshId) => SaveProfileFollows(s, form, freshId);
    case DeleteProfile(id) => DeleteProfileFollows(s, id);
    case SaveKey(_, _) =>
      KeysGrow(s.keys, Perform(lib, s, a).keys);
      RefsCarried(s, Perform(lib, s, a));
    case CreateKey(_, _, _, _) =>
      KeysGrow(s.keys, Perform(lib, s, a).keys);
      RefsCarried(s, Perform(lib, s, a));
    case DeleteKey(id) => DeleteKeyFollows(s, id);
    case SaveForward(_, _, _) => SaveForwardFollows(s, a);
    case DeleteForward(_, _) => SaveForwardFollows(s, a);
    case Import(file, drawn) => ImportFollows(s, file, drawn);
    case _ =>
  }

  lemma SaveForwardFollows(s: Store, a: Action)
    requires a.SaveForward? || a.DeleteForward?
    ensures a.SaveForward? ==> RefsFollow(s, SavedForward(s, a.profileId, a.forwardForm, a.freshId))
    ensures a.DeleteForward? ==> RefsFollow(s, DeletedForward(s, a.profileId, a.id))
  {
    var pos := PositionOf(s.profiles, a.profileId);
    if pos.Some? {
      var forwards := s.profiles[pos.value].forwards;
      if a.DeleteForward? {
        ForwardsFollow(s, pos.value, Filter(NotForward(a.id), forwards));
      } else if ValidateForward(a.forwardForm, a.freshId, s.profiles).Ok? {
        ForwardsFollow(s, pos.value, PlacedForward(forwards, ValidateForward(a.forwardForm, a.freshId, s.profiles).value));
      }
    }
  }

  /** Over any run a reference dangles only if it did at the start; so if the start has
      none that does, every profile's key exists after the run. */
  lemma {:induction false} RunsKeepRefs(lib: Libraries, start: Store, run: seq<Action>)
    requires Valid(lib, start, run)
    ensures RefsFollow(start, After(lib, start, run))
    ensures RefsOk(start) ==> RefsOk(After(lib, start, run))
  {
    if run != [] {
      RunsKeepRefs(lib, start, run[..|run| - 1]);
      PerformFollows(lib, After(lib, start, run[..|run| - 1]), run[|run| - 1]);
    }
    if RefsOk(start) {
      FollowsOk(start, After(lib, start, run));
    }
  }
}
