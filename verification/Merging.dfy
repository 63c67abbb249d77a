/** Merging imported profiles into the current ones. */
module Merging {
  import opened Options
  import opened Records
  import opened Sequences
  import opened Names
  import opened Ports
  import opened StoreFilters

  /** An imported profile with the random ids drawn for it and for its forwards. */
  datatype Incoming = Incoming(profile: Profile, freshId: string, forwardIds: seq<string>)

  predicate WellFormed(inc: Incoming) {
    |inc.forwardIds| == |inc.profile.forwards|
  }

  function Reidentified(inc: Incoming): (r: seq<PortForward>)
    requires WellFormed(inc)
    ensures |r| == |inc.forwardIds| && forall i :: 0 <= i < |r| ==> r[i].id == inc.forwardIds[i]
  {
    seq(|inc.forwardIds|, i requires 0 <= i < |inc.forwardIds| => inc.profile.forwards[i].(id := inc.forwardIds[i]))
  }

  /** The first profile of the server. */
  function ServerPosition(profiles: seq<Profile>, server: string): (r: Option<nat>)
    ensures r.Some? ==> r.value < |profiles| && profiles[r.value].serverNodeId == server
    ensures r.None? ==> forall i :: 0 <= i < |profiles| ==> profiles[i].serverNodeId != server
  {
    Position((p: Profile) => p.serverNodeId == server, profiles)
  }

  /** Names of the profiles other than the one with this id. */
  function TakenNames(profiles: seq<Profile>, own: Option<string>): (names: set<string>)
    ensures |names| <= |profiles|
  {
    if profiles == [] then {}
    else
      var last := profiles[|profiles| - 1];
      TakenNames(profiles[..|profiles| - 1], own) + (if Some(last.id) != own then {last.name} else {})
  }

  predicate Takes(profiles: seq<Profile>, own: Option<string>, name: string) {
    exists i :: 0 <= i < |profiles| && profiles[i].name == name && Some(profiles[i].id) != own
  }

  lemma {:induction false} TakenNamesExact(profiles: seq<Profile>, own: Option<string>, name: string)
    ensures name in TakenNames(profiles, own) <==> Takes(profiles, own, name)
  {
    if profiles != [] {
      var last := |profiles| - 1;
      TakenNamesExact(profiles[..last], own, name);
      if Takes(profiles[..last], own, name) {
        var i :| 0 <= i < last && profiles[..last][i].name == name && Some(profiles[..last][i].id) != own;
        assert profiles[i].name == name;
      }
      if Takes(profiles, own, name) && !(profiles[last].name == name && Some(profiles[last].id) != own) {
        var i :| 0 <= i < |profiles| && profiles[i].name == name && Some(profiles[i].id) != own;
        assert profiles[..last][i].name == name;
      }
    }
  }

  predicate NamesFit(profiles: seq<Profile>) {
    |profiles| + 2 <= MAX_COUNTER
  }

  function Replacing(profiles: seq<Profile>, current: Profile, inc: Incoming): Profile
    requires WellFormed(inc) && NamesFit(profiles)
  {
    inc.profile.(id := current.id, authKeyId := current.authKeyId, relayAuthToken := current.relayAuthToken,
                 name := FreeName(inc.profile.name, TakenNames(profiles, Some(current.id))),
                 forwards := Reidentified(inc))
  }

  function Adding(profiles: seq<Profile>, inc: Incoming): Profile
    requires WellFormed(inc) && NamesFit(profiles)
  {
    inc.profile.(id := inc.freshId, authKeyId := "", relayAuthToken := None,
                 name := FreeName(inc.profile.name, TakenNames(profiles, None)),
                 forwards := Reidentified(inc))
  }

  function MergedOne(profiles: seq<Profile>, inc: Incoming): (after: seq<Profile>)
    requires WellFormed(inc) && NamesFit(profiles)
  {
    match ServerPosition(profiles, inc.profile.serverNodeId)
    case Some(pos) => profiles[pos := Replacing(profiles, profiles[pos], inc)]
    case None => profiles + [Adding(profiles, inc)]
  }

  datatype Merge = Merge(profiles: seq<Profile>, added: nat, replaced: seq<string>)

  predicate AllWellFormed(incs: seq<Incoming>) {
    forall i :: 0 <= i < |incs| ==> WellFormed(incs[i])
  }

  function Merged(profiles: seq<Profile>, incs: seq<Incoming>): (m: Merge)
    requires AllWellFormed(incs) && |profiles| + |incs| + 2 <= MAX_COUNTER
    ensures |m.profiles| == |profiles| + m.added && m.added + |m.replaced| == |incs|
  {
    if incs == [] then Merge(profiles, 0, [])
    else
      var m, inc := Merged(profiles, incs[..|incs| - 1]), incs[|incs| - 1];
      match ServerPosition(m.profiles, inc.profile.serverNodeId)
      case Some(pos) => Merge(MergedOne(m.profiles, inc), m.added, m.replaced + [m.profiles[pos].id])
      case None => Merge(MergedOne(m.profiles, inc), m.added + 1, m.replaced)
  }

  method MergeImported(profiles: seq<Profile>, incs: seq<Incoming>)
    returns (after: seq<Profile>, added: nat, replaced: seq<string>)
    requires AllWellFormed(incs) && |profiles| + |incs| + 2 <= MAX_COUNTER
    ensures Merge(after, added, replaced) == Merged(profiles, incs)
  {
    after, added, replaced := profiles, 0, [];
    for i := 0 to |incs|
      invariant Merge(after, added, replaced) == Merged(profiles, incs[..i])
    {
      assert incs[..i + 1][..i] == incs[..i];
      var incoming := incs[i].profile.(forwards := Reidentified(incs[i]));
      var pos := ServerPosition(after, incoming.serverNodeId);
      if pos.Some? {
        var current := after[pos.value];
        var name := UniqueName(incoming.name, TakenNames(after, Some(current.id)));
        incoming := incoming.(id := current.id, authKeyId := current.authKeyId, relayAuthToken := current.relayAuthToken, name := name);
        after := after[pos.value := incoming];
        replaced := replaced + [incoming.id];
      } else {
        var name := UniqueName(incoming.name, TakenNames(after, None));
        incoming := incoming.(id := incs[i].freshId, authKeyId := "", relayAuthToken := None, name := name);
        after := after + [incoming];
        added := added + 1;
      }
    }
    assert incs[..|incs|] == incs;
  }

  // ---- What a merge keeps ----------------------------------------------------------------------

  predicate NoProfile(profiles: seq<Profile>, id: string) {
    forall i :: 0 <= i < |profiles| ==> profiles[i].id != id
  }

  /** The ids drawn are new when they are drawn. */
  predicate FreshFor(profiles: seq<Profile>, inc: Incoming) {
    && NoProfile(profiles, inc.freshId)
    && (forall j :: 0 <= j < |inc.forwardIds| ==> NoForward(profiles, inc.forwardIds[j]))
    && (forall j, k :: 0 <= j < k < |inc.forwardIds| ==> inc.forwardIds[j] != inc.forwardIds[k])
  }

  predicate FreshAlong(profiles: seq<Profile>, incs: seq<Incoming>)
    requires AllWellFormed(incs) && |profiles| + |incs| + 2 <= MAX_COUNTER
  {
    incs == [] ||
    (&& FreshAlong(profiles, incs[..|incs| - 1])
     && FreshFor(Merged(profiles, incs[..|incs| - 1]).profiles, incs[|incs| - 1]))
  }

  lemma ReplaceKeepsOk(profiles: seq<Profile>, pos: nat, q: Profile)
    requires ProfilesOk(profiles) && pos < |profiles| && IsValidName(q.name) && q.id == profiles[pos].id
    requires forall i :: 0 <= i < |profiles| && i != pos ==>
                           profiles[i].name != q.name && profiles[i].serverNodeId != q.serverNodeId
    ensures ProfilesOk(profiles[pos := q])
  {
  }

  lemma AddKeepsOk(profiles: seq<Profile>, q: Profile)
    requires ProfilesOk(profiles) && IsValidName(q.name) && NoProfile(profiles, q.id)
    requires forall i :: 0 <= i < |profiles| ==> profiles[i].name != q.name && profiles[i].serverNodeId != q.serverNodeId
    ensures ProfilesOk(profiles + [q])
  {
  }

  lemma MergedOneOk(profiles: seq<Profile>, inc: Incoming)
    requires WellFormed(inc) && NamesFit(profiles) && ProfilesOk(profiles)
    requires IsValidName(inc.profile.name) && NoProfile(profiles, inc.freshId)
    ensures ProfilesOk(MergedOne(profiles, inc))
  {
    match ServerPosition(profiles, inc.profile.serverNodeId)
    case Some(pos) =>
      var taken := TakenNames(profiles, Some(profiles[pos].id));
      FreeNameIsValid(inc.profile.name, taken);
      forall i | 0 <= i < |profiles| && i != pos ensures profiles[i].name in taken {
        assert profiles[i].id != profiles[pos].id;
        TakenNamesExact(profiles, Some(profiles[pos].id), profiles[i].name);
      }
      ReplaceKeepsOk(profiles, pos, Replacing(profiles, profiles[pos], inc));
    case None =>
      var taken := TakenNames(profiles, None);
      FreeNameIsValid(inc.profile.name, taken);
      forall i | 0 <= i < |profiles| ensures profiles[i].name in taken {
        TakenNamesExact(profiles, None, profiles[i].name);
      }
      AddKeepsOk(profiles, Adding(profiles, inc));
  }

  predicate AllNamed(incs: seq<Incoming>) {
    forall i :: 0 <= i < |incs| ==> IsValidName(incs[i].profile.name)
  }

  /** Merging valid names keeps ids, names and servers apart and names valid. */
  lemma {:induction false} MergedOk(profiles: seq<Profile>, incs: seq<Incoming>)
    requires AllWellFormed(incs) && |profiles| + |incs| + 2 <= MAX_COUNTER && ProfilesOk(profiles)
    requires FreshAlong(profiles, incs) && AllNamed(incs)
    ensures ProfilesOk(Merged(profiles, incs).profiles)
  {
    if incs != [] {
      var shorter := incs[..|incs| - 1];
      MergedOk(profiles, shorter);
      MergedOneOk(Merged(profiles, shorter).profiles, incs[|incs| - 1]);
    }
  }

  /** The identity, key, relay token and server of a profile. */
  predicate SameIdentity(p: Profile, q: Profile) {
    p.id == q.id && p.authKeyId == q.authKeyId && p.relayAuthToken == q.relayAuthToken && p.serverNodeId == q.serverNodeId
  }

  /** Every profile keeps its place, identity, key and token; what is added has neither
      key nor token; a profile whose server is not imported is left as it was. */
  ghost predicate Carries(profiles: seq<Profile>, incs: seq<Incoming>, after: seq<Profile>) {
    && |after| >= |profiles|
    && (forall i :: 0 <= i < |profiles| ==> SameIdentity(profiles[i], after[i]))
    && (forall i :: |profiles| <= i < |after| ==> after[i].authKeyId == "" && after[i].relayAuthToken.None?)
    && (forall i :: |profiles| <= i < |after| ==> Imports(incs, after[i].serverNodeId))
    && (forall i :: 0 <= i < |profiles| && !Imports(incs, profiles[i].serverNodeId) ==> after[i] == profiles[i])
  }

  lemma MergedOneCarries(profiles: seq<Profile>, incs: seq<Incoming>, mid: seq<Profile>, inc: Incoming)
    requires incs != [] && inc == incs[|incs| - 1] && WellFormed(inc) && NamesFit(mid)
    requires Carries(profiles, incs[..|incs| - 1], mid)
    ensures Carries(profiles, incs, MergedOne(mid, inc))
  {
    forall server ensures Imports(incs, server) <==> Imports(incs[..|incs| - 1], server) || inc.profile.serverNodeId == server {
      ImportsStep(incs, server);
    }
    var pos := ServerPosition(mid, inc.profile.serverNodeId);
    if pos.Some? {
      assert SameIdentity(mid[pos.value], Replacing(mid, mid[pos.value], inc));
    }
  }

  lemma {:induction false} MergeKeeps(profiles: seq<Profile>, incs: seq<Incoming>)
    requires AllWellFormed(incs) && |profiles| + |incs| + 2 <= MAX_COUNTER
    ensures Carries(profiles, incs, Merged(profiles, incs).profiles)
  {
    if incs != [] {
      var last := |incs| - 1;
      MergeKeeps(profiles, incs[..last]);
      MergedOneCarries(profiles, incs, Merged(profiles, incs[..last]).profiles, incs[last]);
    }
  }

  predicate Imports(incs: seq<Incoming>, server: string) {
    exists i :: 0 <= i < |incs| && incs[i].profile.serverNodeId == server
  }

  lemma ImportsStep(incs: seq<Incoming>, server: string)
    requires incs != []
    ensures Imports(incs, server) <==>
              Imports(incs[..|incs| - 1], server) || incs[|incs| - 1].profile.serverNodeId == server
  {
    var last := |incs| - 1;
    if Imports(incs[..last], server) {
      var i :| 0 <= i < last && incs[..last][i].profile.serverNodeId == server;
      assert incs[i].profile.serverNodeId == server;
    }
    if Imports(incs, server) && incs[last].profile.serverNodeId != server {
      var i :| 0 <= i < |incs| && incs[i].profile.serverNodeId == server;
      assert incs[..last][i].profile.serverNodeId == server;
    }
  }

  /** The profile has the imported settings, and forwards that differ only in id. */
  predicate HasSettings(p: Profile, inc: Incoming) {
    && p.serverNodeId == inc.profile.serverNodeId && p.relayUrls == inc.profile.relayUrls
    && p.socksPort == inc.profile.socksPort && p.httpPort == inc.profile.httpPort
    && |p.forwards| == |inc.profile.forwards|
    && forall j :: 0 <= j < |p.forwards| ==> p.forwards[j] == inc.profile.forwards[j].(id := p.forwards[j].id)
  }

  predicate Delivered(profiles: seq<Profile>, inc: Incoming) {
    exists i :: 0 <= i < |profiles| && HasSettings(profiles[i], inc)
  }

  lemma MergedOneDelivers(profiles: seq<Profile>, inc: Incoming)
    requires WellFormed(inc) && NamesFit(profiles)
    ensures Delivered(MergedOne(profiles, inc), inc)
  {
    var pos := ServerPosition(profiles, inc.profile.serverNodeId);
    var at := if pos.Some? then pos.value else |profiles|;
    assert HasSettings(MergedOne(profiles, inc)[at], inc);
  }

  lemma DeliveredStays(profiles: seq<Profile>, inc: Incoming, other: Incoming)
    requires WellFormed(other) && NamesFit(profiles) && Delivered(profiles, inc)
    requires inc.profile.serverNodeId != other.profile.serverNodeId
    ensures Delivered(MergedOne(profiles, other), inc)
  {
    var i :| 0 <= i < |profiles| && HasSettings(profiles[i], inc);
    assert HasSettings(MergedOne(profiles, other)[i], inc);
  }

  /** After an import every imported profile's settings and forwards are there. */
  lemma {:induction false} MergeDelivers(profiles: seq<Profile>, incs: seq<Incoming>, k: nat)
    requires AllWellFormed(incs) && |profiles| + |incs| + 2 <= MAX_COUNTER
    requires IncomingServersDiffer(incs) && k < |incs|
    ensures Delivered(Merged(profiles, incs).profiles, incs[k])
    decreases |incs|
  {
    var last := |incs| - 1;
    var before := Merged(profiles, incs[..last]).profiles;
    if k == last {
      MergedOneDelivers(before, incs[last]);
    } else {
      MergeDelivers(profiles, incs[..last], k);
      DeliveredStays(before, incs[k], incs[last]);
    }
  }

  // ---- Forward ids ---------------------------------------------------------------------------------

  /** No two forwards of any profiles share an id. */
  predicate ForwardIdsOk(profiles: seq<Profile>) {
    forall i, j, k, l :: (&& 0 <= i < |profiles| && 0 <= j < |profiles[i].forwards|
                          && 0 <= k < |profiles| && 0 <= l < |profiles[k].forwards|
                          && profiles[i].forwards[j].id == profiles[k].forwards[l].id) ==> i == k && j == l
  }

  predicate NewForwards(profiles: seq<Profile>, forwards: seq<PortForward>) {
    && (forall j :: 0 <= j < |forwards| ==> NoForward(profiles, forwards[j].id))
    && (forall j, k :: 0 <= j < |forwards| && 0 <= k < |forwards| && forwards[j].id == forwards[k].id ==> j == k)
  }

  lemma SetForwardsKeepsIds(profiles: seq<Profile>, pos: nat, q: Profile)
    requires ForwardIdsOk(profiles) && pos < |profiles| && NewForwards(profiles, q.forwards)
    ensures ForwardIdsOk(profiles[pos := q])
  {
  }

  lemma AddForwardsKeepsIds(profiles: seq<Profile>, q: Profile)
    requires ForwardIdsOk(profiles) && NewForwards(profiles, q.forwards)
    ensures ForwardIdsOk(profiles + [q])
  {
  }

  lemma MergedOneIds(profiles: seq<Profile>, inc: Incoming)
    requires WellFormed(inc) && NamesFit(profiles) && ForwardIdsOk(profiles) && FreshFor(profiles, inc)
    ensures ForwardIdsOk(MergedOne(profiles, inc))
  {
    assert NewForwards(profiles, Reidentified(inc));
    match ServerPosition(profiles, inc.profile.serverNodeId)
    case Some(pos) => SetForwardsKeepsIds(profiles, pos, Replacing(profiles, profiles[pos], inc));
    case None => AddForwardsKeepsIds(profiles, Adding(profiles, inc));
  }

  lemma {:induction false} MergedIds(profiles: seq<Profile>, incs: seq<Incoming>)
    requires AllWellFormed(incs) && |profiles| + |incs| + 2 <= MAX_COUNTER
    requires ForwardIdsOk(profiles) && FreshAlong(profiles, incs)
    ensures ForwardIdsOk(Merged(profiles, incs).profiles)
  {
    if incs != [] {
      var shorter := incs[..|incs| - 1];
      MergedIds(profiles, shorter);
      MergedOneIds(Merged(profiles, shorter).profiles, incs[|incs| - 1]);
    }
  }

  // ---- Ports ---------------------------------------------------------------------------------------

  function ProfileUses(p: Profile, port: Port): nat {
    ProfileCount(p, None, None, port)
  }

  /** Uses of the port in the profiles whose server is not imported. */
  function UntouchedUses(profiles: seq<Profile>, incs: seq<Incoming>, port: Port): nat {
    if profiles == [] then 0
    else
      (if Imports(incs, profiles[0].serverNodeId) then 0 else ProfileUses(profiles[0], port))
      + UntouchedUses(profiles[1..], incs, port)
  }

  function ImportedUses(incs: seq<Incoming>, port: Port): nat {
    if incs == [] then 0
    else ImportedUses(incs[..|incs| - 1], port) + ProfileUses(incs[|incs| - 1].profile, port)
  }

  predicate ServersDiffer(profiles: seq<Profile>) {
    forall i, j :: 0 <= i < j < |profiles| ==> profiles[i].serverNodeId != profiles[j].serverNodeId
  }

  predicate IncomingServersDiffer(incs: seq<Incoming>) {
    forall i, j :: 0 <= i < j < |incs| ==> incs[i].profile.serverNodeId != incs[j].profile.serverNodeId
  }

  lemma {:induction false} NothingUntouched(profiles: seq<Profile>, port: Port)
    ensures UntouchedUses(profiles, [], port) == Uses(profiles, port)
  {
    if profiles != [] {
      NothingUntouched(profiles[1..], port);
    }
  }

  /** One more imported server takes away the uses of its profile, if there is one. */
  lemma {:induction false} UntouchedStep(profiles: seq<Profile>, incs: seq<Incoming>, port: Port)
    requires ServersDiffer(profiles) && incs != [] && !Imports(incs[..|incs| - 1], incs[|incs| - 1].profile.serverNodeId)
    ensures var pos := ServerPosition(profiles, incs[|incs| - 1].profile.serverNodeId);
            UntouchedUses(profiles, incs[..|incs| - 1], port)
            == UntouchedUses(profiles, incs, port) + if pos.Some? then ProfileUses(profiles[pos.value], port) else 0
  {
    if profiles != [] {
      UntouchedStep(profiles[1..], incs, port);
      ImportsStep(incs, profiles[0].serverNodeId);
      if profiles[0].serverNodeId == incs[|incs| - 1].profile.serverNodeId {
        var tail := profiles[1..];
        assert forall i :: 0 <= i < |tail| ==> tail[i] == profiles[i + 1];
        assert ServerPosition(tail, profiles[0].serverNodeId).None?;
      }
    }
  }

  lemma {:induction false} ReidentifiedUses(a: seq<PortForward>, b: seq<PortForward>, port: Port)
    requires |a| == |b| && forall i :: 0 <= i < |a| ==> a[i].localPort == b[i].localPort
    ensures ForwardCount(a, None, port) == ForwardCount(b, None, port)
  {
    if a != [] {
      ReidentifiedUses(a[1..], b[1..], port);
    }
  }

  lemma MergedOneUses(profiles: seq<Profile>, inc: Incoming, port: Port)
    requires WellFormed(inc) && NamesFit(profiles)
    ensures var pos := ServerPosition(profiles, inc.profile.serverNodeId);
            Uses(MergedOne(profiles, inc), port) + (if pos.Some? then ProfileUses(profiles[pos.value], port) else 0)
            == Uses(profiles, port) + ProfileUses(inc.profile, port)
  {
    ReidentifiedUses(Reidentified(inc), inc.profile.forwards, port);
    match ServerPosition(profiles, inc.profile.serverNodeId)
    case Some(pos) =>
      CountReplaced(profiles, pos, Replacing(profiles, profiles[pos], inc), None, None, port);
    case None =>
      var q := Adding(profiles, inc);
      CountConcat(profiles, [q], None, None, port);
      assert [q][1..] == [];
  }

  /** The profile a new server's import replaces is still as it was at the start. */
  lemma SamePosition(profiles: seq<Profile>, incs: seq<Incoming>, after: seq<Profile>, server: string)
    requires Carries(profiles, incs, after) && ServersDiffer(profiles) && !Imports(incs, server)
    ensures var pos := ServerPosition(profiles, server);
            && ServerPosition(after, server) == pos
            && (pos.Some? ==> pos.value < |after| && after[pos.value] == profiles[pos.value])
  {
    var pos, now := ServerPosition(profiles, server), ServerPosition(after, server);
    if now.Some? {
      assert now.value < |profiles| && profiles[now.value].serverNodeId == server;
    }
    if pos.Some? {
      assert after[pos.value].serverNodeId == server;
    }
  }

  /** An imported profile keeps its name if no other profile has it, and otherwise gets
      the first numbered one that none has. */
  lemma ImportedName(profiles: seq<Profile>, inc: Incoming) returns (at: nat)
    requires WellFormed(inc) && NamesFit(profiles)
    ensures at < |MergedOne(profiles, inc)| && MergedOne(profiles, inc)[at].serverNodeId == inc.profile.serverNodeId
    ensures var own := if at < |profiles| then Some(profiles[at].id) else None;
            var name, desired := MergedOne(profiles, inc)[at].name, inc.profile.name;
            if !Takes(profiles, own, desired) then name == desired
            else exists n :: 2 <= n <= MAX_COUNTER && name == Candidate(desired, n) && !Takes(profiles, own, name)
                             && forall m :: 2 <= m < n ==> Takes(profiles, own, Candidate(desired, m))
  {
    var pos := ServerPosition(profiles, inc.profile.serverNodeId);
    at := if pos.Some? then pos.value else |profiles|;
    var own := if at < |profiles| then Some(profiles[at].id) else None;
    NamedFreely(profiles, own, inc.profile.name);
  }

  lemma NamedFreely(profiles: seq<Profile>, own: Option<string>, desired: string)
    requires NamesFit(profiles)
    ensures var name := FreeName(desired, TakenNames(profiles, own));
            if !Takes(profiles, own, desired) then name == desired
            else exists n :: 2 <= n <= MAX_COUNTER && name == Candidate(desired, n) && !Takes(profiles, own, name)
                             && forall m :: 2 <= m < n ==> Takes(profiles, own, Candidate(desired, m))
  {
    var taken := TakenNames(profiles, own);
    forall name ensures name in taken <==> Takes(profiles, own, name) {
      TakenNamesExact(profiles, own, name);
    }
    if Takes(profiles, own, desired) {
      var n := FirstFree(desired, taken, 2);
      assert FreeName(desired, taken) == Candidate(desired, n);
    }
  }

  /** A current profile of one of the imported servers has this id. */
  predicate Replaces(profiles: seq<Profile>, incs: seq<Incoming>, id: string) {
    exists i :: 0 <= i < |profiles| && profiles[i].id == id && Imports(incs, profiles[i].serverNodeId)
  }

  lemma ReplacesStep(profiles: seq<Profile>, incs: seq<Incoming>, id: string)
    requires incs != []
    ensures Replaces(profiles, incs, id) <==>
              || Replaces(profiles, incs[..|incs| - 1], id)
              || exists i :: 0 <= i < |profiles| && profiles[i].id == id && profiles[i].serverNodeId == incs[|incs| - 1].profile.serverNodeId
  {
    forall i | 0 <= i < |profiles| && profiles[i].id == id
      ensures Imports(incs, profiles[i].serverNodeId) <==>
                Imports(incs[..|incs| - 1], profiles[i].serverNodeId)
                || profiles[i].serverNodeId == incs[|incs| - 1].profile.serverNodeId
    {
      ImportsStep(incs, profiles[i].serverNodeId);
    }
  }

  lemma ReplacedStep(profiles: seq<Profile>, incs: seq<Incoming>)
    requires AllWellFormed(incs) && |profiles| + |incs| + 2 <= MAX_COUNTER && incs != []
    ensures var m := Merged(profiles, incs[..|incs| - 1]);
            var pos := ServerPosition(m.profiles, incs[|incs| - 1].profile.serverNodeId);
            Merged(profiles, incs).replaced == if pos.Some? then m.replaced + [m.profiles[pos.value].id] else m.replaced
  {
  }

  /** A new server's import adds to the list exactly the id of its current profile. */
  lemma ReplacedAtServer(profiles: seq<Profile>, incs: seq<Incoming>)
    requires AllWellFormed(incs) && |profiles| + |incs| + 2 <= MAX_COUNTER && incs != []
    requires ServersDiffer(profiles) && IncomingServersDiffer(incs)
    ensures var pos := ServerPosition(profiles, incs[|incs| - 1].profile.serverNodeId);
            Merged(profiles, incs).replaced
            == Merged(profiles, incs[..|incs| - 1]).replaced + if pos.Some? then [profiles[pos.value].id] else []
  {
    var shorter, server := incs[..|incs| - 1], incs[|incs| - 1].profile.serverNodeId;
    assert !Imports(shorter, server);
    MergeKeeps(profiles, shorter);
    SamePosition(profiles, shorter, Merged(profiles, shorter).profiles, server);
    ReplacedStep(profiles, incs);
    assert Merged(profiles, shorter).replaced + [] == Merged(profiles, shorter).replaced;
  }

  lemma AtServer(profiles: seq<Profile>, server: string, id: string)
    requires ServersDiffer(profiles)
    ensures (exists i :: 0 <= i < |profiles| && profiles[i].id == id && profiles[i].serverNodeId == server)
            <==> ServerPosition(profiles, server).Some? && profiles[ServerPosition(profiles, server).value].id == id
  {
  }

  /** The ids listed as replaced are those of the current profiles whose server is
      imported, and there are as many as imported profiles not added. */
  lemma {:induction false} ReplacedExact(profiles: seq<Profile>, incs: seq<Incoming>, id: string)
    requires AllWellFormed(incs) && |profiles| + |incs| + 2 <= MAX_COUNTER
    requires ServersDiffer(profiles) && IncomingServersDiffer(incs)
    ensures id in Merged(profiles, incs).replaced <==> Replaces(profiles, incs, id)
  {
    if incs != [] {
      ReplacedExact(profiles, incs[..|incs| - 1], id);
      ReplacedAtServer(profiles, incs);
      AtServer(profiles, incs[|incs| - 1].profile.serverNodeId, id);
      ReplacesStep(profiles, incs, id);
    }
  }

  /** A port is used after the merge as often as in the profiles left alone plus the
      imported ones. */
  lemma {:induction false} MergeConservesPorts(profiles: seq<Profile>, incs: seq<Incoming>, port: Port)
    requires AllWellFormed(incs) && |profiles| + |incs| + 2 <= MAX_COUNTER
    requires ServersDiffer(profiles) && IncomingServersDiffer(incs)
    ensures Uses(Merged(profiles, incs).profiles, port) == UntouchedUses(profiles, incs, port) + ImportedUses(incs, port)
  {
    if incs == [] {
      NothingUntouched(profiles, port);
    } else {
      var shorter, inc := incs[..|incs| - 1], incs[|incs| - 1];
      MergeConservesPorts(profiles, shorter, port);
      assert !Imports(shorter, inc.profile.serverNodeId);
      MergeKeeps(profiles, shorter);
      SamePosition(profiles, shorter, Merged(profiles, shorter).profiles, inc.profile.serverNodeId);
      MergedOneUses(Merged(profiles, shorter).profiles, inc, port);
      UntouchedStep(profiles, incs, port);
    }
  }

  /** No port is used twice among the imported profiles and those they do not replace. */
  ghost predicate ImportFits(profiles: seq<Profile>, incs: seq<Incoming>) {
    forall port: Port :: UntouchedUses(profiles, incs, port) + ImportedUses(incs, port) <= 1
  }

  /** The merge itself looks at no port: an import keeps them apart exactly if it fits. */
  lemma ImportKeepsPortsExactly(profiles: seq<Profile>, incs: seq<Incoming>, after: seq<Profile>)
    requires AllWellFormed(incs) && |profiles| + |incs| + 2 <= MAX_COUNTER
    requires ServersDiffer(profiles) && IncomingServersDiffer(incs) && after == Merged(profiles, incs).profiles
    ensures PortsOk(after) <==> ImportFits(profiles, incs)
  {
    if PortsOk(after) {
      forall port: Port ensures UntouchedUses(profiles, incs, port) + ImportedUses(incs, port) <= 1 {
        MergeConservesPorts(profiles, incs, port);
        assert Uses(after, port) <= 1;
      }
    }
    if ImportFits(profiles, incs) {
      forall port: Port ensures Uses(after, port) <= 1 {
        MergeConservesPorts(profiles, incs, port);
      }
    }
  }

  /** Two profiles for different servers with one SOCKS port: importing the second
      beside the first leaves the port configured twice. */
  lemma ImportCanClash(p: Profile, inc: Incoming, port: Port)
    requires p.socksPort == inc.profile.socksPort == Some(port) && p.serverNodeId != inc.profile.serverNodeId
    requires WellFormed(inc)
    ensures Uses(Merged([p], [inc]).profiles, port) >= 2
  {
    MergeConservesPorts([p], [inc], port);
    assert [p][1..] == [] && [inc][..0] == [];
  }
}
