/** What the store's file holds in the clear, field by field: no secret, and everything
    else as it was but for the forward switches. */
module StoreSecrets {
  import opened Options
  import opened Records
  import opened StoreFilters
  import opened DesktopStore
  import opened StoreFile

  /** The same forward, switched off. */
  predicate SwitchedOff(f: PortForward, g: PortForward) {
    g == PortForward(f.id, f.displayLabel, f.localPort, f.remoteHost, f.remotePort, false)
  }

  predicate AllOff(forwards: seq<PortForward>, after: seq<PortForward>) {
    |after| == |forwards| && forall j :: 0 <= j < |forwards| ==> SwitchedOff(forwards[j], after[j])
  }

  /** The same profile with this token and its forwards off. */
  predicate ProfileWith(p: Profile, token: Option<string>, q: Profile) {
    && q == Profile(p.id, p.name, p.serverNodeId, p.authKeyId, p.socksPort, p.httpPort, p.relayUrls, token, q.forwards)
    && AllOff(p.forwards, q.forwards)
  }

  /** The same server with these secrets. */
  predicate ServerWith(s: ServerConfig, secret: string, token: Option<string>, t: ServerConfig) {
    t == ServerConfig(s.endpointId, secret, s.authorizedClients, s.routedDomains, s.routedCidrs, s.relayUrls, token, s.enabled)
  }

  predicate InTheClear(s: Store, file: File) {
    && |file.keys| == |s.keys| && |file.profiles| == |s.profiles| && (file.server.Some? <==> s.server.Some?)
    && (forall i :: 0 <= i < |s.keys| ==>
          file.keys[i] == AuthKey(s.keys[i].id, s.keys[i].name, s.keys[i].publicKey, ""))
    && (forall i :: 0 <= i < |s.profiles| ==> ProfileWith(s.profiles[i], None, file.profiles[i]))
    && (s.server.Some? ==> ServerWith(s.server.value, "", None, file.server.value))
  }

  /** Every saved file holds the records without a secret. */
  lemma FileHoldsNoSecret(keychain: Option<Cipher>, s: Store, loginItemSetUp: bool)
    requires Saved(keychain, s, loginItemSetUp).Ok?
    ensures InTheClear(s, Saved(keychain, s, loginItemSetUp).value)
    ensures Saved(keychain, s, loginItemSetUp).value.loginItemSetUp == loginItemSetUp
  {
    forall i | 0 <= i < |s.profiles| ensures ProfileWith(s.profiles[i], None, ClearProfiles(s.profiles)[i]) {
      assert AllOff(s.profiles[i].forwards, Off(s.profiles[i].forwards));
    }
  }

  /** Nothing but secrets differs. */
  predicate SameButSecrets(s: Store, t: Store) {
    && |s.keys| == |t.keys| && |s.profiles| == |t.profiles| && (s.server.Some? <==> t.server.Some?)
    && (forall i :: 0 <= i < |s.keys| ==> t.keys[i] == s.keys[i].(secret := t.keys[i].secret))
    && (forall i :: 0 <= i < |s.profiles| ==>
          t.profiles[i] == s.profiles[i].(relayAuthToken := t.profiles[i].relayAuthToken))
    && (s.server.Some? ==>
          t.server.value == s.server.value.(secret := t.server.value.secret, relayAuthToken := t.server.value.relayAuthToken))
  }

  /** Two stores that differ only in secrets save to files that differ only in the sealed
      text: the rest of the file tells nothing of a secret. */
  lemma OnlySealedDiffers(a: Option<Cipher>, b: Option<Cipher>, s: Store, t: Store, loginItemSetUp: bool)
    requires SameButSecrets(s, t) && Saved(a, s, loginItemSetUp).Ok? && Saved(b, t, loginItemSetUp).Ok?
    ensures var f, g := Saved(a, s, loginItemSetUp).value, Saved(b, t, loginItemSetUp).value; g == f.(sealed := g.sealed)
  {
    assert ClearKeys(s.keys) == ClearKeys(t.keys);
    assert ClearProfiles(s.profiles) == ClearProfiles(t.profiles);
  }

  /** The sealed text is empty if there is no secret at all, and otherwise the sealing of
      a map that holds every secret under its id and nothing else. */
  lemma SealedHoldsSecrets(keychain: Option<Cipher>, s: Store, loginItemSetUp: bool)
    ensures Saved(keychain, s, loginItemSetUp).Err? <==> keychain.None? && exists e :: e in SecretEntries(s) && e.1 != ""
    ensures Saved(keychain, s, loginItemSetUp).Ok? ==>
              var sealed := Saved(keychain, s, loginItemSetUp).value.sealed;
              if forall e :: e in SecretEntries(s) ==> e.1 == "" then sealed == ""
              else keychain.Some? && exists m :: sealed == keychain.value.seal(m) && HoldsExactly(m, SecretEntries(s))
  {
    var entries := SecretEntries(s);
    SecretMapExact(entries);
    if !NoSecrets(entries) {
      var i :| 0 <= i < |entries| && entries[i].1 != "";
      assert entries[i] in entries;
      assert HoldsExactly(SecretMap(entries), entries);
    }
  }

  /** The map's pairs are among the entries, and every entry with a secret has its id there. */
  predicate HoldsExactly(m: Secrets, entries: seq<Entry>) {
    && (forall id :: id in m ==> m[id] != "" && (id, m[id]) in entries)
    && (forall e :: e in entries && e.1 != "" ==> e.0 in m)
  }

  /** The entries, by what they are: the keys' secrets under their ids, the profiles' and
      the server's under reserved ids. */
  lemma EntriesExact(s: Store, e: Entry)
    ensures e in SecretEntries(s) <==>
              || (exists i :: 0 <= i < |s.keys| && e == (s.keys[i].id, s.keys[i].secret))
              || (exists i :: 0 <= i < |s.profiles| &&
                    e == ("relay:" + s.profiles[i].id, OrNone(s.profiles[i].relayAuthToken)))
              || (s.server.Some? && e == ("server", s.server.value.secret))
              || (s.server.Some? && e == ("server-relay", OrNone(s.server.value.relayAuthToken)))
  {
    var ks, ps, ss := KeyEntries(s.keys), ProfileEntries(s.profiles), ServerEntries(s.server);
    assert e in SecretEntries(s) <==> e in ks || e in ps || e in ss;
    forall i | 0 <= i < |s.keys| && e == (s.keys[i].id, s.keys[i].secret) ensures e in ks {
      assert ks[i] == e;
    }
    forall i | 0 <= i < |s.profiles| && e == ("relay:" + s.profiles[i].id, OrNone(s.profiles[i].relayAuthToken))
      ensures e in ps
    {
      assert ps[i] == e;
    }
  }

  function OrNone(token: Option<string>): string {
    match token case None => "" case Some(t) => t
  }

  /** What a save and a load give back, field by field. */
  lemma SettledExact(s: Store)
    ensures var t := Settled(s);
            && t.keys == s.keys && |t.profiles| == |s.profiles| && (t.server.Some? <==> s.server.Some?)
            && (forall i :: 0 <= i < |s.profiles| ==>
                  ProfileWith(s.profiles[i], NonEmpty(s.profiles[i].relayAuthToken), t.profiles[i]))
            && (s.server.Some? ==>
                  ServerWith(s.server.value, s.server.value.secret, NonEmpty(s.server.value.relayAuthToken), t.server.value))
  {
    forall i | 0 <= i < |s.profiles|
      ensures ProfileWith(s.profiles[i], NonEmpty(s.profiles[i].relayAuthToken), Settled(s).profiles[i])
    {
      assert AllOff(s.profiles[i].forwards, Off(s.profiles[i].forwards));
    }
  }

  /** A token that is there and not empty. */
  function NonEmpty(token: Option<string>): Option<string> {
    match token case None => None case Some(t) => if |t| > 0 then token else None
  }

  /** The ids no key may have are exactly those of the other secrets. */
  lemma ReservedIffClashes(id: string)
    ensures IsReservedSecretId(id) <==>
              id == "server" || id == "server-relay" || exists profileId :: id == "relay:" + profileId
  {
    if PROFILE_RELAY_PREFIX <= id {
      assert id == "relay:" + id[|PROFILE_RELAY_PREFIX|..];
    }
  }
}
