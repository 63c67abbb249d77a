/** The local ports of all profiles share one namespace. */
module Ports {
  import opened Options
  import opened Records

  const DEFAULT_SOCKS_PORT: Port := 1080
  const MAX_PORT: Port := 0xffff

  // ---- Who holds a port ---------------------------------------------------------------------

  datatype Owner = SocksPort(profile: string) | HttpPort(profile: string) | ForwardPort(forward: string, profile: string)

  function ForwardOwner(forwards: seq<PortForward>, port: Port, exclude: Option<string>): Option<string> {
    if forwards == [] then None
    else if Some(forwards[0].id) != exclude && forwards[0].localPort == port then Some(forwards[0].id)
    else ForwardOwner(forwards[1..], port, exclude)
  }

  function OwnerIn(p: Profile, port: Port, excludeProfile: Option<string>, excludeForward: Option<string>): Option<Owner> {
    if Some(p.id) != excludeProfile && p.socksPort == Some(port) then Some(SocksPort(p.name))
    else if Some(p.id) != excludeProfile && p.httpPort == Some(port) then Some(HttpPort(p.name))
    else
      match ForwardOwner(p.forwards, port, excludeForward)
      case Some(id) => Some(ForwardPort(id, p.name))
      case None => None
  }

  /** The first holder, leaving out one profile's proxies or one forward. */
  function PortOwner(profiles: seq<Profile>, port: Port, excludeProfile: Option<string>, excludeForward: Option<string>)
    : Option<Owner>
  {
    if profiles == [] then None
    else
      var owner := OwnerIn(profiles[0], port, excludeProfile, excludeForward);
      if owner.Some? then owner else PortOwner(profiles[1..], port, excludeProfile, excludeForward)
  }

  // ---- How often a port is configured ---------------------------------------------------------

  function ForwardCount(forwards: seq<PortForward>, exclude: Option<string>, port: Port): nat {
    if forwards == [] then 0
    else
      (if Some(forwards[0].id) != exclude && forwards[0].localPort == port then 1 else 0)
      + ForwardCount(forwards[1..], exclude, port)
  }

  function ProxyCount(p: Profile, port: Port): nat {
    (if p.socksPort == Some(port) then 1 else 0) + (if p.httpPort == Some(port) then 1 else 0)
  }

  function ProfileCount(p: Profile, excludeProfile: Option<string>, excludeForward: Option<string>, port: Port): nat {
    (if Some(p.id) != excludeProfile then ProxyCount(p, port) else 0) + ForwardCount(p.forwards, excludeForward, port)
  }

  function Count(profiles: seq<Profile>, excludeProfile: Option<string>, excludeForward: Option<string>, port: Port): nat {
    if profiles == [] then 0
    else
      ProfileCount(profiles[0], excludeProfile, excludeForward, port)
      + Count(profiles[1..], excludeProfile, excludeForward, port)
  }

  /** How often the port is configured in all. */
  function Uses(profiles: seq<Profile>, port: Port): nat {
    Count(profiles, None, None, port)
  }

  /** No local port is configured twice. */
  ghost predicate PortsOk(profiles: seq<Profile>) {
    forall port: Port :: Uses(profiles, port) <= 1
  }

  lemma {:induction false} ForwardOwnerExact(forwards: seq<PortForward>, port: Port, exclude: Option<string>)
    ensures ForwardOwner(forwards, port, exclude).None? <==> ForwardCount(forwards, exclude, port) == 0
  {
    if forwards != [] {
      ForwardOwnerExact(forwards[1..], port, exclude);
    }
  }

  /** A port has no owner exactly when nothing considered is configured with it. */
  lemma {:induction false} OwnerExact(
      profiles: seq<Profile>, port: Port, excludeProfile: Option<string>, excludeForward: Option<string>)
    ensures PortOwner(profiles, port, excludeProfile, excludeForward).None?
            <==> Count(profiles, excludeProfile, excludeForward, port) == 0
  {
    if profiles != [] {
      ForwardOwnerExact(profiles[0].forwards, port, excludeForward);
      OwnerExact(profiles[1..], port, excludeProfile, excludeForward);
    }
  }

  /** This is a way the profile holds the port. */
  predicate Holds(p: Profile, port: Port, excludeProfile: Option<string>, excludeForward: Option<string>, owner: Owner) {
    match owner
    case SocksPort(name) => name == p.name && p.socksPort == Some(port) && excludeProfile != Some(p.id)
    case HttpPort(name) => name == p.name && p.httpPort == Some(port) && excludeProfile != Some(p.id)
    case ForwardPort(id, name) =>
      name == p.name && excludeForward != Some(id) && exists f :: f in p.forwards && f.id == id && f.localPort == port
  }

  lemma {:induction false} ForwardOwnerHolds(forwards: seq<PortForward>, port: Port, exclude: Option<string>)
    requires ForwardOwner(forwards, port, exclude).Some?
    ensures var id := ForwardOwner(forwards, port, exclude).value;
            exclude != Some(id) && exists f :: f in forwards && f.id == id && f.localPort == port
  {
    if Some(forwards[0].id) != exclude && forwards[0].localPort == port {
      assert forwards[0] in forwards;
    } else {
      ForwardOwnerHolds(forwards[1..], port, exclude);
      var f :| f in forwards[1..] && f.id == ForwardOwner(forwards, port, exclude).value && f.localPort == port;
      assert f in forwards;
    }
  }

  /** The owner named is one: the first profile that holds the port does so that way. */
  lemma {:induction false} OwnerHolds(
      profiles: seq<Profile>, port: Port, excludeProfile: Option<string>, excludeForward: Option<string>) returns (i: nat)
    requires PortOwner(profiles, port, excludeProfile, excludeForward).Some?
    ensures i < |profiles| && Count(profiles[..i], excludeProfile, excludeForward, port) == 0
    ensures Holds(profiles[i], port, excludeProfile, excludeForward,
                  PortOwner(profiles, port, excludeProfile, excludeForward).value)
  {
    var owner := OwnerIn(profiles[0], port, excludeProfile, excludeForward);
    if owner.Some? {
      i := 0;
      if owner.value.ForwardPort? {
        ForwardOwnerHolds(profiles[0].forwards, port, excludeForward);
      }
    } else {
      var k := OwnerHolds(profiles[1..], port, excludeProfile, excludeForward);
      i := k + 1;
      ForwardOwnerExact(profiles[0].forwards, port, excludeForward);
      assert profiles[..i][1..] == profiles[1..][..k];
    }
  }

  // ---- Counts in edited lists --------------------------------------------------------------------

  lemma {:induction false} CountConcat(a: seq<Profile>, b: seq<Profile>, ep: Option<string>, ef: Option<string>, port: Port)
    ensures Count(a + b, ep, ef, port) == Count(a, ep, ef, port) + Count(b, ep, ef, port)
  {
    if a == [] {
      assert a + b == b;
    } else {
      CountConcat(a[1..], b, ep, ef, port);
      assert (a + b)[1..] == a[1..] + b;
    }
  }

  lemma CountAt(profiles: seq<Profile>, pos: nat, q: Profile, ep: Option<string>, ef: Option<string>, port: Port)
    requires pos < |profiles|
    ensures Count(profiles[pos := q], ep, ef, port)
            == Count(profiles[..pos], ep, ef, port) + ProfileCount(q, ep, ef, port) + Count(profiles[pos + 1..], ep, ef, port)
  {
    var a, b := profiles[..pos], profiles[pos + 1..];
    assert profiles[pos := q] == a + ([q] + b);
    CountConcat(a, [q] + b, ep, ef, port);
    assert ([q] + b)[1..] == b;
  }

  /** Replacing one profile changes a count by what the two profiles count. */
  lemma CountReplaced(profiles: seq<Profile>, pos: nat, q: Profile, ep: Option<string>, ef: Option<string>, port: Port)
    requires pos < |profiles|
    ensures Count(profiles[pos := q], ep, ef, port) + ProfileCount(profiles[pos], ep, ef, port)
            == Count(profiles, ep, ef, port) + ProfileCount(q, ep, ef, port)
  {
    CountAt(profiles, pos, q, ep, ef, port);
    CountAt(profiles, pos, profiles[pos], ep, ef, port);
    assert profiles[pos := profiles[pos]] == profiles;
  }

  /** Leaving out a profile's proxies, or a forward, that is not there. */
  lemma {:induction false} AbsentProfile(profiles: seq<Profile>, id: string, ef: Option<string>, port: Port)
    requires forall i :: 0 <= i < |profiles| ==> profiles[i].id != id
    ensures Count(profiles, Some(id), ef, port) == Count(profiles, None, ef, port)
  {
    if profiles != [] {
      AbsentProfile(profiles[1..], id, ef, port);
    }
  }

  lemma {:induction false} AbsentForward(forwards: seq<PortForward>, id: string, port: Port)
    requires forall i :: 0 <= i < |forwards| ==> forwards[i].id != id
    ensures ForwardCount(forwards, Some(id), port) == ForwardCount(forwards, None, port)
  {
    if forwards != [] {
      AbsentForward(forwards[1..], id, port);
    }
  }

  predicate NoForward(profiles: seq<Profile>, id: string) {
    forall i, j :: 0 <= i < |profiles| && 0 <= j < |profiles[i].forwards| ==> profiles[i].forwards[j].id != id
  }

  lemma {:induction false} AbsentEverywhere(profiles: seq<Profile>, id: string, port: Port)
    requires NoForward(profiles, id)
    ensures Count(profiles, None, Some(id), port) == Count(profiles, None, None, port)
  {
    if profiles != [] {
      AbsentForward(profiles[0].forwards, id, port);
      AbsentEverywhere(profiles[1..], id, port);
    }
  }

  lemma {:induction false} ForwardCountConcat(a: seq<PortForward>, b: seq<PortForward>, exclude: Option<string>, port: Port)
    ensures ForwardCount(a + b, exclude, port) == ForwardCount(a, exclude, port) + ForwardCount(b, exclude, port)
  {
    if a == [] {
      assert a + b == b;
    } else {
      ForwardCountConcat(a[1..], b, exclude, port);
      assert (a + b)[1..] == a[1..] + b;
    }
  }

  // ---- Saving a profile --------------------------------------------------------------------------

  /** The profile form's own checks: the proxy ports are free and differ. */
  predicate ProxiesFit(profiles: seq<Profile>, q: Profile, editing: Option<string>) {
    && (q.socksPort.Some? ==> PortOwner(profiles, q.socksPort.value, editing, None).None?)
    && (q.httpPort.Some? ==> PortOwner(profiles, q.httpPort.value, editing, None).None? && q.httpPort != q.socksPort)
  }

  lemma FittingProxies(profiles: seq<Profile>, q: Profile, editing: Option<string>, port: Port)
    requires ProxiesFit(profiles, q, editing) && Count(profiles, editing, None, port) <= 1
    ensures Count(profiles, editing, None, port) + ProxyCount(q, port) <= 1
  {
    OwnerExact(profiles, port, editing, None);
  }

  predicate SoleProfile(profiles: seq<Profile>, pos: nat, id: string) {
    pos < |profiles| && forall i :: 0 <= i < |profiles| ==> (profiles[i].id == id <==> i == pos)
  }

  lemma WithoutProxies(profiles: seq<Profile>, pos: nat, id: string, port: Port)
    requires SoleProfile(profiles, pos, id)
    ensures Uses(profiles, port) == Count(profiles, Some(id), None, port) + ProxyCount(profiles[pos], port)
  {
    var p := profiles[pos];
    CountAt(profiles, pos, p, None, None, port);
    CountAt(profiles, pos, p, Some(id), None, port);
    assert profiles[pos := p] == profiles;
    AbsentProfile(profiles[..pos], id, None, port);
    AbsentProfile(profiles[pos + 1..], id, None, port);
  }

  /** Replacing a profile's settings but not its forwards. */
  lemma EditKeepsPorts(profiles: seq<Profile>, pos: nat, q: Profile)
    requires PortsOk(profiles) && SoleProfile(profiles, pos, q.id) && q.forwards == profiles[pos].forwards
    requires ProxiesFit(profiles, q, Some(q.id))
    ensures PortsOk(profiles[pos := q])
  {
    var after := profiles[pos := q];
    forall port: Port ensures Uses(after, port) <= 1 {
      assert Uses(profiles, port) <= 1;
      WithoutProxies(profiles, pos, q.id, port);
      CountReplaced(profiles, pos, q, None, None, port);
      FittingProxies(profiles, q, Some(q.id), port);
    }
  }

  lemma AddKeepsPorts(profiles: seq<Profile>, q: Profile, editing: Option<string>)
    requires PortsOk(profiles) && q.forwards == [] && ProxiesFit(profiles, q, editing)
    requires editing.Some? ==> forall i :: 0 <= i < |profiles| ==> profiles[i].id != editing.value
    ensures PortsOk(profiles + [q])
  {
    forall port: Port ensures Uses(profiles + [q], port) <= 1 {
      assert Uses(profiles, port) <= 1;
      if editing.Some? {
        AbsentProfile(profiles, editing.value, None, port);
      }
      CountConcat(profiles, [q], None, None, port);
      FittingProxies(profiles, q, editing, port);
      assert [q][1..] == [];
    }
  }

  // ---- Saving a forward ----------------------------------------------------------------------------

  /** No other forward of any profile has the id. */
  predicate OnlyAt(profiles: seq<Profile>, pos: nat, k: nat, id: string) {
    && pos < |profiles| && k < |profiles[pos].forwards|
    && forall i, j :: 0 <= i < |profiles| && 0 <= j < |profiles[i].forwards| ==>
                        (profiles[i].forwards[j].id == id <==> i == pos && j == k)
  }

  lemma ForwardReplaced(forwards: seq<PortForward>, k: nat, f: PortForward, port: Port)
    requires k < |forwards| && forall j :: 0 <= j < |forwards| ==> (forwards[j].id == f.id <==> j == k)
    ensures ForwardCount(forwards[k := f], None, port)
            == ForwardCount(forwards, Some(f.id), port) + (if f.localPort == port then 1 else 0)
  {
    var a, b := forwards[..k], forwards[k + 1..];
    assert forwards == a + ([forwards[k]] + b);
    assert forwards[k := f] == a + ([f] + b);
    AbsentForward(a, f.id, port);
    AbsentForward(b, f.id, port);
    ForwardCountConcat(a, [forwards[k]] + b, Some(f.id), port);
    ForwardCountConcat(a, [f] + b, None, port);
    assert ([forwards[k]] + b)[1..] == b && ([f] + b)[1..] == b;
  }

  function WithForward(profiles: seq<Profile>, pos: nat, forwards: seq<PortForward>): seq<Profile>
    requires pos < |profiles|
  {
    profiles[pos := profiles[pos].(forwards := forwards)]
  }

  lemma WithoutForward(profiles: seq<Profile>, pos: nat, k: nat, f: PortForward, port: Port)
    requires OnlyAt(profiles, pos, k, f.id)
    ensures Uses(WithForward(profiles, pos, profiles[pos].forwards[k := f]), port)
            == Count(profiles, None, Some(f.id), port) + (if f.localPort == port then 1 else 0)
  {
    var p := profiles[pos];
    var q := p.(forwards := p.forwards[k := f]);
    CountAt(profiles, pos, p, None, Some(f.id), port);
    CountAt(profiles, pos, q, None, None, port);
    assert profiles[pos := p] == profiles;
    AbsentEverywhere(profiles[..pos], f.id, port);
    AbsentEverywhere(profiles[pos + 1..], f.id, port);
    ForwardReplaced(p.forwards, k, f, port);
  }

  lemma ForwardSame(profiles: seq<Profile>, pos: nat, k: nat)
    requires pos < |profiles| && k < |profiles[pos].forwards|
    ensures WithForward(profiles, pos, profiles[pos].forwards[k := profiles[pos].forwards[k]]) == profiles
  {
    assert profiles[pos].forwards[k := profiles[pos].forwards[k]] == profiles[pos].forwards;
  }

  lemma ForwardEditKeepsPorts(profiles: seq<Profile>, pos: nat, k: nat, f: PortForward)
    requires PortsOk(profiles) && OnlyAt(profiles, pos, k, f.id)
    requires PortOwner(profiles, f.localPort, None, Some(f.id)).None?
    ensures PortsOk(WithForward(profiles, pos, profiles[pos].forwards[k := f]))
  {
    var after := WithForward(profiles, pos, profiles[pos].forwards[k := f]);
    forall port: Port ensures Uses(after, port) <= 1 {
      assert Uses(profiles, port) <= 1;
      ForwardSame(profiles, pos, k);
      WithoutForward(profiles, pos, k, profiles[pos].forwards[k], port);
      WithoutForward(profiles, pos, k, f, port);
      OwnerExact(profiles, f.localPort, None, Some(f.id));
    }
  }

  lemma ForwardAddKeepsPorts(profiles: seq<Profile>, pos: nat, f: PortForward, editing: Option<string>)
    requires PortsOk(profiles) && pos < |profiles| && (editing.Some? ==> NoForward(profiles, editing.value))
    requires PortOwner(profiles, f.localPort, None, editing).None?
    ensures PortsOk(WithForward(profiles, pos, profiles[pos].forwards + [f]))
  {
    var p := profiles[pos];
    var q := p.(forwards := p.forwards + [f]);
    var after := profiles[pos := q];
    forall port: Port ensures Uses(after, port) <= 1 {
      assert Uses(profiles, port) <= 1;
      CountReplaced(profiles, pos, q, None, None, port);
      ForwardCountConcat(p.forwards, [f], None, port);
      assert [f][1..] == [];
      OwnerExact(profiles, f.localPort, None, editing);
      if editing.Some? {
        AbsentEverywhere(profiles, editing.value, f.localPort);
      }
    }
  }

  // ---- Suggesting a port -----------------------------------------------------------------------------

  /** The least free port from the default up, or the last port if there is none. */
  method NextFreePort(profiles: seq<Profile>) returns (port: Port)
    ensures DEFAULT_SOCKS_PORT <= port
    ensures Uses(profiles, port) > 0 ==> port == MAX_PORT
    ensures forall p: Port :: DEFAULT_SOCKS_PORT <= p < port ==> Uses(profiles, p) > 0
  {
    port := DEFAULT_SOCKS_PORT;
    OwnerExact(profiles, port, None, None);
    while PortOwner(profiles, port, None, None).Some? && port < MAX_PORT
      invariant DEFAULT_SOCKS_PORT <= port
      invariant PortOwner(profiles, port, None, None).None? <==> Uses(profiles, port) == 0
      invariant forall p: Port :: DEFAULT_SOCKS_PORT <= p < port ==> Uses(profiles, p) > 0
      decreases MAX_PORT - port
    {
      port := port + 1;
      OwnerExact(profiles, port, None, None);
    }
  }
}
