/** The load-time filters that drop malformed and duplicate records, keeping first
    occurrences. */
module StoreFilters {
  import opened Options
  import opened Records
  import opened Names

  // ---- Scanning with a memory ----------------------------------------------------------------

  /** A field value remembered by a filter; one set of marks stands for the filter's
      hash sets. */
  datatype Mark = IdMark(text: string) | NameMark(text: string) | ServerMark(text: string) | PublicMark(text: string)

  type Step<!T> = (set<Mark>, T) -> (set<Mark>, bool)

  function Scan<T>(step: Step<T>, xs: seq<T>): (set<Mark>, seq<T>) {
    if xs == [] then ({}, [])
    else
      var (seen, kept) := Scan(step, xs[..|xs| - 1]);
      var (after, keep) := step(seen, xs[|xs| - 1]);
      (after, if keep then kept + [xs[|xs| - 1]] else kept)
  }

  /** The step keeps exactly the good records none of whose marks was seen, and
      remembers at least the marks of what it keeps. */
  ghost predicate Lawful<T(!new)>(step: Step<T>, marks: T -> set<Mark>, good: T -> bool) {
    forall seen, x {:trigger step(seen, x)} ::
      var (after, keep) := step(seen, x);
      && (keep <==> good(x) && marks(x) !! seen)
      && seen <= after <= seen + marks(x)
      && (keep ==> after == seen + marks(x))
  }

  /** All good, and no two share a mark. */
  ghost predicate Sound<T>(marks: T -> set<Mark>, good: T -> bool, xs: seq<T>) {
    && (forall i :: 0 <= i < |xs| ==> good(xs[i]))
    && (forall i, j :: 0 <= i < j < |xs| ==> marks(xs[i]) !! marks(xs[j]))
  }

  lemma {:induction false} ScanSound<T(!new)>(step: Step<T>, marks: T -> set<Mark>, good: T -> bool, xs: seq<T>)
    requires Lawful(step, marks, good)
    ensures var (seen, kept) := Scan(step, xs);
            && Sound(marks, good, kept) && |kept| <= |xs| && multiset(kept) <= multiset(xs)
            && (forall i :: 0 <= i < |kept| ==> marks(kept[i]) <= seen)
  {
    if xs != [] {
      ScanSound(step, marks, good, xs[..|xs| - 1]);
      var (seen, kept) := Scan(step, xs[..|xs| - 1]);
      var (after, keep) := step(seen, xs[|xs| - 1]);
      assert xs == xs[..|xs| - 1] + [xs[|xs| - 1]];
    }
  }

  lemma {:induction false} ScanOfSound<T(!new)>(step: Step<T>, marks: T -> set<Mark>, good: T -> bool, xs: seq<T>)
    requires Lawful(step, marks, good) && Sound(marks, good, xs)
    ensures Scan(step, xs).1 == xs
    ensures forall m :: m in Scan(step, xs).0 ==> exists i :: 0 <= i < |xs| && m in marks(xs[i])
  {
    if xs != [] {
      var last := |xs| - 1;
      ScanOfSound(step, marks, good, xs[..last]);
      var seen := Scan(step, xs[..last]).0;
      var (after, keep) := step(seen, xs[last]);
      forall m | m in seen ensures m !in marks(xs[last]) {
        var i :| 0 <= i < last && m in marks(xs[..last][i]);
        assert marks(xs[i]) !! marks(xs[last]);
      }
      forall m | m in after ensures exists i :: 0 <= i < |xs| && m in marks(xs[i]) {
        if m in seen {
          var i :| 0 <= i < last && m in marks(xs[..last][i]);
          assert m in marks(xs[i]);
        } else {
          assert m in marks(xs[last]);
        }
      }
      assert xs[..last] + [xs[last]] == xs;
    }
  }

  /** The filter's result is sound, and it is the identity exactly on sound lists. */
  lemma ScanExact<T(!new)>(step: Step<T>, marks: T -> set<Mark>, good: T -> bool, xs: seq<T>)
    requires Lawful(step, marks, good)
    ensures Sound(marks, good, Scan(step, xs).1) && multiset(Scan(step, xs).1) <= multiset(xs)
    ensures Scan(step, xs).1 == xs <==> Sound(marks, good, xs)
  {
    ScanSound(step, marks, good, xs);
    if Sound(marks, good, xs) {
      ScanOfSound(step, marks, good, xs);
    }
  }

  /** A dropped record leaves no trace. */
  ghost predicate Careful<T(!new)>(step: Step<T>) {
    forall seen, x {:trigger step(seen, x)} :: !step(seen, x).1 ==> step(seen, x).0 == seen
  }

  /** A careful filter drops a good record only for a mark of one it keeps. */
  lemma {:induction false} ScanMaximal<T(!new)>(step: Step<T>, marks: T -> set<Mark>, good: T -> bool, xs: seq<T>)
    requires Lawful(step, marks, good) && Careful(step)
    ensures forall m :: m in Scan(step, xs).0 ==> exists k :: k in Scan(step, xs).1 && m in marks(k)
    ensures forall x :: x in xs && good(x) && x !in Scan(step, xs).1 ==>
                          exists k :: k in Scan(step, xs).1 && !(marks(k) !! marks(x))
  {
    if xs != [] {
      var last := |xs| - 1;
      ScanMaximal(step, marks, good, xs[..last]);
      var seen, earlier := Scan(step, xs[..last]).0, Scan(step, xs[..last]).1;
      var after, keep := step(seen, xs[last]).0, step(seen, xs[last]).1;
      var kept := Scan(step, xs).1;
      assert xs == xs[..last] + [xs[last]];
      assert forall k :: k in earlier ==> k in kept;
      forall m | m in after ensures exists k :: k in kept && m in marks(k) {
        if m in seen {
          var k :| k in earlier && m in marks(k);
          assert k in kept;
        } else {
          assert xs[last] in kept;
        }
      }
      forall x | x in xs && good(x) && x !in kept ensures exists k :: k in kept && !(marks(k) !! marks(x)) {
        if x in xs[..last] {
          var k :| k in earlier && !(marks(k) !! marks(x));
          assert k in kept;
        } else {
          assert x == xs[last] && !keep && after == seen;
          var m :| m in marks(x) && m in after;
          var k :| k in kept && m in marks(k);
        }
      }
    }
  }

  lemma ScanStep<T>(step: Step<T>, xs: seq<T>, i: nat)
    requires i < |xs|
    ensures var (seen, kept) := Scan(step, xs[..i]);
            var (after, keep) := step(seen, xs[i]);
            Scan(step, xs[..i + 1]) == (after, if keep then kept + [xs[i]] else kept)
  {
    assert xs[..i + 1][..i] == xs[..i];
  }

  // ---- Which record is kept ------------------------------------------------------------------

  /** What the key and profile filters look at, in the order they do: an id that is
      remembered as soon as it is seen, then whether the rest is well formed, then a
      name, then one more mark. */
  datatype Row = Row(id: string, hasId: bool, good: bool, name: string, third: Mark)

  function RowStep(seen: set<Mark>, r: Row): (set<Mark>, bool) {
    if !r.hasId || IdMark(r.id) in seen then (seen, false)
    else
      var s := seen + {IdMark(r.id)};
      if !r.good || NameMark(r.name) in s then (s, false)
      else
        var s := s + {NameMark(r.name)};
        if r.third in s then (s, false) else (s + {r.third}, true)
  }

  /** The first row of its id, and well formed. */
  predicate Reached(rows: seq<Row>, k: nat)
    requires k < |rows|
  {
    rows[k].hasId && rows[k].good && forall j :: 0 <= j < k ==> !(rows[j].hasId && rows[j].id == rows[k].id)
  }

  /** ... and the first of those with its name. */
  predicate Named(rows: seq<Row>, k: nat)
    requires k < |rows|
  {
    Reached(rows, k) && forall j :: 0 <= j < k && Reached(rows, j) ==> rows[j].name != rows[k].name
  }

  /** ... and the first of those with its last mark. */
  predicate Kept(rows: seq<Row>, k: nat)
    requires k < |rows|
  {
    Named(rows, k) && forall j :: 0 <= j < k && Named(rows, j) ==> rows[j].third != rows[k].third
  }

  predicate PlainThirds(rows: seq<Row>) {
    forall k :: 0 <= k < |rows| ==> !rows[k].third.IdMark? && !rows[k].third.NameMark?
  }

  ghost predicate HasIdBefore(rows: seq<Row>, k: nat, id: string)
    requires k <= |rows|
  {
    exists j :: 0 <= j < k && rows[j].hasId && rows[j].id == id
  }

  ghost predicate ReachedBefore(rows: seq<Row>, k: nat, name: string)
    requires k <= |rows|
  {
    exists j :: 0 <= j < k && Reached(rows, j) && rows[j].name == name
  }

  ghost predicate NamedBefore(rows: seq<Row>, k: nat, third: Mark)
    requires k <= |rows|
  {
    exists j :: 0 <= j < k && Named(rows, j) && rows[j].third == third
  }

  /** What has been seen, mark by mark. */
  ghost predicate SeenExactly(rows: seq<Row>, k: nat, seen: set<Mark>)
    requires k <= |rows|
  {
    && (forall id :: IdMark(id) in seen <==> HasIdBefore(rows, k, id))
    && (forall name :: NameMark(name) in seen <==> ReachedBefore(rows, k, name))
    && (forall m: Mark :: !m.IdMark? && !m.NameMark? ==> (m in seen <==> NamedBefore(rows, k, m)))
  }

  lemma IdBeforeStep(rows: seq<Row>, k: nat, id: string)
    requires k < |rows|
    ensures HasIdBefore(rows, k + 1, id) <==> HasIdBefore(rows, k, id) || (rows[k].hasId && rows[k].id == id)
  {
    if j :| 0 <= j < k && rows[j].hasId && rows[j].id == id {
      assert HasIdBefore(rows, k + 1, id);
    }
  }

  lemma ReachedBeforeStep(rows: seq<Row>, k: nat, name: string)
    requires k < |rows|
    ensures ReachedBefore(rows, k + 1, name) <==>
              ReachedBefore(rows, k, name) || (Reached(rows, k) && rows[k].name == name)
  {
    if j :| 0 <= j < k && Reached(rows, j) && rows[j].name == name {
      assert ReachedBefore(rows, k + 1, name);
    }
  }

  lemma NamedBeforeStep(rows: seq<Row>, k: nat, m: Mark)
    requires k < |rows|
    ensures NamedBefore(rows, k + 1, m) <==> NamedBefore(rows, k, m) || (Named(rows, k) && rows[k].third == m)
  {
    if j :| 0 <= j < k && Named(rows, j) && rows[j].third == m {
      assert NamedBefore(rows, k + 1, m);
    }
  }

  lemma RowStepExact(rows: seq<Row>, k: nat, seen: set<Mark>)
    requires k < |rows| && PlainThirds(rows) && SeenExactly(rows, k, seen)
    ensures RowStep(seen, rows[k]).1 <==> Kept(rows, k)
    ensures SeenExactly(rows, k + 1, RowStep(seen, rows[k]).0)
  {
    forall id ensures HasIdBefore(rows, k + 1, id) <==> HasIdBefore(rows, k, id) || (rows[k].hasId && rows[k].id == id) {
      IdBeforeStep(rows, k, id);
    }
    forall name ensures ReachedBefore(rows, k + 1, name) <==>
                          ReachedBefore(rows, k, name) || (Reached(rows, k) && rows[k].name == name) {
      ReachedBeforeStep(rows, k, name);
    }
    forall m ensures NamedBefore(rows, k + 1, m) <==> NamedBefore(rows, k, m) || (Named(rows, k) && rows[k].third == m) {
      NamedBeforeStep(rows, k, m);
    }
  }

  /** The rows of the records. */
  function RowsOf<T>(row: T -> Row, xs: seq<T>): (rows: seq<Row>)
    ensures |rows| == |xs| && forall i :: 0 <= i < |xs| ==> rows[i] == row(xs[i])
  {
    seq(|xs|, i requires 0 <= i < |xs| => row(xs[i]))
  }

  ghost predicate StepsByRow<T(!new)>(step: Step<T>, row: T -> Row) {
    forall seen, x {:trigger step(seen, x)} :: step(seen, x) == RowStep(seen, row(x))
  }

  lemma {:induction false} ScanSees<T(!new)>(step: Step<T>, row: T -> Row, xs: seq<T>, k: nat)
    requires StepsByRow(step, row) && PlainThirds(RowsOf(row, xs)) && k <= |xs|
    ensures SeenExactly(RowsOf(row, xs), k, Scan(step, xs[..k]).0)
  {
    if k > 0 {
      ScanSees(step, row, xs, k - 1);
      ScanStep(step, xs, k - 1);
      RowStepExact(RowsOf(row, xs), k - 1, Scan(step, xs[..k - 1]).0);
    }
  }

  /** The filter keeps the record in place k exactly if its row is kept by position. */
  lemma ScanKeeps<T(!new)>(step: Step<T>, row: T -> Row, xs: seq<T>, k: nat)
    requires StepsByRow(step, row) && PlainThirds(RowsOf(row, xs)) && k < |xs|
    ensures Scan(step, xs[..k + 1]).1 == Scan(step, xs[..k]).1 + (if Kept(RowsOf(row, xs), k) then [xs[k]] else [])
  {
    ScanSees(step, row, xs, k);
    ScanStep(step, xs, k);
    RowStepExact(RowsOf(row, xs), k, Scan(step, xs[..k]).0);
  }

  // ---- Keys ------------------------------------------------------------------------------------

  const SERVER_SECRET_ID := "server"
  const SERVER_RELAY_SECRET_ID := "server-relay"
  const PROFILE_RELAY_PREFIX := "relay:"

  predicate IsReservedSecretId(id: string) {
    id == SERVER_SECRET_ID || id == SERVER_RELAY_SECRET_ID || PROFILE_RELAY_PREFIX <= id
  }

  predicate GoodKey(k: AuthKey) {
    k.id != "" && !IsReservedSecretId(k.id) && IsValidName(k.name)
  }

  function KeyMarks(k: AuthKey): set<Mark> {
    {IdMark(k.id), NameMark(k.name), PublicMark(k.publicKey)}
  }

  function KeyRow(k: AuthKey): Row {
    Row(k.id, k.id != "", !IsReservedSecretId(k.id) && IsValidName(k.name), k.name, PublicMark(k.publicKey))
  }

  function KeyStep(seen: set<Mark>, k: AuthKey): (set<Mark>, bool) {
    RowStep(seen, KeyRow(k))
  }

  function KeptKeys(keys: seq<AuthKey>): seq<AuthKey> {
    Scan(KeyStep, keys).1
  }

  predicate KeysOk(keys: seq<AuthKey>) {
    && (forall i :: 0 <= i < |keys| ==> GoodKey(keys[i]))
    && (forall i, j :: 0 <= i < j < |keys| ==>
          keys[i].id != keys[j].id && keys[i].name != keys[j].name && keys[i].publicKey != keys[j].publicKey)
  }

  lemma KeysSound(keys: seq<AuthKey>)
    ensures Sound(KeyMarks, GoodKey, keys) <==> KeysOk(keys)
  {
    forall k: AuthKey, l: AuthKey
      ensures KeyMarks(k) !! KeyMarks(l) <==> k.id != l.id && k.name != l.name && k.publicKey != l.publicKey
    {
      if KeyMarks(k) !! KeyMarks(l) {
        assert IdMark(k.id) in KeyMarks(k) && NameMark(k.name) in KeyMarks(k) && PublicMark(k.publicKey) in KeyMarks(k);
      }
    }
  }

  /** What is loaded can be told apart, and a good key list loads unchanged. */
  lemma KeysExact(keys: seq<AuthKey>)
    ensures KeysOk(KeptKeys(keys)) && multiset(KeptKeys(keys)) <= multiset(keys)
    ensures KeptKeys(keys) == keys <==> KeysOk(keys)
  {
    ScanExact(KeyStep, KeyMarks, GoodKey, keys);
    KeysSound(keys);
    KeysSound(KeptKeys(keys));
  }

  /** Exactly which keys are kept: the first of its id, if that is not empty or reserved
      and the name is valid; of those the first of its name; of those the first of its
      public key. A key dropped on the way still takes its id, or its name, from later
      ones. */
  lemma KeyKeptExactly(keys: seq<AuthKey>, k: nat)
    requires k < |keys|
    ensures KeptKeys(keys[..k + 1]) == KeptKeys(keys[..k]) + (if Kept(RowsOf(KeyRow, keys), k) then [keys[k]] else [])
  {
    ScanKeeps(KeyStep, KeyRow, keys, k);
  }

  /** A key dropped for its name takes its id from a later good one. */
  lemma DroppedKeyShadows(dropped: AuthKey, later: AuthKey)
    requires dropped.id == later.id && !IsValidName(dropped.name) && GoodKey(later)
    ensures KeptKeys([dropped, later]) == [] && KeptKeys([later]) == [later]
  {
    KeysExact([later]);
    var keys := [dropped, later];
    assert RowsOf(KeyRow, keys)[0].id == later.id;
    KeyKeptExactly(keys, 0);
    KeyKeptExactly(keys, 1);
    assert keys[..0] == [] && keys[..2] == keys;
  }

  method DropInvalidKeys(keys: seq<AuthKey>) returns (kept: seq<AuthKey>)
    ensures kept == KeptKeys(keys)
  {
    var seen: set<Mark> := {};
    kept := [];
    for i := 0 to |keys|
      invariant (seen, kept) == Scan(KeyStep, keys[..i])
    {
      ScanStep(KeyStep, keys, i);
      var k := keys[i];
      if k.id != "" && IdMark(k.id) !in seen {
        seen := seen + {IdMark(k.id)};
        if !IsReservedSecretId(k.id) && IsValidName(k.name) && NameMark(k.name) !in seen {
          seen := seen + {NameMark(k.name)};
          if PublicMark(k.publicKey) !in seen {
            seen := seen + {PublicMark(k.publicKey)};
            kept := kept + [k];
          }
        }
      }
    }
    assert keys[..|keys|] == keys;
  }

  // ---- Profiles --------------------------------------------------------------------------------

  predicate GoodProfile(p: Profile) {
    IsValidName(p.name)
  }

  function ProfileMarks(p: Profile): set<Mark> {
    {IdMark(p.id), NameMark(p.name), ServerMark(p.serverNodeId)}
  }

  function ProfileRow(p: Profile): Row {
    Row(p.id, true, IsValidName(p.name), p.name, ServerMark(p.serverNodeId))
  }

  function ProfileStep(seen: set<Mark>, p: Profile): (set<Mark>, bool) {
    RowStep(seen, ProfileRow(p))
  }

  function KeptProfiles(profiles: seq<Profile>): seq<Profile> {
    Scan(ProfileStep, profiles).1
  }

  predicate ProfilesOk(profiles: seq<Profile>) {
    && (forall i :: 0 <= i < |profiles| ==> IsValidName(profiles[i].name))
    && (forall i, j :: 0 <= i < j < |profiles| ==>
          && profiles[i].id != profiles[j].id && profiles[i].name != profiles[j].name
          && profiles[i].serverNodeId != profiles[j].serverNodeId)
  }

  lemma ProfilesSound(profiles: seq<Profile>)
    ensures Sound(ProfileMarks, GoodProfile, profiles) <==> ProfilesOk(profiles)
  {
    forall p: Profile, q: Profile
      ensures ProfileMarks(p) !! ProfileMarks(q) <==>
                p.id != q.id && p.name != q.name && p.serverNodeId != q.serverNodeId
    {
      if ProfileMarks(p) !! ProfileMarks(q) {
        assert IdMark(p.id) in ProfileMarks(p) && NameMark(p.name) in ProfileMarks(p);
        assert ServerMark(p.serverNodeId) in ProfileMarks(p);
      }
    }
  }

  lemma ProfilesExact(profiles: seq<Profile>)
    ensures ProfilesOk(KeptProfiles(profiles)) && multiset(KeptProfiles(profiles)) <= multiset(profiles)
    ensures KeptProfiles(profiles) == profiles <==> ProfilesOk(profiles)
  {
    ScanExact(ProfileStep, ProfileMarks, GoodProfile, profiles);
    ProfilesSound(profiles);
    ProfilesSound(KeptProfiles(profiles));
  }

  method DropInvalid(profiles: seq<Profile>) returns (kept: seq<Profile>)
    ensures kept == KeptProfiles(profiles)
  {
    var seen: set<Mark> := {};
    kept := [];
    for i := 0 to |profiles|
      invariant (seen, kept) == Scan(ProfileStep, profiles[..i])
    {
      ScanStep(ProfileStep, profiles, i);
      var p := profiles[i];
      if IdMark(p.id) !in seen {
        seen := seen + {IdMark(p.id)};
        if IsValidName(p.name) && NameMark(p.name) !in seen {
          seen := seen + {NameMark(p.name)};
          if ServerMark(p.serverNodeId) !in seen {
            seen := seen + {ServerMark(p.serverNodeId)};
            kept := kept + [p];
          }
        }
      }
    }
    assert profiles[..|profiles|] == profiles;
  }

  /** Exactly which profiles are kept: the first of its id, if its name is valid; of
      those the first of its name; of those the first of its server. A profile dropped on
      the way still takes its id, or its name, from later ones. */
  lemma ProfileKeptExactly(profiles: seq<Profile>, k: nat)
    requires k < |profiles|
    ensures KeptProfiles(profiles[..k + 1])
            == KeptProfiles(profiles[..k]) + (if Kept(RowsOf(ProfileRow, profiles), k) then [profiles[k]] else [])
  {
    ScanKeeps(ProfileStep, ProfileRow, profiles, k);
  }

  /** A profile dropped for its name takes its id from a later good one. */
  lemma DroppedProfileShadows(dropped: Profile, later: Profile)
    requires dropped.id == later.id && !IsValidName(dropped.name) && IsValidName(later.name)
    ensures KeptProfiles([dropped, later]) == [] && KeptProfiles([later]) == [later]
  {
    ProfilesExact([later]);
    var profiles := [dropped, later];
    assert RowsOf(ProfileRow, profiles)[0].id == later.id;
    ProfileKeptExactly(profiles, 0);
    ProfileKeptExactly(profiles, 1);
    assert profiles[..0] == [] && profiles[..2] == profiles;
  }

  // ---- Authorized clients ------------------------------------------------------------------------

  /** Parsing a public key gives its canonical token, which parses to itself. */
  type KeyParser = string -> Option<string>

  ghost predicate Canonical(parse: KeyParser) {
    forall s :: parse(s).Some? ==> parse(parse(s).value) == parse(s)
  }

  predicate GoodClient(parse: KeyParser, c: AuthorizedClient) {
    IsValidName(c.name) && parse(c.publicKey) == Some(c.publicKey)
  }

  function ClientMarks(c: AuthorizedClient): set<Mark> {
    {NameMark(c.name), PublicMark(c.publicKey)}
  }

  function ClientStep(parse: KeyParser): Step<AuthorizedClient> {
    (seen: set<Mark>, c: AuthorizedClient) =>
      if !GoodClient(parse, c) || NameMark(c.name) in seen || PublicMark(c.publicKey) in seen then (seen, false)
      else (seen + {NameMark(c.name), PublicMark(c.publicKey)}, true)
  }

  function KeptClients(parse: KeyParser, clients: seq<AuthorizedClient>): seq<AuthorizedClient> {
    Scan(ClientStep(parse), clients).1
  }

  predicate ClientsOk(parse: KeyParser, clients: seq<AuthorizedClient>) {
    && (forall i :: 0 <= i < |clients| ==> GoodClient(parse, clients[i]))
    && (forall i, j :: 0 <= i < j < |clients| ==>
          clients[i].name != clients[j].name && clients[i].publicKey != clients[j].publicKey)
  }

  lemma ClientsSound(parse: KeyParser, clients: seq<AuthorizedClient>)
    ensures Sound(ClientMarks, c => GoodClient(parse, c), clients) <==> ClientsOk(parse, clients)
  {
    forall c: AuthorizedClient, d: AuthorizedClient
      ensures ClientMarks(c) !! ClientMarks(d) <==> c.name != d.name && c.publicKey != d.publicKey
    {
      if ClientMarks(c) !! ClientMarks(d) {
        assert NameMark(c.name) in ClientMarks(c) && PublicMark(c.publicKey) in ClientMarks(c);
      }
    }
  }

  lemma ClientsExact(parse: KeyParser, clients: seq<AuthorizedClient>)
    ensures ClientsOk(parse, KeptClients(parse, clients)) && multiset(KeptClients(parse, clients)) <= multiset(clients)
    ensures KeptClients(parse, clients) == clients <==> ClientsOk(parse, clients)
  {
    ScanExact(ClientStep(parse), ClientMarks, c => GoodClient(parse, c), clients);
    ClientsSound(parse, clients);
    ClientsSound(parse, KeptClients(parse, clients));
  }

  /** A good client is dropped only for the name or key of one that is kept. */
  lemma DroppedClientsShadowNothing(parse: KeyParser, clients: seq<AuthorizedClient>, c: AuthorizedClient)
    requires c in clients && GoodClient(parse, c) && c !in KeptClients(parse, clients)
    ensures exists k :: k in KeptClients(parse, clients) && (k.name == c.name || k.publicKey == c.publicKey)
  {
    var good := c => GoodClient(parse, c);
    ScanMaximal(ClientStep(parse), ClientMarks, good, clients);
    assert good(c);
    var k :| k in KeptClients(parse, clients) && !(ClientMarks(k) !! ClientMarks(c));
    assert k.name == c.name || k.publicKey == c.publicKey;
  }

  method DropInvalidClients(parse: KeyParser, clients: seq<AuthorizedClient>) returns (kept: seq<AuthorizedClient>)
    ensures kept == KeptClients(parse, clients)
  {
    var seen: set<Mark> := {};
    kept := [];
    for i := 0 to |clients|
      invariant (seen, kept) == Scan(ClientStep(parse), clients[..i])
    {
      ScanStep(ClientStep(parse), clients, i);
      var c := clients[i];
      if GoodClient(parse, c) && NameMark(c.name) !in seen && PublicMark(c.publicKey) !in seen {
        seen := seen + {NameMark(c.name), PublicMark(c.publicKey)};
        kept := kept + [c];
      }
    }
    assert clients[..|clients|] == clients;
  }
}
