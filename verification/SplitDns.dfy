/** Conditional DNS forwarding: the upstream of a host is that of its most specific
    configured domain suffix. */
module SplitDns {
  import opened Options
  import opened Text

  datatype Forward = Forward(suffix: string, servers: seq<string>)

  datatype DnsError = InvalidSuffix(suffix: string) | NoServers(suffix: string) | BadServer(suffix: string, spec: string)

  // ---- Matching ----------------------------------------------------------------------------

  predicate EndsWith(s: string, tail: string) {
    |tail| <= |s| && s[|s| - |tail|..] == tail
  }

  /** Equal, or ending in the suffix just after a dot. */
  predicate SuffixMatches(host: string, suffix: string) {
    host == suffix || (EndsWith(host, suffix) && EndsWith(host[..|host| - |suffix|], "."))
  }

  predicate EndsIn(h: seq<string>, x: seq<string>) {
    |x| <= |h| && h[|h| - |x|..] == x
  }

  predicate LabelsEndWith(host: string, suffix: string) {
    EndsIn(Split(host, '.'), Split(suffix, '.'))
  }

  lemma {:induction false} JoinConcat(a: seq<string>, b: seq<string>)
    requires a != [] && b != []
    ensures Join(a + b, '.') == Join(a, '.') + "." + Join(b, '.')
  {
    JoinCons(a[0], a[1..] + b, '.');
    assert a + b == [a[0]] + (a[1..] + b);
    if |a| == 1 {
      assert a[1..] + b == b;
    } else {
      JoinConcat(a[1..], b);
      JoinCons(a[0], a[1..], '.');
      assert a == [a[0]] + a[1..];
    }
  }

  lemma SplitConcat(a: string, b: string)
    ensures Split(a + "." + b, '.') == Split(a, '.') + Split(b, '.')
  {
    var A, B := Split(a, '.'), Split(b, '.');
    JoinSplit(a, '.');
    JoinSplit(b, '.');
    JoinConcat(A, B);
    SplitJoin(A + B, '.');
  }

  lemma MatchGivesLabels(host: string, suffix: string)
    requires SuffixMatches(host, suffix)
    ensures LabelsEndWith(host, suffix)
  {
    if host != suffix {
      var before := host[..|host| - |suffix| - 1];
      assert host == before + "." + suffix;
      SplitConcat(before, suffix);
    }
  }

  lemma LabelsGiveMatch(host: string, h: seq<string>, suffix: string, s: seq<string>)
    requires h != [] && s != [] && host == Join(h, '.') && suffix == Join(s, '.')
    requires |s| <= |h| && h[|h| - |s|..] == s
    ensures SuffixMatches(host, suffix)
  {
    var before := h[..|h| - |s|];
    assert h == before + s;
    if before != [] {
      JoinConcat(before, s);
      assert host == Join(before, '.') + "." + suffix;
    }
  }

  /** For all texts: the suffix test on characters is the suffix test on labels. */
  lemma MatchesByLabels(host: string, suffix: string)
    ensures SuffixMatches(host, suffix) <==> LabelsEndWith(host, suffix)
  {
    if SuffixMatches(host, suffix) {
      MatchGivesLabels(host, suffix);
    } else if LabelsEndWith(host, suffix) {
      JoinSplit(host, '.');
      JoinSplit(suffix, '.');
      LabelsGiveMatch(host, Split(host, '.'), suffix, Split(suffix, '.'));
    }
  }

  // ---- The order of the table ----------------------------------------------------------------

  /** Order of scalar values, which is also the order of their UTF-8 bytes. */
  predicate Alphabetical(a: string, b: string) {
    b != "" && (a == "" || a[0] < b[0] || (a[0] == b[0] && Alphabetical(a[1..], b[1..])))
  }

  /** The longer suffix comes first, then the alphabetically smaller. */
  predicate Before(a: string, b: string) {
    ByteLen(a) > ByteLen(b) || (ByteLen(a) == ByteLen(b) && Alphabetical(a, b))
  }

  /** A stable sort inserts after everything it does not come before. */
  function Inserted(table: seq<Forward>, f: Forward): seq<Forward> {
    if table == [] then [f]
    else if Before(f.suffix, table[0].suffix) then [f] + table
    else [table[0]] + Inserted(table[1..], f)
  }

  function Sorted(entries: seq<Forward>): seq<Forward> {
    if entries == [] then [] else Inserted(Sorted(entries[..|entries| - 1]), entries[|entries| - 1])
  }

  function TrimDotsStart(s: string): string {
    if s != "" && s[0] == '.' then TrimDotsStart(s[1..]) else s
  }

  function TrimDotsEnd(s: string): string {
    if s != "" && s[|s| - 1] == '.' then TrimDotsEnd(s[..|s| - 1]) else s
  }

  function Normalise(raw: string): string {
    Lower(TrimDotsEnd(TrimDotsStart(Trim(raw))))
  }

  predicate GoodSuffix(suffix: string) {
    suffix != "" && '*' !in suffix && "" !in Split(suffix, '.')
  }

  function TrimAll(specs: seq<string>): seq<string> {
    seq(|specs|, i requires 0 <= i < |specs| => Trim(specs[i]))
  }

  /** One table entry; `usable` says whether a server spec parses. */
  predicate EntryOf(usable: string -> bool, raw: string, specs: seq<string>, f: Forward) {
    && f == Forward(Normalise(raw), TrimAll(specs))
    && GoodSuffix(f.suffix) && specs != []
    && forall i :: 0 <= i < |specs| ==> usable(Trim(specs[i]))
  }

  predicate FirstUnusable(usable: string -> bool, specs: seq<string>, spec: string) {
    exists i :: 0 <= i < |specs| && specs[i] == spec && !usable(Trim(spec)) && forall j :: 0 <= j < i ==> usable(Trim(specs[j]))
  }

  predicate Faulty(usable: string -> bool, raw: string, specs: seq<string>, error: DnsError) {
    var suffix := Normalise(raw);
    match error
    case InvalidSuffix(s) => s == suffix && !GoodSuffix(suffix)
    case NoServers(s) => s == suffix && GoodSuffix(suffix) && specs == []
    case BadServer(s, spec) => s == suffix && GoodSuffix(suffix) && FirstUnusable(usable, specs, spec)
  }

  /** The first pairs read as these entries. */
  predicate ReadsAs(usable: string -> bool, forwards: seq<(string, seq<string>)>, entries: seq<Forward>) {
    && |entries| <= |forwards|
    && forall i :: 0 <= i < |entries| ==> EntryOf(usable, forwards[i].0, forwards[i].1, entries[i])
  }

  /** The configured pairs arrive in the map's iteration order. */
  method New(usable: string -> bool, forwards: seq<(string, seq<string>)>)
    returns (result: Result<Option<seq<Forward>>, DnsError>)
    ensures result == Ok(None) <==> forwards == []
    ensures result.Ok? && result.value.Some? ==>
              exists entries :: |entries| == |forwards| && ReadsAs(usable, forwards, entries)
                                && result.value.value == Sorted(entries)
    ensures result.Err? ==>
              exists entries :: |entries| < |forwards| && ReadsAs(usable, forwards, entries)
                                && Faulty(usable, forwards[|entries|].0, forwards[|entries|].1, result.error)
  {
    if forwards == [] {
      return Ok(None);
    }
    var entries: seq<Forward> := [];
    for i := 0 to |forwards|
      invariant |entries| == i && ReadsAs(usable, forwards, entries)
    {
      var entry := ReadEntry(usable, forwards[i].0, forwards[i].1);
      if entry.Err? {
        return Err(entry.error);
      }
      entries := entries + [entry.value];
    }
    return Ok(Some(Sorted(entries)));
  }

  method ReadEntry(usable: string -> bool, raw: string, specs: seq<string>) returns (entry: Result<Forward, DnsError>)
    ensures match entry
            case Ok(f) => EntryOf(usable, raw, specs, f)
            case Err(error) => Faulty(usable, raw, specs, error)
  {
    var suffix := Normalise(raw);
    if !GoodSuffix(suffix) {
      return Err(InvalidSuffix(suffix));
    }
    if specs == [] {
      return Err(NoServers(suffix));
    }
    var servers: seq<string> := [];
    for i := 0 to |specs|
      invariant |servers| == i
      invariant forall j :: 0 <= j < i ==> servers[j] == Trim(specs[j]) && usable(servers[j])
    {
      if !usable(Trim(specs[i])) {
        assert forall j :: 0 <= j < i ==> usable(Trim(specs[j]));
        return Err(BadServer(suffix, specs[i]));
      }
      servers := servers + [Trim(specs[i])];
    }
    assert servers == TrimAll(specs);
    return Ok(Forward(suffix, servers));
  }

  function FirstMatch(table: seq<Forward>, host: string): Option<Forward> {
    if table == [] then None
    else if SuffixMatches(host, table[0].suffix) then Some(table[0])
    else FirstMatch(table[1..], host)
  }

  function ForwardFor(table: seq<Forward>, host: string): Option<Forward> {
    FirstMatch(table, Lower(host))
  }

  // ---- What it should find ---------------------------------------------------------------------

  /** The longest match in any order; among equally long ones the first. */
  function Best(entries: seq<Forward>, host: string): Option<Forward> {
    if entries == [] then None
    else
      var best, f := Best(entries[..|entries| - 1], host), entries[|entries| - 1];
      if SuffixMatches(host, f.suffix) && (best.None? || |f.suffix| > |best.value.suffix|) then Some(f) else best
  }

  /** Of two texts ending the same host, bytes and characters agree on the longer. */
  lemma BothEnd(host: string, a: string, b: string)
    requires EndsWith(host, a) && EndsWith(host, b)
    ensures ByteLen(a) > ByteLen(b) <==> |a| > |b|
    ensures |a| == |b| ==> a == b
  {
    if |a| >= |b| {
      var more := a[..|a| - |b|];
      assert a == more + b;
      ByteLenConcat(more, b);
    } else {
      var more := b[..|b| - |a|];
      assert b == more + a;
      ByteLenConcat(more, a);
    }
  }

  lemma {:induction false} AlphabeticalLaws(a: string, b: string, c: string)
    ensures !Alphabetical(a, a) && !(Alphabetical(a, b) && Alphabetical(b, a))
    ensures Alphabetical(a, b) && !Alphabetical(c, b) ==> Alphabetical(a, c)
    decreases |a|
  {
    if a != "" {
      var b', c' := if b != "" then b[1..] else "", if c != "" then c[1..] else "";
      AlphabeticalLaws(a[1..], b', c');
    }
  }

  lemma BeforeLaws(a: string, b: string, c: string)
    ensures !Before(a, a) && !(Before(a, b) && Before(b, a))
    ensures Before(a, b) && !Before(c, b) ==> Before(a, c)
  {
    AlphabeticalLaws(a, b, c);
  }

  predicate Ordered(table: seq<Forward>) {
    forall i, j :: 0 <= i < j < |table| ==> !Before(table[j].suffix, table[i].suffix)
  }

  lemma {:induction false} InsertedMembers(table: seq<Forward>, f: Forward)
    ensures multiset(Inserted(table, f)) == multiset(table) + multiset{f}
    ensures forall g :: g in Inserted(table, f) ==> g == f || g in table
  {
    if table != [] {
      assert table == [table[0]] + table[1..];
      if !Before(f.suffix, table[0].suffix) {
        InsertedMembers(table[1..], f);
      }
    }
  }

  lemma {:induction false} InsertedOrdered(table: seq<Forward>, f: Forward)
    requires Ordered(table)
    ensures Ordered(Inserted(table, f))
  {
    if table != [] {
      if Before(f.suffix, table[0].suffix) {
        forall j | 0 <= j < |table| ensures !Before(table[j].suffix, f.suffix) {
          BeforeLaws(f.suffix, table[0].suffix, table[j].suffix);
          BeforeLaws(f.suffix, table[j].suffix, table[j].suffix);
        }
      } else {
        var rest := Inserted(table[1..], f);
        InsertedOrdered(table[1..], f);
        InsertedMembers(table[1..], f);
        forall j | 0 <= j < |rest| ensures !Before(rest[j].suffix, table[0].suffix) {
          assert rest[j] in rest;
        }
      }
    }
  }

  lemma {:induction false} SortedIsSorting(entries: seq<Forward>)
    ensures Ordered(Sorted(entries)) && multiset(Sorted(entries)) == multiset(entries)
  {
    if entries != [] {
      var last := |entries| - 1;
      SortedIsSorting(entries[..last]);
      InsertedOrdered(Sorted(entries[..last]), entries[last]);
      InsertedMembers(Sorted(entries[..last]), entries[last]);
      assert entries == entries[..last] + [entries[last]];
    }
  }

  lemma {:induction false} FirstMatchExact(table: seq<Forward>, host: string)
    ensures FirstMatch(table, host).Some? ==>
              FirstMatch(table, host).value in table && SuffixMatches(host, FirstMatch(table, host).value.suffix)
  {
    if table != [] {
      FirstMatchExact(table[1..], host);
    }
  }

  /** Inserting changes the first match exactly when the new suffix matches and is longer. */
  lemma {:induction false} InsertedMatch(table: seq<Forward>, f: Forward, host: string)
    requires Ordered(table)
    ensures var best := FirstMatch(table, host);
            FirstMatch(Inserted(table, f), host) ==
            if SuffixMatches(host, f.suffix) && (best.None? || |f.suffix| > |best.value.suffix|) then Some(f) else best
  {
    if table == [] {
    } else if Before(f.suffix, table[0].suffix) {
      assert ([f] + table)[1..] == table;
      FirstMatchExact(table, host);
      var best := FirstMatch(table, host);
      if best.Some? && SuffixMatches(host, f.suffix) {
        BeforeLaws(f.suffix, table[0].suffix, best.value.suffix);
        LongerIsBefore(host, f.suffix, best.value.suffix);
      }
    } else {
      InsertedMatch(table[1..], f, host);
      var t := [table[0]] + Inserted(table[1..], f);
      assert t[1..] == Inserted(table[1..], f);
      if SuffixMatches(host, table[0].suffix) && SuffixMatches(host, f.suffix) {
        LongerIsBefore(host, f.suffix, table[0].suffix);
      }
    }
  }

  lemma LongerIsBefore(host: string, a: string, b: string)
    requires SuffixMatches(host, a) && SuffixMatches(host, b)
    ensures Before(a, b) <==> |a| > |b|
    ensures |a| == |b| ==> a == b
  {
    BothEnd(host, a, b);
    BothEnd(host, b, a);
    BeforeLaws(a, b, b);
  }

  /** The first match in the sorted table is the longest match of the configuration. */
  lemma {:induction false} SortedFindsBest(entries: seq<Forward>, host: string)
    ensures FirstMatch(Sorted(entries), host) == Best(entries, host)
  {
    if entries != [] {
      var last := |entries| - 1;
      SortedFindsBest(entries[..last], host);
      SortedIsSorting(entries[..last]);
      InsertedMatch(Sorted(entries[..last]), entries[last], host);
    }
  }

  lemma FewerLabels(h: seq<string>, x: seq<string>, y: seq<string>, a: string, b: string)
    requires x != [] && y != [] && EndsIn(h, x) && EndsIn(h, y) && |a| < |b|
    requires a == Join(x, '.') && b == Join(y, '.')
    ensures |x| < |y|
  {
    if |x| >= |y| {
      assert x[|x| - |y|..] == h[|h| - |y|..];
      LabelsGiveMatch(a, x, b, y);
    }
  }

  /** Of two suffixes of one host, the longer has more labels. */
  lemma LongerHasMoreLabels(host: string, a: string, b: string)
    requires LabelsEndWith(host, a) && LabelsEndWith(host, b) && |a| < |b|
    ensures |Split(a, '.')| < |Split(b, '.')|
  {
    JoinSplit(a, '.');
    JoinSplit(b, '.');
    FewerLabels(Split(host, '.'), Split(a, '.'), Split(b, '.'), a, b);
  }

  /** Nothing is found exactly when nothing matches; what is found matches, and any other
      match has fewer labels or is the same suffix. */
  lemma {:induction false} BestIsLongest(entries: seq<Forward>, host: string)
    ensures Best(entries, host).None? <==> forall f :: f in entries ==> !LabelsEndWith(host, f.suffix)
    ensures Best(entries, host).Some? ==>
              var best := Best(entries, host).value;
              && best in entries && LabelsEndWith(host, best.suffix)
              && forall f :: f in entries && LabelsEndWith(host, f.suffix) ==>
                   |Split(f.suffix, '.')| < |Split(best.suffix, '.')| || f.suffix == best.suffix
  {
    LongestByLength(entries, host);
    if Best(entries, host).Some? {
      var best := Best(entries, host).value;
      forall f | f in entries && LabelsEndWith(host, f.suffix)
        ensures |Split(f.suffix, '.')| < |Split(best.suffix, '.')| || f.suffix == best.suffix
      {
        if f.suffix != best.suffix {
          LongerHasMoreLabels(host, f.suffix, best.suffix);
        }
      }
    }
  }

  lemma {:induction false} LongestByLength(entries: seq<Forward>, host: string)
    ensures Best(entries, host).None? <==> forall f :: f in entries ==> !LabelsEndWith(host, f.suffix)
    ensures Best(entries, host).Some? ==>
              var best := Best(entries, host).value;
              && best in entries && LabelsEndWith(host, best.suffix)
              && forall f :: f in entries && LabelsEndWith(host, f.suffix) ==>
                   |f.suffix| < |best.suffix| || f.suffix == best.suffix
  {
    if entries != [] {
      var last := |entries| - 1;
      var f := entries[last];
      LongestByLength(entries[..last], host);
      assert entries == entries[..last] + [f];
      MatchesByLabels(host, f.suffix);
      var best := Best(entries[..last], host);
      if best.Some? {
        MatchesByLabels(host, best.value.suffix);
        if SuffixMatches(host, f.suffix) {
          LongerIsBefore(host, f.suffix, best.value.suffix);
        }
      }
    }
  }

  /** The configured pair is the most specific one for the host. */
  ghost predicate MostSpecific(forwards: seq<(string, seq<string>)>, host: string, i: nat)
    requires i < |forwards|
  {
    var suffix := Normalise(forwards[i].0);
    && LabelsEndWith(host, suffix)
    && forall j :: 0 <= j < |forwards| && LabelsEndWith(host, Normalise(forwards[j].0)) ==>
         |Split(Normalise(forwards[j].0), '.')| < |Split(suffix, '.')| || Normalise(forwards[j].0) == suffix
  }

  /** The whole selection: for the table built from a configuration, a host in any case
      gets no upstream exactly when no configured suffix ends its labels, and otherwise
      the servers of a most specific pair. */
  lemma TableAnswers(usable: string -> bool, forwards: seq<(string, seq<string>)>, entries: seq<Forward>, host: string)
    requires ReadsAs(usable, forwards, entries) && |entries| == |forwards|
    ensures ForwardFor(Sorted(entries), host).None?
            <==> forall i :: 0 <= i < |forwards| ==> !LabelsEndWith(Lower(host), Normalise(forwards[i].0))
    ensures ForwardFor(Sorted(entries), host).Some? ==>
              exists i :: 0 <= i < |forwards| && MostSpecific(forwards, Lower(host), i)
                          && ForwardFor(Sorted(entries), host).value == Forward(Normalise(forwards[i].0), TrimAll(forwards[i].1))
  {
    SortedFindsBest(entries, Lower(host));
    BestIsLongest(entries, Lower(host));
    forall i | 0 <= i < |forwards| ensures entries[i] in entries && entries[i].suffix == Normalise(forwards[i].0) {
      assert EntryOf(usable, forwards[i].0, forwards[i].1, entries[i]);
    }
    var found := Best(entries, Lower(host));
    if found.Some? {
      var i :| 0 <= i < |entries| && entries[i] == found.value;
      assert EntryOf(usable, forwards[i].0, forwards[i].1, entries[i]);
      assert MostSpecific(forwards, Lower(host), i);
    }
  }

  // ---- Iteration order ---------------------------------------------------------------------------

  /** Entries with the same suffix are the same entry. */
  predicate SuffixesDistinct(entries: seq<Forward>) {
    forall f, g :: f in entries && g in entries && f.suffix == g.suffix ==> f == g
  }

  lemma SameMembers(a: seq<Forward>, b: seq<Forward>)
    requires multiset(a) == multiset(b)
    ensures forall f :: f in a <==> f in b
  {
    forall f ensures f in a <==> f in b {
      assert f in a <==> f in multiset(a);
      assert f in b <==> f in multiset(b);
    }
  }

  lemma {:induction false} FirstOfItsSuffix(f: Forward, rest: seq<Forward>)
    ensures Best([f] + rest, f.suffix) == Some(f)
  {
    if rest == [] {
      assert [f] + rest == [f];
      assert [f][..0] == [];
    } else {
      var last := |rest| - 1;
      FirstOfItsSuffix(f, rest[..last]);
      assert ([f] + rest)[..|rest|] == [f] + rest[..last];
    }
  }

  ghost predicate AnswersAlike(a: seq<Forward>, b: seq<Forward>) {
    forall host :: FirstMatch(Sorted(a), host) == FirstMatch(Sorted(b), host)
  }

  /** The table answers the same whatever order the configuration map is walked in,
      if and only if no two different entries normalise to one suffix. */
  lemma OrderIrrelevant(entries: seq<Forward>)
    ensures SuffixesDistinct(entries) <==>
              forall other: seq<Forward> :: multiset(other) == multiset(entries) ==> AnswersAlike(other, entries)
  {
    if SuffixesDistinct(entries) {
      forall other: seq<Forward> | multiset(other) == multiset(entries) ensures AnswersAlike(other, entries) {
        forall host ensures FirstMatch(Sorted(other), host) == FirstMatch(Sorted(entries), host) {
          SameAnswer(entries, other, host);
        }
      }
    } else {
      var f, g :| f in entries && g in entries && f.suffix == g.suffix && f != g;
      var a, b := BothFirst(entries, f, g);
      SortedFindsBest(a, f.suffix);
      SortedFindsBest(b, f.suffix);
      assert !(AnswersAlike(a, entries) && AnswersAlike(b, entries));
    }
  }

  lemma SameAnswer(entries: seq<Forward>, other: seq<Forward>, host: string)
    requires SuffixesDistinct(entries) && multiset(other) == multiset(entries)
    ensures FirstMatch(Sorted(other), host) == FirstMatch(Sorted(entries), host)
  {
    SortedFindsBest(entries, host);
    SortedFindsBest(other, host);
    BestIsLongest(entries, host);
    BestIsLongest(other, host);
    SameMembers(other, entries);
  }

  lemma BothFirst(entries: seq<Forward>, f: Forward, g: Forward) returns (a: seq<Forward>, b: seq<Forward>)
    requires f in entries && g in entries && f.suffix == g.suffix
    ensures multiset(a) == multiset(entries) == multiset(b)
    ensures Best(a, f.suffix) == Some(f) && Best(b, f.suffix) == Some(g)
  {
    a := MovedFirst(entries, f);
    b := MovedFirst(entries, g);
  }

  lemma MovedFirst(entries: seq<Forward>, f: Forward) returns (a: seq<Forward>)
    requires f in entries
    ensures multiset(a) == multiset(entries) && Best(a, f.suffix) == Some(f)
  {
    var i :| 0 <= i < |entries| && entries[i] == f;
    var rest := entries[..i] + entries[i + 1..];
    assert entries == entries[..i] + [f] + entries[i + 1..];
    FirstOfItsSuffix(f, rest);
    a := [f] + rest;
  }

  lemma TwoForOneHost(f: Forward, g: Forward)
    ensures FirstMatch(Sorted([f, g]), f.suffix) == Some(f)
  {
    FirstOfItsSuffix(f, [g]);
    assert [f] + [g] == [f, g];
    SortedFindsBest([f, g], f.suffix);
  }

  /** A suffix configured in two spellings with different servers: its host is answered
      by whichever pair the map yields first. */
  lemma OrderDecides(usable: string -> bool, p: (string, seq<string>), q: (string, seq<string>), f: Forward, g: Forward)
    requires EntryOf(usable, p.0, p.1, f) && EntryOf(usable, q.0, q.1, g) && f.suffix == g.suffix && f.servers != g.servers
    ensures ReadsAs(usable, [p, q], [f, g]) && ReadsAs(usable, [q, p], [g, f])
    ensures FirstMatch(Sorted([f, g]), f.suffix) == Some(f) != FirstMatch(Sorted([g, f]), f.suffix)
    ensures !AnswersAlike([f, g], [g, f])
  {
    TwoForOneHost(f, g);
    TwoForOneHost(g, f);
  }

  /** Such a configuration. */
  lemma SpellingsCollide(usable: string -> bool)
    requires usable("1") && usable("2")
    ensures EntryOf(usable, "A", ["1"], Forward("a", ["1"])) && EntryOf(usable, "a", ["2"], Forward("a", ["2"]))
    ensures !AnswersAlike([Forward("a", ["1"]), Forward("a", ["2"])], [Forward("a", ["2"]), Forward("a", ["1"])])
  {
    assert Trim("A") == "A" && Trim("a") == "a" && Lower("A") == "a" && Lower("a") == "a";
    assert Split("a", '.') == ["a"];
    assert TrimAll(["1"]) == ["1"] && TrimAll(["2"]) == ["2"];
    OrderDecides(usable, ("A", ["1"]), ("a", ["2"]), Forward("a", ["1"]), Forward("a", ["2"]));
  }

  // ---- Spelling of a suffix ------------------------------------------------------------------------

  predicate AllDots(s: string) {
    forall i :: 0 <= i < |s| ==> s[i] == '.'
  }

  lemma {:induction false} DotsStartCut(s: string) returns (before: string)
    ensures s == before + TrimDotsStart(s) && AllDots(before)
    ensures TrimDotsStart(s) == "" || TrimDotsStart(s)[0] != '.'
  {
    before := "";
    if s != "" && s[0] == '.' {
      var rest := DotsStartCut(s[1..]);
      before := "." + rest;
    }
  }

  lemma {:induction false} DotsEndCut(s: string) returns (after: string)
    ensures s == TrimDotsEnd(s) + after && AllDots(after)
    ensures TrimDotsEnd(s) == "" || TrimDotsEnd(s)[|TrimDotsEnd(s)| - 1] != '.'
  {
    after := "";
    if s != "" && s[|s| - 1] == '.' {
      var rest := DotsEndCut(s[..|s| - 1]);
      after := rest + ".";
    }
  }

  lemma DotsCut(text: string) returns (before: string, core: string, after: string)
    ensures text == before + core + after && AllDots(before) && AllDots(after)
    ensures core == "" || (core[0] != '.' && core[|core| - 1] != '.')
    ensures core == TrimDotsEnd(TrimDotsStart(text))
  {
    before := DotsStartCut(text);
    var rest := TrimDotsStart(text);
    after := DotsEndCut(rest);
    core := TrimDotsEnd(rest);
    if core != "" {
      FirstStays(rest, core, after);
    }
  }

  lemma FirstStays(rest: string, core: string, after: string)
    requires rest == core + after && core != ""
    ensures core[0] == rest[0]
  {
  }

  /** A suffix is the configured text without white space around it and without dots
      around that, in lower case. */
  lemma SuffixSpelling(raw: string) returns (before: string, core: string, after: string)
    ensures Trim(raw) == before + core + after && AllDots(before) && AllDots(after)
    ensures core == "" || (core[0] != '.' && core[|core| - 1] != '.')
    ensures Normalise(raw) == Lower(core)
  {
    before, core, after := DotsCut(Trim(raw));
  }

  /** No dot at either end and no two in a row. */
  predicate DotsApart(s: string) {
    && s != "" && s[0] != '.' && s[|s| - 1] != '.'
    && forall i :: 0 <= i < |s| - 1 ==> !(s[i] == '.' && s[i + 1] == '.')
  }

  lemma {:induction false} LabelsExact(s: string)
    ensures "" !in Split(s, '.') <==> DotsApart(s)
    decreases |s|
  {
    match IndexOf(s, '.')
    case None => assert Split(s, '.') == [s];
    case Some(i) =>
      var first, rest := s[..i], s[i + 1..];
      LabelsExact(rest);
      assert Split(s, '.') == [first] + Split(rest, '.');
      FirstLabelApart(s, i);
  }

  lemma FirstLabelApart(s: string, i: nat)
    requires i < |s| && s[i] == '.' && '.' !in s[..i]
    ensures DotsApart(s) <==> i > 0 && DotsApart(s[i + 1..])
  {
    var rest := s[i + 1..];
    assert forall j :: 0 <= j < |rest| ==> rest[j] == s[i + 1 + j];
    assert forall j :: 0 <= j < i ==> s[j] == s[..i][j];
    if i > 0 && DotsApart(rest) {
      forall j | 0 <= j < |s| - 1 ensures !(s[j] == '.' && s[j + 1] == '.') {
        if j > i {
          assert !(rest[j - i - 1] == '.' && rest[j - i] == '.');
        }
      }
    }
    if DotsApart(s) {
      assert i < |s| - 1 && !(s[i] == '.' && s[i + 1] == '.');
      forall j | 0 <= j < |rest| - 1 ensures !(rest[j] == '.' && rest[j + 1] == '.') {
        assert !(s[i + 1 + j] == '.' && s[i + 2 + j] == '.');
      }
    }
  }

  /** A suffix is usable exactly if it has no wildcard and its dots are apart. */
  lemma GoodSuffixExact(suffix: string)
    ensures GoodSuffix(suffix) <==> '*' !in suffix && DotsApart(suffix)
  {
    LabelsExact(suffix);
  }
}
