/** The two main results about the rewrite of a plain-HTTP head: what the origin
    reads is exactly what was meant, and rewriting a rewritten head changes it exactly
    when a surviving header is named `close`. */
module HttpRewrite {
  import opened Options
  import opened Sequences
  import opened Text
  import opened Utf8
  import opened Authority
  import opened Http
  import opened HttpFraming

  // ---- Request lines ---------------------------------------------------------------------

  ghost predicate Plain(s: string) {
    ' ' !in s && !HasControl(s) && Encoded(s)
  }

  ghost predicate PlainParts(parts: RequestParts) {
    && Plain(parts.method_) && Plain(parts.target) && Plain(parts.version)
    && parts.method_ != "" && parts.target != "" && KnownVersion(parts.version)
  }

  lemma ControlOfPart(s: string, i: nat, part: string)
    requires !HasControl(s) && i + |part| <= |s| && part == s[i..i + |part|]
    ensures !HasControl(part)
  {
    forall k | 0 <= k < |part| ensures !IsControl(part[k]) {
      assert part[k] == s[i + k];
    }
  }

  lemma EncodedParts(m: string, t: string, v: string)
    requires Encoded(RequestLine(m, t, v))
    ensures Encoded(m) && Encoded(t) && Encoded(v)
  {
    var rest := t + " " + v;
    assert RequestLine(m, t, v) == m + (" " + rest);
    EncodedCut(m, " " + rest);
    EncodedAfterAscii(" ", rest);
    assert rest == t + (" " + v);
    EncodedCut(t, " " + v);
    EncodedAfterAscii(" ", v);
  }

  lemma EncodedLine(m: string, t: string, v: string)
    requires Encoded(m) && Encoded(t) && Encoded(v)
    ensures Encoded(RequestLine(m, t, v))
  {
    EncodedAscii(" ");
    var tail := " " + v;
    EncodedJoin(" ", v);
    EncodedJoin(t, tail);
    var rest := t + " " + v;
    assert rest == t + tail;
    EncodedJoin(" ", rest);
    EncodedJoin(m, " " + rest);
    assert RequestLine(m, t, v) == m + (" " + rest);
  }

  lemma JoinThree(m: string, t: string, v: string)
    ensures Join([m, t, v], ' ') == RequestLine(m, t, v)
  {
    JoinCons(m, [t, v], ' ');
    JoinCons(t, [v], ' ');
    assert [m, t, v] == [m] + [t, v] && [t, v] == [t] + [v];
  }

  lemma ControlParts(m: string, t: string, v: string)
    ensures !HasControl(RequestLine(m, t, v)) <==> !HasControl(m) && !HasControl(t) && !HasControl(v)
  {
    var line := RequestLine(m, t, v);
    assert forall i :: 0 <= i < |m| ==> line[i] == m[i];
    assert forall i :: 0 <= i < |t| ==> line[|m| + 1 + i] == t[i];
    assert forall i :: 0 <= i < |v| ==> line[|m| + |t| + 2 + i] == v[i];
    forall i | 0 <= i < |line|
      ensures || i == |m| || i == |m| + |t| + 1 || line[i] in m || line[i] in t || line[i] in v
    {
      if |m| < i < |m| + 1 + |t| {
        assert line[i] == t[i - |m| - 1];
      } else if i > |m| + |t| + 1 {
        assert line[i] == v[i - |m| - |t| - 2];
      }
    }
  }

  lemma SplitLine(line: string)
    requires |Split(line, ' ')| == 3
    ensures var parts := Split(line, ' ');
            line == RequestLine(parts[0], parts[1], parts[2]) && ' ' !in parts[0] && ' ' !in parts[1] && ' ' !in parts[2]
  {
    var parts := Split(line, ' ');
    JoinSplit(line, ' ');
    JoinThree(parts[0], parts[1], parts[2]);
    assert parts == [parts[0], parts[1], parts[2]];
  }

  lemma ParsedRequestLine(line: string)
    requires ParseRequestLine(line).Ok?
    ensures PlainParts(ParseRequestLine(line).value)
  {
    var parts := ParseRequestLine(line).value;
    SplitLine(line);
    ValidIsEncoded(line);
    EncodedParts(parts.method_, parts.target, parts.version);
    ControlParts(parts.method_, parts.target, parts.version);
  }

  lemma SplitThree(m: string, t: string, v: string)
    requires ' ' !in m && ' ' !in t && ' ' !in v
    ensures Split(RequestLine(m, t, v), ' ') == [m, t, v]
  {
    JoinThree(m, t, v);
    SplitJoin([m, t, v], ' ');
  }

  /** A printed line of plain parts is well formed and without line breaks. */
  lemma LineIsClean(line: string, parts: RequestParts)
    requires PlainParts(parts) && line == RequestLine(parts.method_, parts.target, parts.version)
    ensures ValidUtf8(line) && !HasControl(line) && CleanLine(line)
  {
    EncodedLine(parts.method_, parts.target, parts.version);
    ValidIffEncoded(line);
    ControlParts(parts.method_, parts.target, parts.version);
    NoControlNoBreak(line);
  }

  lemma ThreePartsParse(line: string, parts: RequestParts)
    requires Split(line, ' ') == [parts.method_, parts.target, parts.version] && ValidUtf8(line) && !HasControl(line)
    requires parts.method_ != "" && parts.target != "" && parts.version != "" && KnownVersion(parts.version)
    ensures ParseRequestLine(line) == Ok(parts)
  {
  }

  /** Printing the parts of a request line and parsing it gives them back. */
  lemma RequestLineReparses(parts: RequestParts)
    requires PlainParts(parts)
    ensures var line := RequestLine(parts.method_, parts.target, parts.version);
            ParseRequestLine(line) == Ok(parts) && CleanLine(line)
  {
    var line := RequestLine(parts.method_, parts.target, parts.version);
    SplitThree(parts.method_, parts.target, parts.version);
    LineIsClean(line, parts);
    ThreePartsParse(line, parts);
  }

  lemma NoControlNoBreak(s: string)
    requires !HasControl(s)
    ensures '\r' !in s && '\n' !in s && !BadValue(s)
  {
    forall i | 0 <= i < |s| ensures s[i] != '\r' && s[i] != '\n' && s[i] != '\0' {
      assert !IsControl(s[i]);
    }
  }

  // ---- Targets -----------------------------------------------------------------------------

  ghost predicate PlainTarget(authority: string, path: string) {
    && Plain(authority) && Plain(path) && path != "" && path[0] == '/'
    && '/' !in authority && '?' !in authority
    && '@' !in authority && SplitAuthority(authority, Some(80)).Some?
  }

  lemma PlainPrefix(s: string, i: nat)
    requires Plain(s) && i <= |s| && (i < |s| ==> s[i] as int < 0x80)
    ensures Plain(s[..i]) && Plain(s[i..])
  {
    assert s == s[..i] + s[i..];
    EncodedCut(s[..i], s[i..]);
    ControlOfPart(s, 0, s[..i]);
    ControlOfPart(s, i, s[i..]);
  }

  lemma PlainConcat(a: string, b: string)
    requires Plain(a) && Plain(b)
    ensures Plain(a + b)
  {
    EncodedJoin(a, b);
    assert forall i :: 0 <= i < |a| ==> (a + b)[i] == a[i];
    assert forall i :: |a| <= i < |a + b| ==> (a + b)[i] == b[i - |a|];
    forall i | 0 <= i < |a + b| ensures !IsControl((a + b)[i]) {
    }
  }

  lemma PlainAscii(s: string)
    requires Ascii(s) && ' ' !in s && !HasControl(s)
    ensures Plain(s)
  {
    EncodedAscii(s);
  }

  lemma SchemeIsAscii(scheme: string)
    requires Lower(scheme) == "http://"
    ensures Ascii(scheme)
  {
    forall i | 0 <= i < |scheme| ensures scheme[i] as int < 0x80 {
      assert LowerChar(scheme[i]) == "http://"[i];
    }
  }

  lemma LowerOfScheme()
    ensures Lower("http://") == "http://"
  {
  }

  lemma PlainAfterScheme(target: string)
    requires Plain(target) && StripScheme(target, "http://").Some?
    ensures Plain(target[7..])
  {
    LowerOfScheme();
    SchemeIsAscii(target[..7]);
    assert target == target[..7] + target[7..];
    EncodedAfterAscii(target[..7], target[7..]);
    ControlOfPart(target, 7, target[7..]);
  }

  lemma PlainSplitPath(rest: string)
    requires Plain(rest)
    ensures var (authority, path) := SplitPath(rest);
            && Plain(authority) && Plain(path) && path != "" && path[0] == '/'
            && '/' !in authority && '?' !in authority
  {
    var i := FindPath(rest);
    PlainPrefix(rest, i);
    PlainAscii("/");
    PlainConcat("/", rest[i..]);
  }

  lemma ParsedTarget(target: string)
    requires Plain(target) && ParseTarget(target).Some?
    ensures var (authority, path) := ParseTarget(target).value; PlainTarget(authority, path)
  {
    PlainAfterScheme(target);
    PlainSplitPath(target[7..]);
  }

  lemma {:induction false} PathFound(authority: string, path: string)
    requires path != "" && path[0] == '/' && '/' !in authority && '?' !in authority
    ensures FindPath(authority + path) == |authority|
    decreases |authority|
  {
    if authority == "" {
      assert authority + path == path;
    } else {
      PathFound(authority[1..], path);
      assert (authority + path)[1..] == authority[1..] + path;
    }
  }

  /** The absolute form of an origin-form request. */
  function AbsoluteTarget(authority: string, path: string): string {
    "http://" + (authority + path)
  }

  /** Turning authority and path into an absolute target and parsing it gives them
      back. */
  lemma TargetReparses(authority: string, path: string)
    requires PlainTarget(authority, path)
    ensures ParseTarget(AbsoluteTarget(authority, path)) == Some((authority, path))
    ensures Plain(AbsoluteTarget(authority, path)) && AbsoluteTarget(authority, path) != ""
  {
    var rest := authority + path;
    var target := "http://" + rest;
    assert target[..7] == "http://" && target[7..] == rest;
    PathFound(authority, path);
    assert rest[..|authority|] == authority && rest[|authority|..] == path;
    PlainAscii("http://");
    PlainConcat(authority, path);
    PlainConcat("http://", rest);
  }

  // ---- What the origin reads -----------------------------------------------------------------

  /** The parts of a head that is accepted as a forward. */
  ghost predicate Accepts(head: string, parts: RequestParts, authority: string, path: string, headers: seq<Header>) {
    && EndsBlank(head)
    && ParseRequestLine(RequestLineOf(head)) == Ok(parts)
    && Lower(parts.method_) != "connect"
    && ParseTarget(parts.target) == Some((authority, path))
    && SplitHeaders(HeaderBlockOf(head)) == Some(headers)
  }

  /** Every forward comes from such parts, and is printed from them. */
  lemma ForwardHasParts(head: string)
    requires EndsBlank(head)
    ensures Parse(head).Ok? && Parse(head).value.Forward?
            <==> exists parts, authority, path, headers :: Accepts(head, parts, authority, path, headers)
  {
    if Parse(head).Ok? && Parse(head).value.Forward? {
      var parts := ParseRequestLine(RequestLineOf(head)).value;
      var (authority, path) := ParseTarget(parts.target).value;
      assert Accepts(head, parts, authority, path, SplitHeaders(HeaderBlockOf(head)).value);
    }
  }

  lemma ForwardIsPrinted(head: string, parts: RequestParts, authority: string, path: string, headers: seq<Header>)
    requires Accepts(head, parts, authority, path, headers)
    ensures SplitAuthority(authority, Some(80)).Some?
    ensures var (host, port) := SplitAuthority(authority, Some(80)).value;
            Parse(head) == Ok(Forward(HostToTarget(host, port),
                                      PrintHead(RequestLine(parts.method_, path, parts.version), OriginHeaders(authority, headers))))
  {
  }

  lemma SurvivorsAreGood(headers: seq<Header>, options: seq<string>)
    requires AllGood(headers)
    ensures AllGood(Survivors(headers, options))
  {
    FilterMembers(Keeps(options), headers);
    var kept := Survivors(headers, options);
    forall i | 0 <= i < |kept| ensures GoodHeader(kept[i]) {
      assert kept[i] in headers;
    }
  }

  lemma HostIsGood(authority: string)
    requires Plain(authority)
    ensures GoodHeader(HostHeader(authority))
  {
    EncodedAscii("Host");
    var value := " " + authority;
    NoControlNoBreak(authority);
    assert forall i :: 0 < i < |value| ==> value[i] == authority[i - 1];
  }

  lemma CloseIsGood()
    ensures GoodHeader(CLOSE_HEADER)
  {
    EncodedAscii("Connection");
  }

  lemma OriginHeadersAreGood(authority: string, headers: seq<Header>)
    requires Plain(authority) && AllGood(headers)
    ensures AllGood(OriginHeaders(authority, headers))
  {
    SurvivorsAreGood(headers, ConnectionOptions(headers));
    HostIsGood(authority);
    CloseIsGood();
  }

  /** Everything the accepted parts satisfy. */
  lemma AcceptedParts(head: string, parts: RequestParts, authority: string, path: string, headers: seq<Header>)
    requires Accepts(head, parts, authority, path, headers)
    ensures PlainParts(parts) && PlainTarget(authority, path) && AllGood(headers)
    ensures AllGood(OriginHeaders(authority, headers))
  {
    ParsedRequestLine(RequestLineOf(head));
    ParsedTarget(parts.target);
    SplitIsGood(HeaderBlockOf(head));
    OriginHeadersAreGood(authority, headers);
  }

  /** Framing: the head sent upstream holds a blank line only at its end; its
      request line is method, origin-form path and version; and its header block
      splits to exactly Host, the surviving headers in order, and
      `Connection: close`. */
  lemma OriginReadsWhatWasMeant(head: string, parts: RequestParts, authority: string, path: string, headers: seq<Header>)
    requires Accepts(head, parts, authority, path, headers)
    ensures Parse(head).Ok? && Parse(head).value.Forward?
    ensures var out := Parse(head).value.head;
            && OneHead(out)
            && ParseRequestLine(RequestLineOf(out)) == Ok(parts.(target := path))
            && SplitHeaders(HeaderBlockOf(out)) == Some(OriginHeaders(authority, headers))
  {
    AcceptedParts(head, parts, authority, path, headers);
    ForwardIsPrinted(head, parts, authority, path, headers);
    RequestLineReparses(parts.(target := path));
    HeadReadsBack(RequestLine(parts.method_, path, parts.version), OriginHeaders(authority, headers));
  }

  /** A header survives exactly when it is neither in the strip list nor named by a
      Connection or Proxy-Connection header, and as often as it came. */
  lemma SurvivorsExact(headers: seq<Header>, h: Header)
    ensures var options := ConnectionOptions(headers);
            multiset(Survivors(headers, options))[h] == if Dropped(h, options) then 0 else multiset(headers)[h]
  {
    FilterCounts(Keeps(ConnectionOptions(headers)), headers, h);
  }

  /** An option counts as named exactly when some Connection or Proxy-Connection
      header lists it. */
  lemma {:induction false} OptionsExact(headers: seq<Header>, option: string)
    ensures option in ConnectionOptions(headers)
            <==> exists h :: h in headers && IsConnection(h) && option in ListedOptions(h.value)
  {
    if headers != [] {
      var first, rest := headers[0], headers[1..];
      OptionsExact(rest, option);
      assert headers == [first] + rest;
      assert option in ConnectionOptions(headers) <==> option in OptionsOf(first) || option in ConnectionOptions(rest);
    }
  }

  // ---- Rewriting again -------------------------------------------------------------------------

  /** The head sent upstream, turned back into the absolute form a client sends. */
  function AbsoluteHead(parts: RequestParts, authority: string, path: string, headers: seq<Header>): string {
    PrintHead(RequestLine(parts.method_, AbsoluteTarget(authority, path), parts.version), OriginHeaders(authority, headers))
  }

  predicate NamedClose(h: Header) {
    Lower(h.name) == "close"
  }

  lemma OneOption(h: Header)
    requires IsConnection(h) && ',' !in h.value && Ascii(h.value)
    ensures OptionsOf(h) == [OptionName(h.value)]
  {
    AsciiValid(h.value);
    LossyExact(h.value);
    assert Split(h.value, ',') == [h.value];
  }

  lemma CloseOptions()
    ensures OptionsOf(CLOSE_HEADER) == ["close"]
  {
    CloseIsConnection();
    OneOption(CLOSE_HEADER);
    CloseTrims();
  }

  lemma CloseIsConnection()
    ensures IsConnection(CLOSE_HEADER) && Lower("Connection") in STRIPPED_HEADERS
  {
    assert Lower("Connection") == "connection" == STRIPPED_HEADERS[0];
  }

  lemma HostIsStripped(authority: string)
    ensures Lower(HostHeader(authority).name) in STRIPPED_HEADERS && !IsConnection(HostHeader(authority))
  {
    assert Lower("Host") == "host" == STRIPPED_HEADERS[7];
  }

  lemma {:induction false} TrimsSpace(s: string)
    requires s != "" && s[0] == ' '
    ensures TrimWhiteStart(s) == TrimWhiteStart(s[1..])
  {
  }

  lemma CloseTrims()
    ensures OptionName(" close") == "close"
  {
    var word := "close";
    assert " close"[1..] == word;
    TrimsSpace(" close");
    assert AsciiBlack(word[0]) && AsciiBlack(word[|word| - 1]);
    assert TrimWhiteStart(word) == word && TrimWhiteEnd(word) == word;
    LowerOfClose();
  }

  lemma LowerOfClose()
    ensures Lower("close") == "close"
  {
  }

  lemma NotConnection(h: Header)
    requires Lower(h.name) !in STRIPPED_HEADERS
    ensures OptionsOf(h) == []
  {
    assert STRIPPED_HEADERS[0] == "connection" && STRIPPED_HEADERS[1] == "proxy-connection";
  }

  lemma KeptAreNotStripped(headers: seq<Header>, options: seq<string>)
    ensures forall h :: h in Survivors(headers, options) ==> Lower(h.name) !in STRIPPED_HEADERS && OptionsOf(h) == []
  {
    FilterMembers(Keeps(options), headers);
    forall h | h in Survivors(headers, options)
      ensures Lower(h.name) !in STRIPPED_HEADERS && OptionsOf(h) == []
    {
      assert Keeps(options)(h);
      NotConnection(h);
    }
  }

  /** The options the rewritten headers name: only `close`. */
  lemma SecondOptions(authority: string, kept: seq<Header>)
    requires forall h :: h in kept ==> OptionsOf(h) == []
    ensures ConnectionOptions([HostHeader(authority)] + kept + [CLOSE_HEADER]) == ["close"]
  {
    var host := HostHeader(authority);
    HostIsStripped(authority);
    CloseOptions();
    FlatMapConcat(OptionsOf, [host] + kept, [CLOSE_HEADER]);
    FlatMapConcat(OptionsOf, [host], kept);
    FlatMapNothing(OptionsOf, kept);
    FlatMapNothing(OptionsOf, [host]);
    FlatMapStep(OptionsOf, [CLOSE_HEADER], 0);
    assert [CLOSE_HEADER][0..] == [CLOSE_HEADER] && [CLOSE_HEADER][1..] == [];
  }

  lemma SecondSurvivors(authority: string, kept: seq<Header>, options: seq<string>)
    ensures Survivors([HostHeader(authority)] + kept + [CLOSE_HEADER], options) == Survivors(kept, options)
  {
    var host, keep := HostHeader(authority), Keeps(options);
    HostIsStripped(authority);
    CloseIsConnection();
    FilterConcat(keep, [host] + kept, [CLOSE_HEADER]);
    FilterConcat(keep, [host], kept);
    assert Filter(keep, [host]) == [] && Filter(keep, [CLOSE_HEADER]) == [];
  }

  /** What the second rewrite keeps: all but the headers named `close`. */
  lemma SecondPass(authority: string, headers: seq<Header>)
    ensures var kept := Survivors(headers, ConnectionOptions(headers));
            OriginHeaders(authority, OriginHeaders(authority, headers))
            == [HostHeader(authority)] + Survivors(kept, ["close"]) + [CLOSE_HEADER]
  {
    var kept := Survivors(headers, ConnectionOptions(headers));
    KeptAreNotStripped(headers, ConnectionOptions(headers));
    SecondOptions(authority, kept);
    SecondSurvivors(authority, kept, ["close"]);
  }

  lemma OnlyCloseGoes(headers: seq<Header>)
    requires forall h :: h in headers ==> Lower(h.name) !in STRIPPED_HEADERS
    ensures Survivors(headers, ["close"]) == headers <==> forall h :: h in headers ==> !NamedClose(h)
  {
    FilterIdentity(Keeps(["close"]), headers);
    forall h | h in headers ensures Keeps(["close"])(h) <==> !NamedClose(h) {
    }
  }

  /** A head printed from plain parts and good headers is accepted as them. */
  lemma PrintedIsAccepted(parts: RequestParts, authority: string, path: string, headers: seq<Header>)
    requires PlainParts(parts) && Lower(parts.method_) != "connect" && AllGood(headers)
    requires ParseTarget(parts.target) == Some((authority, path))
    ensures Accepts(PrintHead(RequestLine(parts.method_, parts.target, parts.version), headers), parts, authority, path, headers)
  {
    RequestLineReparses(parts);
    HeadReadsBack(RequestLine(parts.method_, parts.target, parts.version), headers);
  }

  lemma AbsoluteHeadIsAccepted(parts: RequestParts, authority: string, path: string, headers: seq<Header>)
    requires PlainParts(parts) && PlainTarget(authority, path) && AllGood(OriginHeaders(authority, headers))
    requires Lower(parts.method_) != "connect"
    ensures Accepts(AbsoluteHead(parts, authority, path, headers), parts.(target := AbsoluteTarget(authority, path)),
                    authority, path, OriginHeaders(authority, headers))
  {
    var again := parts.(target := AbsoluteTarget(authority, path));
    TargetReparses(authority, path);
    PrintedIsAccepted(again, authority, path, OriginHeaders(authority, headers));
  }

  /** The second rewrite prints the same bytes exactly when it keeps the same
      headers. */
  lemma SameBytesSameHeaders(line: string, authority: string, headers: seq<Header>)
    requires CleanLine(line) && Plain(authority) && AllGood(headers)
    ensures var first := OriginHeaders(authority, headers);
            PrintHead(line, OriginHeaders(authority, first)) == PrintHead(line, first)
            <==> OriginHeaders(authority, first) == first
  {
    var first := OriginHeaders(authority, headers);
    OriginHeadersAreGood(authority, headers);
    OriginHeadersAreGood(authority, first);
    if PrintHead(line, OriginHeaders(authority, first)) == PrintHead(line, first) {
      HeadTellsHeaders(line, OriginHeaders(authority, first), first);
    }
  }

  lemma SameHeaders(authority: string, headers: seq<Header>)
    ensures var kept := Survivors(headers, ConnectionOptions(headers));
            OriginHeaders(authority, OriginHeaders(authority, headers)) == OriginHeaders(authority, headers)
            <==> forall h :: h in kept ==> !NamedClose(h)
  {
    var options := ConnectionOptions(headers);
    var kept := Survivors(headers, options);
    SecondPass(authority, headers);
    KeptAreNotStripped(headers, options);
    OnlyCloseGoes(kept);
    var again := Survivors(kept, ["close"]);
    var a, b := [HostHeader(authority)] + again + [CLOSE_HEADER], [HostHeader(authority)] + kept + [CLOSE_HEADER];
    assert a[1..|a| - 1] == again && b[1..|b| - 1] == kept;
  }

  /** Fixpoint: the head sent upstream, sent back in absolute form, is rewritten to
      the same target and the same bytes if and only if no surviving header is
      named `close`, the name the appended Connection header nominates. */
  lemma RewriteIsFixpoint(head: string, parts: RequestParts, authority: string, path: string, headers: seq<Header>)
    requires Accepts(head, parts, authority, path, headers)
    ensures EndsBlank(AbsoluteHead(parts, authority, path, headers))
    ensures Parse(AbsoluteHead(parts, authority, path, headers)) == Parse(head)
            <==> forall h :: h in Survivors(headers, ConnectionOptions(headers)) ==> !NamedClose(h)
  {
    AcceptedParts(head, parts, authority, path, headers);
    ForwardIsPrinted(head, parts, authority, path, headers);
    AbsoluteHeadIsAccepted(parts, authority, path, headers);
    var again := parts.(target := AbsoluteTarget(authority, path));
    ForwardIsPrinted(AbsoluteHead(parts, authority, path, headers), again, authority, path, OriginHeaders(authority, headers));
    RequestLineReparses(parts.(target := path));
    SameBytesSameHeaders(RequestLine(parts.method_, path, parts.version), authority, headers);
    SameHeaders(authority, headers);
  }

  // ---- A header named close ------------------------------------------------------------------------

  const CLOSE_NAMED := Header("close", "")
  const GET_PARTS := RequestParts("GET", "http://a/", "HTTP/1.1")
  const GET_HEAD := PrintHead(RequestLine("GET", "http://a/", "HTTP/1.1"), [CLOSE_NAMED])

  lemma TargetIsPlain()
    ensures PlainTarget("a", "/") && AbsoluteTarget("a", "/") == "http://a/"
  {
    PlainAscii("a");
    PlainAscii("/");
    SpellsPlain("a", None);
    assert "a" + "" == "a";
  }

  lemma PartsArePlain()
    ensures PlainParts(GET_PARTS) && ParseTarget("http://a/") == Some(("a", "/"))
  {
    TargetIsPlain();
    TargetReparses("a", "/");
    PlainAscii("GET");
    PlainAscii("HTTP/1.1");
  }

  lemma GetIsNotConnect()
    ensures Lower("GET") != "connect"
  {
    assert |Lower("GET")| == 3;
  }

  lemma CloseNamedIsGood()
    ensures GoodHeader(CLOSE_NAMED)
  {
    EncodedAscii("close");
  }

  lemma CloseHeadIsAccepted()
    ensures Accepts(GET_HEAD, GET_PARTS, "a", "/", [CLOSE_NAMED])
  {
    PartsArePlain();
    CloseNamedIsGood();
    GetIsNotConnect();
    PrintedIsAccepted(GET_PARTS, "a", "/", [CLOSE_NAMED]);
  }

  lemma CloseNamedSurvives()
    ensures CLOSE_NAMED in Survivors([CLOSE_NAMED], ConnectionOptions([CLOSE_NAMED])) && NamedClose(CLOSE_NAMED)
  {
    LowerOfClose();
    assert Lower(CLOSE_NAMED.name) !in STRIPPED_HEADERS;
    NotConnection(CLOSE_NAMED);
    FlatMapNothing(OptionsOf, [CLOSE_NAMED]);
    SurvivorsExact([CLOSE_NAMED], CLOSE_NAMED);
    assert CLOSE_NAMED in multiset([CLOSE_NAMED]);
    assert CLOSE_NAMED in multiset(Survivors([CLOSE_NAMED], ConnectionOptions([CLOSE_NAMED])));
  }

  /** Such a head: its second rewrite drops the header the first one kept. */
  lemma CloseHeaderIsLost()
    ensures Accepts(GET_HEAD, GET_PARTS, "a", "/", [CLOSE_NAMED])
    ensures EndsBlank(AbsoluteHead(GET_PARTS, "a", "/", [CLOSE_NAMED]))
    ensures Parse(AbsoluteHead(GET_PARTS, "a", "/", [CLOSE_NAMED])) != Parse(GET_HEAD)
  {
    CloseHeadIsAccepted();
    CloseNamedSurvives();
    RewriteIsFixpoint(GET_HEAD, GET_PARTS, "a", "/", [CLOSE_NAMED]);
  }
}
