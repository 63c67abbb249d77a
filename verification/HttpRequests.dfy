/** What a request head is answered with, told from its text alone: which request lines
    and targets are accepted, what a CONNECT asks for, and which status an error gets. */
module HttpRequests {
  import opened Options
  import opened Records
  import opened Text
  import opened Utf8
  import opened Authority
  import opened Http
  import opened HttpFraming
  import opened HttpRewrite

  // ---- The request line --------------------------------------------------------------------

  /** Three words with one space between them, in UTF-8 without control characters. */
  ghost predicate ThreeWords(line: string, m: string, t: string, v: string) {
    && line == m + " " + (t + " " + v) && m != "" && t != "" && v != ""
    && ' ' !in m && ' ' !in t && ' ' !in v
    && ValidUtf8(line) && forall i :: 0 <= i < |line| ==> 32 <= line[i] as int != 127
  }

  lemma ControlFree(line: string)
    ensures !HasControl(line) <==> forall i :: 0 <= i < |line| ==> 32 <= line[i] as int != 127
  {
    if !HasControl(line) {
      forall i | 0 <= i < |line| ensures 32 <= line[i] as int != 127 {
        assert !IsControl(line[i]);
      }
    }
  }

  lemma WordsSplit(line: string, m: string, t: string, v: string)
    requires ThreeWords(line, m, t, v)
    ensures Split(line, ' ') == [m, t, v]
  {
    SplitThree(m, t, v);
  }

  lemma SplitIsWords(line: string)
    requires |Split(line, ' ')| == 3 && ValidUtf8(line) && !HasControl(line)
    requires var parts := Split(line, ' '); parts[0] != "" && parts[1] != "" && parts[2] != ""
    ensures var parts := Split(line, ' '); ThreeWords(line, parts[0], parts[1], parts[2])
  {
    SplitLine(line);
    ControlFree(line);
  }

  /** A request line is accepted if and only if it is three words and a known version. */
  lemma RequestLineExact(line: string, m: string, t: string, v: string)
    ensures ParseRequestLine(line) == Ok(RequestParts(m, t, v))
            <==> ThreeWords(line, m, t, v) && (v == "HTTP/1.1" || v == "HTTP/1.0")
  {
    ControlFree(line);
    if ThreeWords(line, m, t, v) {
      WordsSplit(line, m, t, v);
    }
    if ParseRequestLine(line) == Ok(RequestParts(m, t, v)) {
      SplitIsWords(line);
    }
  }

  /** Three words and another version are answered 505, anything else malformed 400. */
  lemma RequestLineFaults(line: string)
    ensures ParseRequestLine(line) == Err(505)
            <==> exists m, t, v :: ThreeWords(line, m, t, v) && v != "HTTP/1.1" && v != "HTTP/1.0"
    ensures ParseRequestLine(line).Err? ==> ParseRequestLine(line).error == 400 || ParseRequestLine(line).error == 505
  {
    ControlFree(line);
    if ParseRequestLine(line) == Err(505) {
      SplitIsWords(line);
    }
    forall m, t, v | ThreeWords(line, m, t, v) ensures Split(line, ' ') == [m, t, v] {
      WordsSplit(line, m, t, v);
    }
  }

  /** The head starts with this line. */
  predicate StartsWith(head: string, line: string) {
    |line| + 2 <= |head| && head[..|line|] == line && head[|line|] == '\r' && head[|line| + 1] == '\n'
  }

  lemma FirstLine(head: string, line: string)
    requires EndsBlank(head) && StartsWith(head, line) && '\r' !in line
    ensures RequestLineOf(head) == line
  {
    var rest := head[|line| + 2..];
    assert head == line + CRLF + rest;
    FirstCrlf(line, rest);
  }

  lemma HeadStarts(head: string)
    requires EndsBlank(head)
    ensures StartsWith(head, RequestLineOf(head))
  {
    assert CrlfAt(head, |head| - 2);
  }

  /** The head's first line, as a request line of these words. */
  ghost predicate Asks(head: string, m: string, t: string, v: string) {
    exists line :: StartsWith(head, line) && ThreeWords(line, m, t, v)
  }

  lemma AsksExact(head: string, m: string, t: string, v: string)
    requires EndsBlank(head)
    ensures Asks(head, m, t, v) <==> ThreeWords(RequestLineOf(head), m, t, v)
  {
    HeadStarts(head);
    forall line | StartsWith(head, line) && ThreeWords(line, m, t, v) ensures RequestLineOf(head) == line {
      assert '\r' !in line by {
        forall i | 0 <= i < |line| ensures line[i] != '\r' {
          assert 32 <= line[i] as int;
        }
      }
      FirstLine(head, line);
    }
  }

  // ---- CONNECT -----------------------------------------------------------------------------

  /** The target is the address or the name, with that port. */
  predicate Dials(target: Target, host: string, port: Port) {
    if IsIp(host) then target == Ip(host, port) else target == Domain(host, port)
  }

  /** `text` spells `host` with the mandatory non-zero port. */
  ghost predicate HostAndPort(text: string, host: string, port: Port) {
    host != "" && port != 0 && exists digits :: Spells(text, host, Some(digits)) && ParseU16(digits) == Some(port)
  }

  lemma ConnectAuthority(text: string, host: string, port: Port)
    ensures SplitAuthority(text, None) == Some((host, port)) <==> HostAndPort(text, host, port)
  {
    SplitAuthorityExact(text, None, host, port);
    if HostAndPort(text, host, port) {
      var digits :| Spells(text, host, Some(digits)) && ParseU16(digits) == Some(port);
      var portText := Some(digits);
      assert Spells(text, host, portText);
    }
  }

  ghost predicate AsksToConnect(head: string, target: Target) {
    exists m, t, v, host, port: Port ::
      && Asks(head, m, t, v) && (v == "HTTP/1.1" || v == "HTTP/1.0") && Lower(m) == "connect"
      && HostAndPort(t, host, port) && Dials(target, host, port)
  }

  lemma ConnectParts(head: string, target: Target)
    requires EndsBlank(head) && Parse(head) == Ok(Connect(target))
    ensures ParseRequestLine(RequestLineOf(head)).Ok?
    ensures var parts := ParseRequestLine(RequestLineOf(head)).value;
            && Lower(parts.method_) == "connect" && SplitAuthority(parts.target, None).Some?
            && target == HostToTarget(SplitAuthority(parts.target, None).value.0, SplitAuthority(parts.target, None).value.1)
  {
  }

  lemma ConnectAsked(head: string, parts: RequestParts, host: string, port: Port, target: Target)
    requires EndsBlank(head) && ParseRequestLine(RequestLineOf(head)) == Ok(parts)
    requires Lower(parts.method_) == "connect" && HostAndPort(parts.target, host, port) && Dials(target, host, port)
    ensures AsksToConnect(head, target)
  {
    RequestLineExact(RequestLineOf(head), parts.method_, parts.target, parts.version);
    AsksExact(head, parts.method_, parts.target, parts.version);
  }

  lemma ConnectSound(head: string, target: Target)
    requires EndsBlank(head) && Parse(head) == Ok(Connect(target))
    ensures AsksToConnect(head, target)
  {
    ConnectParts(head, target);
    var parts := ParseRequestLine(RequestLineOf(head)).value;
    var (host, port) := SplitAuthority(parts.target, None).value;
    ConnectAuthority(parts.target, host, port);
    ConnectAsked(head, parts, host, port, target);
  }

  lemma ConnectComplete(head: string, m: string, t: string, v: string, host: string, port: Port, target: Target)
    requires EndsBlank(head) && Asks(head, m, t, v) && (v == "HTTP/1.1" || v == "HTTP/1.0") && Lower(m) == "connect"
    requires HostAndPort(t, host, port) && Dials(target, host, port)
    ensures Parse(head) == Ok(Connect(target))
  {
    AsksExact(head, m, t, v);
    RequestLineExact(RequestLineOf(head), m, t, v);
    ConnectAuthority(t, host, port);
  }

  /** A tunnel to a target is opened if and only if the head asks to connect, in any
      case, to an authority that spells that host and that port. */
  lemma ConnectExactly(head: string, target: Target)
    requires EndsBlank(head)
    ensures Parse(head) == Ok(Connect(target)) <==> AsksToConnect(head, target)
  {
    if Parse(head) == Ok(Connect(target)) {
      ConnectSound(head, target);
    }
    if AsksToConnect(head, target) {
      var m, t, v, host, port: Port :|
        && Asks(head, m, t, v) && (v == "HTTP/1.1" || v == "HTTP/1.0") && Lower(m) == "connect"
        && HostAndPort(t, host, port) && Dials(target, host, port);
      ConnectComplete(head, m, t, v, host, port, target);
    }
  }

  // ---- Absolute targets ----------------------------------------------------------------------

  /** An authority without path, query or user information that spells a host, with a
      port other than zero or none at all. */
  ghost predicate Dialable(authority: string) {
    && '/' !in authority && '?' !in authority && '@' !in authority
    && exists host, portText ::
         && host != "" && Spells(authority, host, portText)
         && (portText.Some? ==> ParseU16(portText.value).Some? && ParseU16(portText.value) != Some(0))
  }

  /** What follows the authority, as an origin-form path: a query alone gets a slash. */
  predicate OriginForm(rest: string, path: string) {
    if rest != "" && rest[0] == '/' then path == rest
    else (rest == "" || rest[0] == '?') && path == "/" + rest
  }

  lemma DialableExact(authority: string)
    ensures SplitAuthority(authority, Some(80)).Some? <==>
              exists host, portText ::
                && host != "" && Spells(authority, host, portText)
                && (portText.Some? ==> ParseU16(portText.value).Some? && ParseU16(portText.value) != Some(0))
  {
    if SplitAuthority(authority, Some(80)).Some? {
      var (host, port) := SplitAuthority(authority, Some(80)).value;
      SplitAuthorityExact(authority, Some(80), host, port);
    }
    forall host, portText | host != "" && Spells(authority, host, portText)
                            && (portText.Some? ==> ParseU16(portText.value).Some? && ParseU16(portText.value) != Some(0))
      ensures SplitAuthority(authority, Some(80)).Some?
    {
      SplitAuthorityExact(authority, Some(80), host, if portText.Some? then ParseU16(portText.value).value else 80);
    }
  }

  /** The text is `http://` in any case, the authority, and the rest. */
  predicate Absolute(target: string, authority: string, rest: string) {
    |target| >= 7 && Lower(target[..7]) == "http://" && target[7..] == authority + rest
  }

  lemma {:induction false} PathEnds(authority: string, rest: string)
    requires '/' !in authority && '?' !in authority && (rest == "" || rest[0] == '/' || rest[0] == '?')
    ensures FindPath(authority + rest) == |authority|
    decreases |authority|
  {
    if authority == "" {
      assert authority + rest == rest;
    } else {
      PathEnds(authority[1..], rest);
      assert (authority + rest)[1..] == authority[1..] + rest;
    }
  }

  lemma SplitPathExact(s: string, authority: string, path: string)
    ensures SplitPath(s) == (authority, path) <==>
              exists rest :: s == authority + rest && '/' !in authority && '?' !in authority && OriginForm(rest, path)
  {
    var i := FindPath(s);
    var rest := s[i..];
    assert s == s[..i] + rest && '/' !in s[..i] && '?' !in s[..i];
    forall r | s == authority + r && '/' !in authority && '?' !in authority && OriginForm(r, path)
      ensures SplitPath(s) == (authority, path)
    {
      PathEnds(authority, r);
      assert s[..|authority|] == authority && s[|authority|..] == r;
    }
  }

  /** A forward's target is accepted if and only if it is an absolute `http://` text with
      an authority that can be dialled; the path is what follows it. */
  lemma TargetExact(target: string, authority: string, path: string)
    ensures ParseTarget(target) == Some((authority, path))
            <==> Dialable(authority) && exists rest :: Absolute(target, authority, rest) && OriginForm(rest, path)
  {
    LowerOfScheme();
    DialableExact(authority);
    if |target| >= 7 {
      SplitPathExact(target[7..], authority, path);
    }
    if ParseTarget(target) == Some((authority, path)) {
      var rest :| target[7..] == authority + rest && '/' !in authority && '?' !in authority && OriginForm(rest, path);
      assert Absolute(target, authority, rest);
    }
  }

  // ---- Header lines ----------------------------------------------------------------------------

  /** Tab, line feed, form feed, carriage return or space. */
  predicate Blank(c: char) {
    c as int == 9 || c as int == 10 || c as int == 12 || c as int == 13 || c as int == 32
  }

  /** The name is what precedes the colon less the white space at its end. */
  predicate NameIn(before: string, name: string) {
    && name <= before && (name == "" || !Blank(name[|name| - 1]))
    && (forall i :: |name| <= i < |before| ==> Blank(before[i]))
    && (forall i :: 0 <= i < |name| ==> 32 <= name[i] as int != 127)
  }

  /** A line is a name, white space if need be, a colon and a value; it is not folded, and
      holds no control character where one could start another line. */
  predicate HeaderText(line: string, before: string, name: string, value: string) {
    && line == before + ":" + value && ':' !in before && ValidUtf8(before) && line[0] != ' ' && line[0] != '\t'
    && NameIn(before, name) && '\r' !in value && '\n' !in value && '\0' !in value
  }

  lemma {:induction false} AsciiTrimIs(before: string, name: string)
    requires name <= before && (name == "" || !IsAsciiWhite(name[|name| - 1]))
    requires forall i :: |name| <= i < |before| ==> IsAsciiWhite(before[i])
    ensures TrimAsciiEnd(before) == name
    decreases |before|
  {
    if |name| < |before| {
      AsciiTrimIs(before[..|before| - 1], name);
    }
  }

  lemma {:induction false} AsciiTrimCuts(s: string)
    ensures forall i :: |TrimAsciiEnd(s)| <= i < |s| ==> IsAsciiWhite(s[i])
  {
    if s != "" && IsAsciiWhite(s[|s| - 1]) {
      AsciiTrimCuts(s[..|s| - 1]);
    }
  }

  lemma NameExact(before: string, name: string)
    ensures NameIn(before, name) <==> name == TrimAsciiEnd(before) && !HasControl(name)
  {
    ControlFree(name);
    AsciiTrimCuts(before);
    if NameIn(before, name) {
      AsciiTrimIs(before, name);
    }
  }

  /** What a line is parsed to, by the place of its colon. */
  lemma LineAt(line: string, colon: nat)
    requires IndexOf(line, ':') == Some(colon)
    ensures var name, value := TrimAsciiEnd(line[..colon]), line[colon + 1..];
            ParseLine(line) ==
            if line[0] == ' ' || line[0] == '\t' || !ValidUtf8(line[..colon]) || HasControl(name) || BadValue(value) then None
            else Some(Header(name, value))
  {
  }

  lemma LineParts(line: string, colon: nat, name: string, value: string)
    requires IndexOf(line, ':') == Some(colon)
    ensures ParseLine(line) == Some(Header(name, value)) <==>
              && line[0] != ' ' && line[0] != '\t' && ValidUtf8(line[..colon])
              && name == TrimAsciiEnd(line[..colon]) && !HasControl(name)
              && value == line[colon + 1..] && !BadValue(value)
  {
    LineAt(line, colon);
  }

  lemma CutAtColon(line: string, before: string, value: string)
    ensures line == before + ":" + value && ':' !in before <==>
              IndexOf(line, ':') == Some(|before|) && before == line[..|before|] && value == line[|before| + 1..]
  {
    if line == before + ":" + value && ':' !in before {
      FirstSeparator(before, ':', value);
    }
  }

  /** A header line is accepted if and only if it reads so. */
  lemma HeaderLineExact(line: string, name: string, value: string)
    ensures ParseLine(line) == Some(Header(name, value)) <==> exists before :: HeaderText(line, before, name, value)
  {
    forall before ensures HeaderText(line, before, name, value) ==> ParseLine(line) == Some(Header(name, value)) {
      CutAtColon(line, before, value);
      if HeaderText(line, before, name, value) {
        LineParts(line, |before|, name, value);
        NameExact(before, name);
      }
    }
    if ParseLine(line) == Some(Header(name, value)) {
      var colon := IndexOf(line, ':').value;
      var before := line[..colon];
      LineParts(line, colon, name, value);
      CutAtColon(line, before, value);
      NameExact(before, name);
      assert HeaderText(line, before, name, value);
    }
  }

  predicate NoCrlf(line: string) {
    forall k :: 0 <= k < |line| ==> !CrlfAt(line, k)
  }

  lemma CutAt(line: string, rest: string)
    requires NoCrlf(line)
    ensures CutLine(line + CRLF + rest) == (line, rest)
  {
    var s := line + CRLF + rest;
    assert CrlfAt(s, |line|);
    forall k | 0 <= k < |line| ensures !CrlfAt(s, k) {
      assert !CrlfAt(line, k) && s[k] == line[k];
      if k + 1 < |line| {
        assert s[k + 1] == line[k + 1];
      }
    }
    assert s[..|line|] == line && s[|line| + 2..] == rest;
  }

  lemma BlockStep(line: string, rest: string)
    requires NoCrlf(line)
    ensures SplitHeaders(line + CRLF + rest) ==
            if ParseLine(line).None? || SplitHeaders(rest).None? then None
            else Some([ParseLine(line).value] + SplitHeaders(rest).value)
  {
    CutAt(line, rest);
  }

  predicate AllParse(lines: seq<string>, headers: seq<Header>) {
    |headers| == |lines| && forall i :: 0 <= i < |lines| ==> ParseLine(lines[i]) == Some(headers[i])
  }

  lemma AllParseCons(line: string, lines: seq<string>, h: Header, headers: seq<Header>)
    ensures AllParse([line] + lines, [h] + headers) <==> ParseLine(line) == Some(h) && AllParse(lines, headers)
  {
    var l, hs := [line] + lines, [h] + headers;
    if AllParse(l, hs) {
      forall i | 0 <= i < |lines| ensures ParseLine(lines[i]) == Some(headers[i]) {
        assert ParseLine(l[i + 1]) == Some(hs[i + 1]);
      }
      assert ParseLine(l[0]) == Some(hs[0]);
    }
  }

  /** A block of lines is accepted if and only if each of them is, and in order. */
  lemma {:induction false} BlockExact(lines: seq<string>, headers: seq<Header>)
    requires forall i :: 0 <= i < |lines| ==> NoCrlf(lines[i])
    ensures SplitHeaders(Terminated(lines)) == Some(headers) <==> AllParse(lines, headers)
    decreases |lines|
  {
    if lines != [] {
      BlockStep(lines[0], Terminated(lines[1..]));
      if headers != [] {
        BlockExact(lines[1..], headers[1..]);
        AllParseCons(lines[0], lines[1..], headers[0], headers[1..]);
        BlockFirst(lines[0], Terminated(lines[1..]), headers);
        assert lines == [lines[0]] + lines[1..] && headers == [headers[0]] + headers[1..];
      }
    }
  }

  lemma BlockFirst(line: string, rest: string, headers: seq<Header>)
    requires NoCrlf(line) && headers != []
    ensures SplitHeaders(line + CRLF + rest) == Some(headers) <==>
              ParseLine(line) == Some(headers[0]) && SplitHeaders(rest) == Some(headers[1..])
  {
    BlockStep(line, rest);
    if ParseLine(line).Some? && SplitHeaders(rest).Some? {
      Peeled(ParseLine(line).value, SplitHeaders(rest).value, headers);
    }
  }

  lemma Peeled(h: Header, rest: seq<Header>, headers: seq<Header>)
    requires headers != []
    ensures [h] + rest == headers <==> h == headers[0] && rest == headers[1..]
  {
    assert ([h] + rest)[1..] == rest && headers == [headers[0]] + headers[1..];
  }

  // ---- Errors ----------------------------------------------------------------------------------

  /** A head that cannot be served is answered 505 if and only if its request line is well
      formed but for the version, and 400 otherwise. */
  lemma StatusExact(head: string)
    requires EndsBlank(head)
    ensures Parse(head) == Err(505) <==> exists m, t, v :: Asks(head, m, t, v) && v != "HTTP/1.1" && v != "HTTP/1.0"
    ensures Parse(head).Err? ==> Parse(head).error == 400 || Parse(head).error == 505
  {
    RequestLineFaults(RequestLineOf(head));
    forall m, t, v ensures Asks(head, m, t, v) <==> ThreeWords(RequestLineOf(head), m, t, v) {
      AsksExact(head, m, t, v);
    }
  }
}
