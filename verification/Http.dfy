/** The local HTTP proxy front-end: reads a request head, and turns a plain-HTTP
    head in absolute form (section 3.2.2 of RFC 9112) into the origin-form head
    sent upstream, hop-by-hop headers stripped (section 7.6.1 of RFC 9110). Text
    is one character below 256 per byte. */
module Http {
  import opened Options
  import opened Records
  import opened Sequences
  import opened Text
  import opened Utf8
  import opened Authority

  const MAX_HTTP_HEADER := 64 * 1024
  const CRLF: string := "\r\n"

  const STRIPPED_HEADERS: seq<string> := [
    "connection", "proxy-connection", "keep-alive", "te",
    "upgrade", "proxy-authorization", "proxy-authenticate", "host"]

  // ---- Reading the head ----------------------------------------------------------------

  predicate CrlfAt(s: string, k: nat) {
    k + 2 <= |s| && s[k] == '\r' && s[k + 1] == '\n'
  }

  predicate EndsBlank(s: string) {
    |s| >= 4 && CrlfAt(s, |s| - 4) && CrlfAt(s, |s| - 2)
  }

  datatype HeadRead = Head(head: string) | HeadTooLong | EndOfStream

  /** The head is the shortest prefix that ends in a blank line, if it is within
      the cap; nothing past it is consumed. */
  predicate ReadsHead(stream: string, r: HeadRead, consumed: nat) {
    && consumed <= |stream|
    && (forall k :: 0 <= k < consumed ==> !EndsBlank(stream[..k]))
    && match r
       case Head(head) => head == stream[..consumed] && EndsBlank(head) && |head| <= MAX_HTTP_HEADER
       case HeadTooLong => consumed == MAX_HTTP_HEADER && !EndsBlank(stream[..consumed])
       case EndOfStream => consumed == |stream| < MAX_HTTP_HEADER && !EndsBlank(stream)
  }

  method ReadHead(stream: string) returns (r: HeadRead, consumed: nat)
    ensures ReadsHead(stream, r, consumed)
  {
    var head := "";
    consumed := 0;
    while consumed < |stream|
      invariant consumed <= |stream| && head == stream[..consumed] && |head| < MAX_HTTP_HEADER
      invariant forall k :: 0 <= k <= consumed ==> !EndsBlank(stream[..k])
    {
      head := head + [stream[consumed]];
      consumed := consumed + 1;
      if EndsBlank(head) {
        return Head(head), consumed;
      }
      if |head| >= MAX_HTTP_HEADER {
        return HeadTooLong, consumed;
      }
    }
    assert stream[..consumed] == stream;
    r := EndOfStream;
  }

  // ---- Header lines ----------------------------------------------------------------------

  /** Value bytes are kept raw, leading white space and all. */
  datatype Header = Header(name: string, value: string)

  function FindCrlf(s: string): (r: Option<nat>)
    ensures r.Some? ==> CrlfAt(s, r.value) && forall k :: 0 <= k < r.value ==> !CrlfAt(s, k)
    ensures r.None? ==> forall k :: 0 <= k < |s| ==> !CrlfAt(s, k)
  {
    if |s| < 2 then None
    else if CrlfAt(s, 0) then Some(0)
    else
      assert forall k :: 1 <= k < |s| ==> (CrlfAt(s, k) <==> CrlfAt(s[1..], k - 1));
      match FindCrlf(s[1..]) case None => None case Some(i) => Some(i + 1)
  }

  predicate HasControl(s: string) {
    exists i :: 0 <= i < |s| && IsControl(s[i])
  }

  predicate BadValue(s: string) {
    exists i :: 0 <= i < |s| && (s[i] == '\r' || s[i] == '\n' || s[i] == '\0')
  }

  predicate IsAsciiWhite(c: char) {
    c == ' ' || c == '\t' || c == '\n' || c as int == 12 || c == '\r'
  }

  function TrimAsciiEnd(s: string): (r: string)
    ensures r <= s
    ensures r == "" || !IsAsciiWhite(r[|r| - 1])
    ensures s == "" || !IsAsciiWhite(s[|s| - 1]) ==> r == s
    ensures |r| < |s| ==> IsAsciiWhite(s[|r|])
  {
    if s != "" && IsAsciiWhite(s[|s| - 1]) then TrimAsciiEnd(s[..|s| - 1]) else s
  }

  /** White space before the colon is tolerated and removed (section 5.1 of
      RFC 9112); folded lines, lines without a colon and smuggled control bytes
      are refused. */
  function ParseLine(line: string): Option<Header> {
    if line != "" && (line[0] == ' ' || line[0] == '\t') then None
    else
      match IndexOf(line, ':')
      case None => None
      case Some(colon) =>
        var name := TrimAsciiEnd(line[..colon]);
        var value := line[colon + 1..];
        if !ValidUtf8(line[..colon]) || HasControl(name) || BadValue(value) then None
        else Some(Header(name, value))
  }

  /** The first line of a block and what follows it. */
  function CutLine(block: string): (r: (string, string))
    requires block != ""
    ensures |r.1| < |block|
  {
    match FindCrlf(block)
    case None => (block, "")
    case Some(end) => (block[..end], block[end + 2..])
  }

  function SplitHeaders(block: string): Option<seq<Header>>
    decreases |block|
  {
    if block == "" then Some([])
    else
      var (line, rest) := CutLine(block);
      match ParseLine(line)
      case None => None
      case Some(h) =>
        match SplitHeaders(rest)
        case None => None
        case Some(hs) => Some([h] + hs)
  }

  function Prepend(out: seq<Header>, r: Option<seq<Header>>): Option<seq<Header>> {
    match r case None => None case Some(hs) => Some(out + hs)
  }

  lemma PrependNone(r: Option<seq<Header>>)
    ensures Prepend([], r) == r
  {
    if r.Some? {
      assert [] + r.value == r.value;
    }
  }

  lemma SplitOneMore(out: seq<Header>, line: string, rest: string, block: string)
    requires block != "" && CutLine(block) == (line, rest)
    ensures ParseLine(line).None? ==> Prepend(out, SplitHeaders(block)).None?
    ensures ParseLine(line).Some? ==>
              Prepend(out, SplitHeaders(block)) == Prepend(out + [ParseLine(line).value], SplitHeaders(rest))
  {
    if ParseLine(line).Some? && SplitHeaders(rest).Some? {
      var h, hs := ParseLine(line).value, SplitHeaders(rest).value;
      assert out + ([h] + hs) == out + [h] + hs;
    }
  }

  method SplitHeaderLines(block: string) returns (r: Option<seq<Header>>)
    ensures r == SplitHeaders(block)
  {
    var out: seq<Header> := [];
    var rest := block;
    PrependNone(SplitHeaders(block));
    while rest != ""
      invariant SplitHeaders(block) == Prepend(out, SplitHeaders(rest))
      decreases |rest|
    {
      var crlf := FindCrlf(rest);
      var end := if crlf.Some? then crlf.value else |rest|;
      var line := rest[..end];
      var next := rest[if end + 2 < |rest| then end + 2 else |rest|..];
      assert crlf.None? ==> line == rest && next == "";
      assert CutLine(rest) == (line, next);
      SplitOneMore(out, line, next, rest);
      rest := next;
      var h := ParseLine(line);
      if h.None? {
        return None;
      }
      out := out + [h.value];
    }
    assert out + [] == out;
    r := Some(out);
  }

  // ---- Connection options ------------------------------------------------------------------

  /** Bytes of the encoded white-space character the text starts with, else 0. */
  function WhiteLen(s: string): (n: nat)
    ensures n <= |s|
  {
    if s != "" && s[0] as int < 0x80 && IsWhite(s[0]) then 1
    else if |s| >= 2 && s[0] as int == 0xc2 && (s[1] as int == 0x85 || s[1] as int == 0xa0) then 2
    else if |s| < 3 then 0
    else
      var a, b, c := s[0] as int, s[1] as int, s[2] as int;
      if || (a == 0xe1 && b == 0x9a && c == 0x80)
         || (a == 0xe2 && b == 0x80 && (0x80 <= c <= 0x8a || c == 0xa8 || c == 0xa9 || c == 0xaf))
         || (a == 0xe2 && b == 0x81 && c == 0x9f)
         || (a == 0xe3 && b == 0x80 && c == 0x80) then 3
      else 0
  }

  /** Bytes of the encoded white-space character the text ends with, else 0. */
  function WhiteEndLen(s: string): (n: nat)
    ensures n <= |s|
    ensures s != "" && AsciiBlack(s[|s| - 1]) ==> n == 0
  {
    if |s| >= 1 && WhiteLen(s[|s| - 1..]) == 1 then 1
    else if |s| >= 2 && WhiteLen(s[|s| - 2..]) == 2 then 2
    else if |s| >= 3 && WhiteLen(s[|s| - 3..]) == 3 then 3
    else 0
  }

  predicate AsciiBlack(c: char) {
    c as int < 0x80 && !IsWhite(c)
  }

  function TrimWhiteStart(s: string): (r: string)
    ensures s != "" && AsciiBlack(s[0]) ==> r == s
    decreases |s|
  {
    if WhiteLen(s) > 0 then TrimWhiteStart(s[WhiteLen(s)..]) else s
  }

  function TrimWhiteEnd(s: string): (r: string)
    ensures s != "" && AsciiBlack(s[|s| - 1]) ==> r == s
    decreases |s|
  {
    if WhiteEndLen(s) > 0 then TrimWhiteEnd(s[..|s| - WhiteEndLen(s)]) else s
  }

  function OptionNames(tokens: seq<string>): seq<string> {
    seq(|tokens|, i requires 0 <= i < |tokens| => OptionName(tokens[i]))
  }

  function OptionName(token: string): string {
    Lower(TrimWhiteEnd(TrimWhiteStart(token)))
  }

  function ListedOptions(value: string): seq<string> {
    OptionNames(Split(Lossy(value), ','))
  }

  predicate IsConnection(h: Header) {
    Lower(h.name) == "connection" || Lower(h.name) == "proxy-connection"
  }

  function OptionsOf(h: Header): seq<string> {
    if IsConnection(h) then ListedOptions(h.value) else []
  }

  /** The headers the client marked hop-by-hop, lower-cased. */
  function ConnectionOptions(headers: seq<Header>): seq<string> {
    FlatMap(OptionsOf, headers)
  }

  predicate Dropped(h: Header, options: seq<string>) {
    Lower(h.name) in STRIPPED_HEADERS || Lower(h.name) in options
  }

  function Keeps(options: seq<string>): Header -> bool {
    (h: Header) => !Dropped(h, options)
  }

  function Survivors(headers: seq<Header>, options: seq<string>): seq<Header> {
    Filter(Keeps(options), headers)
  }

  // ---- Printing --------------------------------------------------------------------------------

  function Line(h: Header): string {
    h.name + ":" + h.value
  }

  function HeaderLines(headers: seq<Header>): (lines: seq<string>)
    ensures |lines| == |headers|
    ensures forall i :: 0 <= i < |headers| ==> lines[i] == Line(headers[i])
  {
    seq(|headers|, i requires 0 <= i < |headers| => Line(headers[i]))
  }

  /** Every line followed by CRLF. */
  function Terminated(lines: seq<string>): string {
    if lines == [] then "" else lines[0] + CRLF + Terminated(lines[1..])
  }

  function HostHeader(authority: string): Header {
    Header("Host", " " + authority)
  }

  const CLOSE_HEADER := Header("Connection", " close")

  function OriginHeaders(authority: string, headers: seq<Header>): seq<Header> {
    [HostHeader(authority)] + Survivors(headers, ConnectionOptions(headers)) + [CLOSE_HEADER]
  }

  /** A request line and headers, down to the blank line. */
  function PrintHead(line: string, headers: seq<Header>): string {
    Terminated([line] + HeaderLines(headers)) + CRLF
  }

  lemma {:induction false} TerminatedSnoc(lines: seq<string>, line: string)
    ensures Terminated(lines + [line]) == Terminated(lines) + (line + CRLF)
  {
    if lines == [] {
      assert lines + [line] == [line];
    } else {
      TerminatedSnoc(lines[1..], line);
      assert (lines + [line])[1..] == lines[1..] + [line];
    }
  }

  lemma TerminatedCons(line: string, lines: seq<string>)
    ensures Terminated([line] + lines) == line + CRLF + Terminated(lines)
  {
    assert ([line] + lines)[1..] == lines;
  }

  lemma OptionsStep(options: seq<string>, headers: seq<Header>, i: nat)
    requires i < |headers| && ConnectionOptions(headers) == options + ConnectionOptions(headers[i..])
    ensures ConnectionOptions(headers) == options + OptionsOf(headers[i]) + ConnectionOptions(headers[i + 1..])
  {
    FlatMapStep(OptionsOf, headers, i);
  }

  method CollectOptions(headers: seq<Header>) returns (options: seq<string>)
    ensures options == ConnectionOptions(headers)
  {
    options := [];
    for i := 0 to |headers|
      invariant ConnectionOptions(headers) == options + ConnectionOptions(headers[i..])
    {
      OptionsStep(options, headers, i);
      var listed := OptionsOf(headers[i]);
      options := options + listed;
    }
    assert options + [] == options;
  }

  /** The headers that survive, as they are printed. */
  function Printed(headers: seq<Header>, options: seq<string>): string {
    Terminated(HeaderLines(Survivors(headers, options)))
  }

  lemma PrintStep(headers: seq<Header>, i: nat, options: seq<string>)
    requires i < |headers|
    ensures Printed(headers[i..], options)
            == (if Dropped(headers[i], options) then "" else Line(headers[i]) + CRLF) + Printed(headers[i + 1..], options)
  {
    var rest := Survivors(headers[i + 1..], options);
    FilterStep(Keeps(options), headers, i);
    if Dropped(headers[i], options) {
      assert [] + rest == rest;
    } else {
      assert HeaderLines([headers[i]] + rest)[1..] == HeaderLines(rest);
    }
  }

  /** The second pass: prints what survives after what was printed before. */
  method PrintSurvivors(start: string, headers: seq<Header>, options: seq<string>) returns (out: string)
    ensures out == start + Printed(headers, options)
  {
    out := start;
    for i := 0 to |headers|
      invariant out + Printed(headers[i..], options) == start + Printed(headers, options)
    {
      PrintStep(headers, i, options);
      if !Dropped(headers[i], options) {
        out := out + (headers[i].name + ":" + headers[i].value + CRLF);
      }
    }
    assert headers[|headers|..] == [];
  }

  method WriteOriginHead(method_: string, path: string, version: string, authority: string, headers: seq<Header>)
    returns (out: string)
    ensures out == PrintHead(RequestLine(method_, path, version), OriginHeaders(authority, headers))
  {
    var options := CollectOptions(headers);
    var line := RequestLine(method_, path, version);
    out := PrintSurvivors(line + CRLF + ("Host: " + authority + CRLF), headers, options);
    OriginHeadParts(line, authority, Survivors(headers, options));
    out := out + ("Connection: close" + CRLF + CRLF);
  }

  lemma OriginHeadParts(line: string, authority: string, survivors: seq<Header>)
    ensures PrintHead(line, [HostHeader(authority)] + survivors + [CLOSE_HEADER])
            == line + CRLF + ("Host: " + authority + CRLF) + Terminated(HeaderLines(survivors))
               + ("Connection: close" + CRLF + CRLF)
  {
    var host, last, mid := Line(HostHeader(authority)), Line(CLOSE_HEADER), HeaderLines(survivors);
    assert host == "Host: " + authority && last == "Connection: close";
    assert [line] + HeaderLines([HostHeader(authority)] + survivors + [CLOSE_HEADER]) == [line] + ([host] + (mid + [last]));
    TerminatedCons(line, [host] + (mid + [last]));
    TerminatedCons(host, mid + [last]);
    TerminatedSnoc(mid, last);
  }

  // ---- The request line --------------------------------------------------------------------------

  datatype RequestParts = RequestParts(method_: string, target: string, version: string)

  function RequestLine(method_: string, target: string, version: string): string {
    method_ + " " + (target + " " + version)
  }

  predicate KnownVersion(version: string) {
    version == "HTTP/1.1" || version == "HTTP/1.0"
  }

  /** `Err` is the status the local application is answered with. */
  function ParseRequestLine(line: string): Result<RequestParts, nat> {
    var parts := Split(line, ' ');
    if !ValidUtf8(line) || HasControl(line) then Err(400)
    else if |parts| != 3 || parts[0] == "" || parts[1] == "" || parts[2] == "" then Err(400)
    else if !KnownVersion(parts[2]) then Err(505)
    else Ok(RequestParts(parts[0], parts[1], parts[2]))
  }

  // ---- The target ----------------------------------------------------------------------------------

  /** The source keeps the parsed address; the text it was parsed from stands for
      it here. */
  datatype Target = Ip(address: string, port: Port) | Domain(name: string, port: Port)

  function HostToTarget(host: string, port: Port): Target {
    if IsIp(host) then Ip(host, port) else Domain(host, port)
  }

  function StripScheme(target: string, scheme: string): Option<string> {
    if |target| >= |scheme| && Lower(target[..|scheme|]) == Lower(scheme) then Some(target[|scheme|..]) else None
  }

  function FindPath(s: string): (r: nat)
    ensures r <= |s|
    ensures forall k :: 0 <= k < r ==> s[k] != '/' && s[k] != '?'
    ensures r < |s| ==> s[r] == '/' || s[r] == '?'
  {
    if s == "" || s[0] == '/' || s[0] == '?' then 0 else 1 + FindPath(s[1..])
  }

  /** The authority and the origin-form path of what follows `http://`. */
  function SplitPath(rest: string): (string, string) {
    var i := FindPath(rest);
    (rest[..i], if i < |rest| && rest[i] == '/' then rest[i..] else "/" + rest[i..])
  }

  /** Authority and path of an absolute `http://` target without user information
      and with an authority that can be dialled. */
  function ParseTarget(target: string): Option<(string, string)> {
    match StripScheme(target, "http://")
    case None => None
    case Some(rest) =>
      var (authority, path) := SplitPath(rest);
      if '@' in authority || SplitAuthority(authority, Some(80)).None? then None else Some((authority, path))
  }

  // ---- The whole request -----------------------------------------------------------------------

  datatype HttpRequest = Connect(target: Target) | Forward(target: Target, head: string)

  function RewriteForward(parts: RequestParts, block: string): Result<HttpRequest, nat> {
    match ParseTarget(parts.target)
    case None => Err(400)
    case Some((authority, path)) =>
      match SplitHeaders(block)
      case None => Err(400)
      case Some(headers) =>
        var (host, port) := SplitAuthority(authority, Some(80)).value;
        Ok(Forward(HostToTarget(host, port),
                   PrintHead(RequestLine(parts.method_, path, parts.version), OriginHeaders(authority, headers))))
  }

  function RequestLineOf(head: string): string
    requires EndsBlank(head)
  {
    head[..FindCrlf(head).value]
  }

  function HeaderBlockOf(head: string): string
    requires EndsBlank(head)
  {
    head[FindCrlf(head).value + 2..|head| - 2]
  }

  function Parse(head: string): Result<HttpRequest, nat>
    requires EndsBlank(head)
  {
    match ParseRequestLine(RequestLineOf(head))
    case Err(code) => Err(code)
    case Ok(parts) =>
      if Lower(parts.method_) == "connect" then
        match SplitAuthority(parts.target, None)
        case None => Err(400)
        case Some((host, port)) => Ok(Connect(HostToTarget(host, port)))
      else RewriteForward(parts, HeaderBlockOf(head))
  }

  /** Failed reads and the status, if any, written to the local application. */
  datatype ReadError = ReadError(status: Option<nat>)

  /** A head is answered as it parses; one over the cap is a bad request; a stream that
      ends first gets no status. */
  predicate Answers(read: HeadRead, r: Result<HttpRequest, ReadError>) {
    match read
    case Head(head) =>
      EndsBlank(head) &&
      (match Parse(head) case Ok(request) => r == Ok(request) case Err(code) => r == Err(ReadError(Some(code))))
    case HeadTooLong => r == Err(ReadError(Some(400)))
    case EndOfStream => r == Err(ReadError(None))
  }

  /** Reads one request; what follows the head stays in the stream. */
  method ReadRequest(stream: string) returns (r: Result<HttpRequest, ReadError>, consumed: nat)
    ensures exists read :: ReadsHead(stream, read, consumed) && Answers(read, r)
  {
    var read;
    read, consumed := ReadHead(stream);
    match read
    case HeadTooLong => r := Err(ReadError(Some(400)));
    case EndOfStream => r := Err(ReadError(None));
    case Head(head) =>
      var line := ParseRequestLine(RequestLineOf(head));
      if line.Err? {
        return Err(ReadError(Some(line.error))), consumed;
      }
      var parts := line.value;
      if Lower(parts.method_) == "connect" {
        var split := SplitAuthority(parts.target, None);
        r := if split.None? then Err(ReadError(Some(400)))
             else Ok(Connect(HostToTarget(split.value.0, split.value.1)));
        return;
      }
      var target := ParseTarget(parts.target);
      if target.None? {
        return Err(ReadError(Some(400))), consumed;
      }
      var headers := SplitHeaderLines(HeaderBlockOf(head));
      if headers.None? {
        return Err(ReadError(Some(400))), consumed;
      }
      var (authority, path) := target.value;
      var (host, port) := SplitAuthority(authority, Some(80)).value;
      var out := WriteOriginHead(parts.method_, path, parts.version, authority, headers.value);
      r := Ok(Forward(HostToTarget(host, port), out));
  }
}
