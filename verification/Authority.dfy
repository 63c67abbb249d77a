/** `host[:port]` text: the printer and the validator the forwards use, and the
    parser the HTTP front-end uses. */
module Authority {
  import opened Options
  import opened Records
  import opened Text

  // ---- IP literals, as the standard library parses them ------------------------------

  /** One to three digits, no leading zero, at most 255. */
  predicate IsOctet(s: string) {
    && 1 <= |s| <= 3 && AllDigits(s)
    && (|s| > 1 ==> s[0] != '0')
    && Value(s) <= 255
  }

  predicate IsIpv4(s: string) {
    var parts := Split(s, '.');
    |parts| == 4 && forall i :: 0 <= i < 4 ==> IsOctet(parts[i])
  }

  predicate IsGroup(s: string) {
    1 <= |s| <= 4 && forall i :: 0 <= i < |s| ==> IsHexDigit(s[i])
  }

  predicate AllGroups(parts: seq<string>) {
    forall i :: 0 <= i < |parts| ==> IsGroup(parts[i])
  }

  /** How many 16-bit groups the text spells, an IPv4 tail counting as two. */
  function GroupCount(s: string, allowIpv4: bool): Option<nat> {
    if s == "" then Some(0)
    else
      var parts := Split(s, ':');
      var last := parts[|parts| - 1];
      if AllGroups(parts) then Some(|parts|)
      else if allowIpv4 && AllGroups(parts[..|parts| - 1]) && IsIpv4(last) then Some(|parts| + 1)
      else None
  }

  /** Where the first `::` starts. */
  function DoubleColon(s: string): (r: Option<nat>)
    ensures r.Some? ==> r.value + 1 < |s| && s[r.value] == ':' && s[r.value + 1] == ':'
  {
    if |s| < 2 then None
    else if s[0] == ':' && s[1] == ':' then Some(0)
    else match DoubleColon(s[1..]) case None => None case Some(i) => Some(i + 1)
  }

  predicate IsIpv6(s: string) {
    match DoubleColon(s)
    case None => GroupCount(s, true) == Some(8)
    case Some(i) =>
      var head, tail := GroupCount(s[..i], false), GroupCount(s[i + 2..], true);
      head.Some? && tail.Some? && head.value + tail.value <= 7
  }

  predicate IsIp(s: string) {
    IsIpv4(s) || IsIpv6(s)
  }

  predicate IpChar(c: char) {
    IsHexDigit(c) || c == ':' || c == '.'
  }

  predicate IpChars(s: string) {
    forall i :: 0 <= i < |s| ==> IpChar(s[i])
  }

  lemma {:induction false} JoinIpChars(parts: seq<string>, c: char)
    requires parts != [] && IpChar(c) && forall i :: 0 <= i < |parts| ==> IpChars(parts[i])
    ensures IpChars(Join(parts, c))
  {
    if |parts| > 1 {
      JoinIpChars(parts[1..], c);
    }
  }

  lemma Ipv4Chars(s: string)
    requires IsIpv4(s)
    ensures IpChars(s) && ':' !in s && s != ""
  {
    var parts := Split(s, '.');
    JoinSplit(s, '.');
    JoinIpChars(parts, '.');
    forall i | 0 <= i < |parts| ensures ':' !in parts[i] {
      assert IsOctet(parts[i]);
    }
    JoinAvoids(parts, '.', ':');
  }

  lemma {:induction false} JoinAvoids(parts: seq<string>, c: char, d: char)
    requires parts != [] && c != d && forall i :: 0 <= i < |parts| ==> d !in parts[i]
    ensures d !in Join(parts, c)
  {
    if |parts| > 1 {
      JoinAvoids(parts[1..], c, d);
    }
  }

  lemma GroupChars(s: string, allowIpv4: bool)
    requires GroupCount(s, allowIpv4).Some?
    ensures IpChars(s)
  {
    if s != "" {
      var parts := Split(s, ':');
      if !AllGroups(parts) {
        Ipv4Chars(parts[|parts| - 1]);
        assert forall i :: 0 <= i < |parts| - 1 ==> parts[..|parts| - 1][i] == parts[i];
      }
      JoinSplit(s, ':');
      JoinIpChars(parts, ':');
    }
  }

  lemma IpCharsAround(s: string, i: nat)
    requires i + 2 <= |s| && s[i] == ':' && s[i + 1] == ':' && IpChars(s[..i]) && IpChars(s[i + 2..])
    ensures IpChars(s)
  {
    var head, tail := s[..i], s[i + 2..];
    forall k | 0 <= k < |s| ensures IpChar(s[k]) {
      assert k < i ==> s[k] == head[k];
      assert k >= i + 2 ==> s[k] == tail[k - i - 2];
    }
  }

  lemma Ipv6Chars(s: string)
    requires IsIpv6(s)
    ensures s != "" && IpChars(s)
  {
    match DoubleColon(s)
    case None => GroupChars(s, true);
    case Some(i) =>
      GroupChars(s[..i], false);
      GroupChars(s[i + 2..], true);
      IpCharsAround(s, i);
  }

  /** An IP literal is made of hex digits, colons and dots. */
  lemma IpLiteralChars(s: string)
    requires IsIp(s)
    ensures s != "" && IpChars(s)
  {
    if IsIpv4(s) {
      Ipv4Chars(s);
    } else {
      Ipv6Chars(s);
    }
  }

  // ---- Validating and printing ---------------------------------------------------------

  datatype HostError = Required | TooLong | EmptyLabel | LabelTooLong | EdgeHyphen | BadCharacter

  predicate IsHostChar(c: char) {
    IsDigit(c) || 'a' <= c <= 'z' || 'A' <= c <= 'Z' || c == '-' || c == '_'
  }

  function LabelError(part: string): Option<HostError> {
    if part == "" then Some(EmptyLabel)
    else if ByteLen(part) > 63 then Some(LabelTooLong)
    else if part[0] == '-' || part[|part| - 1] == '-' then Some(EdgeHyphen)
    else if exists i :: 0 <= i < |part| && !IsHostChar(part[i]) then Some(BadCharacter)
    else None
  }

  function FirstLabelError(parts: seq<string>): Option<HostError> {
    if parts == [] then None
    else if LabelError(parts[0]).Some? then LabelError(parts[0])
    else FirstLabelError(parts[1..])
  }

  function Bare(host: string): string {
    if |host| >= 2 && host[0] == '[' && host[|host| - 1] == ']' then host[1..|host| - 1] else host
  }

  function ValidateRemoteHost(input: string): Result<string, HostError> {
    ValidateTrimmed(Trim(input))
  }

  function ValidateTrimmed(host: string): Result<string, HostError> {
    if host == "" then Err(Required)
    else if IsIp(Bare(host)) then Ok(Bare(host))
    else if ByteLen(host) > 253 then Err(TooLong)
    else match FirstLabelError(Split(host, '.'))
      case Some(e) => Err(e)
      case None => Ok(host)
  }

  function FormatHostPort(host: string, port: Port): string {
    if ':' in host then "[" + host + "]" + (":" + Decimal(port)) else host + (":" + Decimal(port))
  }

  // ---- Parsing -------------------------------------------------------------------------

  /** `str::parse::<u16>`: a leading `+` and leading zeros are accepted. */
  function ParseU16(s: string): Option<Port> {
    var digits := if s != "" && s[0] == '+' then s[1..] else s;
    if digits != "" && AllDigits(digits) && Value(digits) <= 0xffff then Some(Value(digits)) else None
  }

  /** Digits with a value that fits, perhaps after a plus sign. */
  lemma ParseU16Exact(s: string, p: Port)
    ensures ParseU16(s) == Some(p) <==>
              exists sign, digits :: (sign == "" || sign == "+") && s == sign + digits
                                     && digits != "" && AllDigits(digits) && Value(digits) == p
  {
    var sign, digits := if s != "" && s[0] == '+' then "+" else "", if s != "" && s[0] == '+' then s[1..] else s;
    assert s == sign + digits;
    forall a, b | (a == "" || a == "+") && s == a + b && b != "" && AllDigits(b) ensures b == digits {
      assert b[0] != '+';
    }
  }

  /** The host text and the port text, before either is checked. */
  function SplitHostPort(authority: string): Option<(string, Option<string>)> {
    if authority != "" && authority[0] == '[' then
      var rest := authority[1..];
      match IndexOf(rest, ']')
      case None => None
      case Some(i) =>
        var after := rest[i + 1..];
        if after == "" then Some((rest[..i], None))
        else if after[0] == ':' then Some((rest[..i], Some(after[1..])))
        else None
    else
      match LastIndexOf(authority, ':')
      case None => Some((authority, None))
      case Some(i) => if ':' in authority[..i] then None else Some((authority[..i], Some(authority[i + 1..])))
  }

  function SplitAuthority(authority: string, defaultPort: Option<Port>): (r: Option<(string, Port)>) {
    match SplitHostPort(authority)
    case None => None
    case Some((host, portText)) =>
      if host == "" then None
      else
        var port := if portText.Some? then ParseU16(portText.value) else defaultPort;
        if port.None? || (portText.Some? && port == Some(0)) then None else Some((host, port.value))
  }

  /** The authorities the parser is meant for, with no mention of how it scans:
      `host`, `host:port`, `[host]` or `[host]:port`, where an unbracketed host has
      no colon and a bracketed one no closing bracket. */
  predicate Spells(authority: string, host: string, portText: Option<string>) {
    var tail := if portText.Some? then ":" + portText.value else "";
    || (authority == host + tail && ':' !in host && (authority == "" || authority[0] != '[')
        && (portText.Some? ==> ':' !in portText.value))
    || (authority == "[" + host + "]" + tail && ']' !in host)
  }

  lemma SpellsPlain(host: string, portText: Option<string>)
    requires ':' !in host && (portText.Some? ==> ':' !in portText.value)
    requires var a := host + (if portText.Some? then ":" + portText.value else ""); a == "" || a[0] != '['
    ensures SplitHostPort(host + (if portText.Some? then ":" + portText.value else "")) == Some((host, portText))
  {
    if portText.Some? {
      var a := host + ":" + portText.value;
      LastSeparator(host, ':', portText.value);
      assert a[..|host|] == host && a[|host| + 1..] == portText.value;
      assert a == host + (":" + portText.value);
    } else {
      assert host + "" == host;
    }
  }

  lemma SpellsBracketed(host: string, portText: Option<string>)
    requires ']' !in host
    ensures var tail := if portText.Some? then ":" + portText.value else "";
            SplitHostPort("[" + host + "]" + tail) == Some((host, portText))
  {
    var tail := if portText.Some? then ":" + portText.value else "";
    var a := "[" + host + "]" + tail;
    var rest := host + "]" + tail;
    assert a[1..] == rest;
    FirstSeparator(host, ']', tail);
    assert rest[..|host|] == host && rest[|host| + 1..] == tail;
    if portText.Some? {
      assert tail[1..] == portText.value;
    }
  }

  lemma SplitHostPortSpells(authority: string)
    requires SplitHostPort(authority).Some?
    ensures var (host, portText) := SplitHostPort(authority).value; Spells(authority, host, portText)
  {
    if authority != "" && authority[0] == '[' {
      var rest := authority[1..];
      var i := IndexOf(rest, ']').value;
      var after := rest[i + 1..];
      assert after == "" || after == ":" + after[1..];
      assert authority == "[" + rest[..i] + "]" + after;
    } else if ':' in authority {
      var i := LastIndexOf(authority, ':').value;
      assert authority == authority[..i] + (":" + authority[i + 1..]);
    } else {
      assert authority == authority + "";
    }
  }

  /** The parser accepts exactly the spelled authorities with a non-empty host and
      a port that is a non-zero `u16`, or missing with a default to fall back on. */
  lemma SplitAuthorityExact(authority: string, defaultPort: Option<Port>, host: string, port: Port)
    ensures SplitAuthority(authority, defaultPort) == Some((host, port))
            <==> host != "" && exists portText ::
                   && Spells(authority, host, portText)
                   && if portText.Some? then ParseU16(portText.value) == Some(port) && port != 0
                      else defaultPort == Some(port)
  {
    if SplitAuthority(authority, defaultPort) == Some((host, port)) {
      SplitHostPortSpells(authority);
    }
    forall portText | Spells(authority, host, portText)
      ensures SplitHostPort(authority) == Some((host, portText))
    {
      if authority == "[" + host + "]" + (if portText.Some? then ":" + portText.value else "") && ']' !in host {
        SpellsBracketed(host, portText);
      } else {
        SpellsPlain(host, portText);
      }
    }
  }

  // ---- The printer and the parser undo each other ----------------------------------------

  lemma {:induction false} NoLabelError(parts: seq<string>, i: nat)
    requires FirstLabelError(parts).None? && i < |parts|
    ensures LabelError(parts[i]).None?
  {
    if i > 0 {
      NoLabelError(parts[1..], i - 1);
    }
  }

  predicate HostNameChars(s: string) {
    forall i :: 0 <= i < |s| ==> IsHostChar(s[i]) || s[i] == '.'
  }

  lemma {:induction false} JoinHostNameChars(parts: seq<string>)
    requires parts != [] && forall i :: 0 <= i < |parts| ==> HostNameChars(parts[i])
    ensures HostNameChars(Join(parts, '.'))
  {
    if |parts| > 1 {
      JoinHostNameChars(parts[1..]);
    }
  }

  /** An accepted host is an IP literal or made of host-name characters; either
      way it holds no bracket, no white space and nothing but its own colons. */
  lemma AcceptedHost(input: string)
    requires ValidateRemoteHost(input).Ok?
    ensures var host := ValidateRemoteHost(input).value;
            host != "" && ((IsIp(host) && IpChars(host)) || HostNameChars(host))
  {
    var trimmed := Trim(input);
    if IsIp(Bare(trimmed)) {
      IpLiteralChars(Bare(trimmed));
    } else {
      var parts := Split(trimmed, '.');
      forall i | 0 <= i < |parts| ensures HostNameChars(parts[i]) {
        NoLabelError(parts, i);
      }
      JoinHostNameChars(parts);
      JoinSplit(trimmed, '.');
    }
  }

  lemma AcceptedHostIsPlain(input: string)
    requires ValidateRemoteHost(input).Ok?
    ensures var host := ValidateRemoteHost(input).value; Black(host) && Bare(host) == host
  {
    AcceptedHost(input);
  }

  /** A validated host is stored in a form that validates to itself. */
  lemma ValidateIdempotent(input: string)
    requires ValidateRemoteHost(input).Ok?
    ensures ValidateRemoteHost(ValidateRemoteHost(input).value) == ValidateRemoteHost(input)
  {
    AcceptedHostIsPlain(input);
    var host := ValidateRemoteHost(input).value;
    TrimOfBlackIsSame(host);
    assert IsIp(host) || host == Trim(input);
  }

  lemma DecimalParses(port: Port)
    ensures ParseU16(Decimal(port)) == Some(port) && ':' !in Decimal(port)
  {
  }

  lemma PrintedParses(host: string, port: Port, defaultPort: Option<Port>)
    requires host != "" && '[' !in host && ']' !in host && port != 0
    ensures SplitAuthority(FormatHostPort(host, port), defaultPort) == Some((host, port))
  {
    var text := Decimal(port);
    DecimalParses(port);
    if ':' in host {
      SpellsBracketed(host, Some(text));
    } else {
      SpellsPlain(host, Some(text));
    }
  }

  /** Printing an accepted host with a port and parsing it back gives both again,
      bracketed IPv6 included, whatever the default port. */
  lemma PrintThenParse(input: string, port: Port, defaultPort: Option<Port>)
    requires ValidateRemoteHost(input).Ok? && port != 0
    ensures var host := ValidateRemoteHost(input).value;
            SplitAuthority(FormatHostPort(host, port), defaultPort) == Some((host, port))
  {
    AcceptedHost(input);
    PrintedParses(ValidateRemoteHost(input).value, port, defaultPort);
  }

  /** So the printed endpoint identifies host and port. */
  lemma PrintInjective(a: string, p: Port, b: string, q: Port)
    requires ValidateRemoteHost(a).Ok? && ValidateRemoteHost(b).Ok? && p != 0 && q != 0
    requires FormatHostPort(ValidateRemoteHost(a).value, p) == FormatHostPort(ValidateRemoteHost(b).value, q)
    ensures ValidateRemoteHost(a) == ValidateRemoteHost(b) && p == q
  {
    PrintThenParse(a, p, None);
    PrintThenParse(b, q, None);
  }
}
