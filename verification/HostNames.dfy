/** Which texts are IP literals and which host names are accepted, told without the
    order in which the code looks at them. */
module HostNames {
  import opened Options
  import opened Text
  import opened Authority

  // ---- IP literals -----------------------------------------------------------------------------

  /** An octet is a number up to 255 in decimal. */
  lemma OctetExact(s: string)
    ensures IsOctet(s) <==> exists n: nat :: n <= 255 && s == Decimal(n)
  {
    if IsOctet(s) {
      DecimalOfValue(s);
      assert Value(s) <= 255 && s == Decimal(Value(s));
    }
    forall n: nat | n <= 255 && s == Decimal(n) ensures IsOctet(s) {
      SmallDecimal(n);
    }
  }

  lemma SmallDecimal(n: nat)
    requires n <= 255
    ensures IsOctet(Decimal(n))
  {
    if n >= 10 {
      assert |Decimal(n)| == |Decimal(n / 10)| + 1;
      if n >= 100 {
        assert |Decimal(n / 10)| == |Decimal(n / 100)| + 1 && |Decimal(n / 100)| == 1;
      }
    }
  }

  /** Digits without a leading zero are the decimal of their value. */
  lemma {:induction false} DecimalOfValue(s: string)
    requires s != "" && AllDigits(s) && (|s| > 1 ==> s[0] != '0')
    ensures Decimal(Value(s)) == s
  {
    var last := |s| - 1;
    if last > 0 {
      var before := s[..last];
      DecimalOfValue(before);
      PositiveValue(before);
      assert Value(s) == 10 * Value(before) + DigitValue(s[last]);
      assert s == before + [s[last]];
    }
  }

  lemma {:induction false} PositiveValue(s: string)
    requires s != "" && AllDigits(s) && s[0] != '0'
    ensures Value(s) > 0
  {
    if |s| > 1 {
      PositiveValue(s[..|s| - 1]);
    }
  }

  /** Four numbers up to 255 with dots between them. */
  predicate Dotted(s: string, a: nat, b: nat, c: nat, d: nat) {
    && a <= 255 && b <= 255 && c <= 255 && d <= 255
    && s == Decimal(a) + "." + (Decimal(b) + "." + (Decimal(c) + "." + Decimal(d)))
  }

  lemma FourJoined(a: string, b: string, c: string, d: string)
    ensures Join([a, b, c, d], '.') == a + "." + (b + "." + (c + "." + d))
  {
    JoinCons(c, [d], '.');
    JoinCons(b, [c, d], '.');
    JoinCons(a, [b, c, d], '.');
    assert [c] + [d] == [c, d] && [b] + [c, d] == [b, c, d] && [a] + [b, c, d] == [a, b, c, d];
  }

  lemma FourOctets(a: string, b: string, c: string, d: string)
    requires IsOctet(a) && IsOctet(b) && IsOctet(c) && IsOctet(d)
    ensures IsIpv4(a + "." + (b + "." + (c + "." + d)))
  {
    FourJoined(a, b, c, d);
    SplitJoin([a, b, c, d], '.');
  }

  lemma FourParts(s: string) returns (a: string, b: string, c: string, d: string)
    requires IsIpv4(s)
    ensures IsOctet(a) && IsOctet(b) && IsOctet(c) && IsOctet(d) && s == a + "." + (b + "." + (c + "." + d))
  {
    var p := Split(s, '.');
    JoinSplit(s, '.');
    a, b, c, d := p[0], p[1], p[2], p[3];
    assert p == [a, b, c, d];
    FourJoined(a, b, c, d);
  }

  lemma NumberOf(s: string) returns (n: nat)
    requires IsOctet(s)
    ensures n <= 255 && s == Decimal(n)
  {
    OctetExact(s);
    n :| n <= 255 && s == Decimal(n);
  }

  /** An IPv4 literal is such a text. */
  lemma Ipv4Exact(s: string)
    ensures IsIpv4(s) <==> exists a: nat, b: nat, c: nat, d: nat :: Dotted(s, a, b, c, d)
  {
    if IsIpv4(s) {
      var p, q, r, t := FourParts(s);
      var a := NumberOf(p);
      var b := NumberOf(q);
      var c := NumberOf(r);
      var d := NumberOf(t);
      assert Dotted(s, a, b, c, d);
    }
    forall a: nat, b: nat, c: nat, d: nat | Dotted(s, a, b, c, d) ensures IsIpv4(s) {
      SmallDecimal(a);
      SmallDecimal(b);
      SmallDecimal(c);
      SmallDecimal(d);
      FourOctets(Decimal(a), Decimal(b), Decimal(c), Decimal(d));
    }
  }

  /** One to four hexadecimal digits. */
  predicate HexGroup(s: string) {
    1 <= |s| < 5 && forall i :: 0 <= i < |s| ==> '0' <= s[i] <= '9' || 'a' <= s[i] <= 'f' || 'A' <= s[i] <= 'F'
  }

  predicate HexGroups(parts: seq<string>) {
    forall i :: 0 <= i < |parts| ==> HexGroup(parts[i])
  }

  lemma HexGroupsExact(parts: seq<string>)
    ensures HexGroups(parts) <==> AllGroups(parts)
  {
    forall i | 0 <= i < |parts| ensures HexGroup(parts[i]) <==> IsGroup(parts[i]) {
    }
  }

  /** The texts between single colons: all groups, or groups and an IPv4 tail. */
  predicate Groups(s: string, tail: bool, n: nat) {
    if s == "" then n == 0
    else
      var parts := Split(s, ':');
      || (HexGroups(parts) && n == |parts|)
      || (tail && HexGroups(parts[..|parts| - 1]) && IsIpv4(parts[|parts| - 1]) && n == |parts| + 1)
  }

  lemma GroupsExact(s: string, tail: bool, n: nat)
    ensures Groups(s, tail, n) <==> GroupCount(s, tail) == Some(n)
  {
    if s != "" {
      var parts := Split(s, ':');
      var last := |parts| - 1;
      HexGroupsExact(parts);
      HexGroupsExact(parts[..last]);
      if AllGroups(parts) && IsIpv4(parts[last]) {
        assert IsGroup(parts[last]);
        GroupIsNotIpv4(parts[last]);
      }
    }
  }

  lemma GroupIsNotIpv4(s: string)
    requires IsGroup(s)
    ensures !IsIpv4(s)
  {
    assert '.' !in s;
    assert Split(s, '.') == [s];
  }

  /** Where `::` starts. */
  predicate Gap(s: string, i: nat) {
    i + 2 <= |s| && s[i] == ':' && s[i + 1] == ':'
  }

  lemma {:induction false} FirstGap(s: string)
    ensures match DoubleColon(s)
            case None => forall i :: 0 <= i < |s| ==> !Gap(s, i)
            case Some(k) => Gap(s, k) && forall i :: 0 <= i < k ==> !Gap(s, i)
  {
    if |s| >= 2 && !(s[0] == ':' && s[1] == ':') {
      FirstGap(s[1..]);
      forall i | 1 <= i < |s| ensures Gap(s, i) <==> Gap(s[1..], i - 1) {
      }
      assert !Gap(s, 0);
    }
  }

  lemma GapSplit(s: string, i: nat) returns (k: nat)
    requires Gap(s, i)
    ensures k < |Split(s, ':')| - 1 && Split(s, ':')[k] == ""
  {
    var a, b := s[..i], s[i + 2..];
    var rest := [':'] + b;
    assert s == a + [':'] + rest && rest == "" + [':'] + b;
    SplitAtColon(a, rest);
    SplitCons("", ':', b);
    k := |Split(a, ':')|;
    assert Split(s, ':')[k] == ([""] + Split(b, ':'))[0];
  }

  lemma GroupsAreNotEmpty(s: string, tail: bool, n: nat, k: nat)
    requires s != "" && Groups(s, tail, n) && k < |Split(s, ':')| - 1
    ensures Split(s, ':')[k] != ""
  {
    var parts := Split(s, ':');
    assert parts[..|parts| - 1][k] == parts[k];
    assert HexGroup(parts[k]);
  }

  /** Groups never hold a gap. */
  lemma NoGapInGroups(s: string, tail: bool, n: nat, i: nat)
    requires Groups(s, tail, n)
    ensures !Gap(s, i)
  {
    if Gap(s, i) {
      var k := GapSplit(s, i);
      GroupsAreNotEmpty(s, tail, n, k);
    }
  }

  lemma Regroup<T>(a: seq<T>, b: seq<T>, c: seq<T>)
    ensures (a + b) + c == a + (b + c)
  {
  }

  lemma {:induction false} SplitAtColon(a: string, b: string)
    ensures Split(a + [':'] + b, ':') == Split(a, ':') + Split(b, ':')
    decreases |a|
  {
    match IndexOf(a, ':')
    case None => SplitCons(a, ':', b);
    case Some(i) =>
      var first, rest := a[..i], a[i + 1..];
      assert a == first + [':'] + rest;
      SplitAtColon(rest, b);
      SplitMore(first, rest, b);
  }

  lemma SplitMore(first: string, rest: string, b: string)
    requires ':' !in first && Split(rest + [':'] + b, ':') == Split(rest, ':') + Split(b, ':')
    ensures Split(first + [':'] + rest + [':'] + b, ':') == Split(first + [':'] + rest, ':') + Split(b, ':')
  {
    Regroup(first + [':'], rest, [':'] + b);
    assert first + [':'] + rest + [':'] + b == first + [':'] + (rest + [':'] + b);
    SplitCons(first, ':', rest + [':'] + b);
    SplitCons(first, ':', rest);
    Regroup([first], Split(rest, ':'), Split(b, ':'));
  }

  /** Groups before and after a gap, seven at most. */
  predicate Around(s: string, i: nat, m: nat, n: nat) {
    Gap(s, i) && Groups(s[..i], false, m) && Groups(s[i + 2..], true, n) && m + n <= 7
  }

  /** The definition's test at a gap. */
  predicate CountsFit(s: string, k: nat)
    requires Gap(s, k)
  {
    var head, tail := GroupCount(s[..k], false), GroupCount(s[k + 2..], true);
    head.Some? && tail.Some? && head.value + tail.value <= 7
  }

  lemma FitIsAround(s: string, k: nat) returns (m: nat, n: nat)
    requires Gap(s, k) && CountsFit(s, k)
    ensures Around(s, k, m, n)
  {
    m, n := GroupCount(s[..k], false).value, GroupCount(s[k + 2..], true).value;
    GroupsExact(s[..k], false, m);
    GroupsExact(s[k + 2..], true, n);
  }

  lemma AroundFits(s: string, k: nat, m: nat, n: nat)
    requires Around(s, k, m, n)
    ensures CountsFit(s, k)
  {
    GroupsExact(s[..k], false, m);
    GroupsExact(s[k + 2..], true, n);
  }

  lemma NoGapNoAround(s: string, i: nat, m: nat, n: nat)
    requires forall j :: 0 <= j < |s| ==> !Gap(s, j)
    ensures !Around(s, i, m, n)
  {
    if i < |s| {
      assert !Gap(s, i);
    }
  }

  lemma WithGap(s: string, k: nat)
    requires Gap(s, k) && forall j :: 0 <= j < k ==> !Gap(s, j)
    ensures CountsFit(s, k) <==> exists i: nat, m: nat, n: nat :: Around(s, i, m, n)
  {
    if CountsFit(s, k) {
      var m, n := FitIsAround(s, k);
    }
    forall i: nat, m: nat, n: nat | Around(s, i, m, n) ensures CountsFit(s, k) {
      OnlyGap(s, k, i, m, n);
      AroundFits(s, k, m, n);
    }
  }

  /** An IPv6 literal is eight groups, or at most seven around one `::`; an IPv4 tail
      counts as two. */
  lemma Ipv6Exact(s: string)
    ensures IsIpv6(s) <==> Groups(s, true, 8) || exists i: nat, m: nat, n: nat :: Around(s, i, m, n)
  {
    FirstGap(s);
    match DoubleColon(s)
    case None =>
      GroupsExact(s, true, 8);
      forall i: nat, m: nat, n: nat ensures !Around(s, i, m, n) {
        NoGapNoAround(s, i, m, n);
      }
    case Some(k) =>
      WithGap(s, k);
      if Groups(s, true, 8) {
        NoGapInGroups(s, true, 8, k);
      }
  }

  /** Around groups there is no second gap. */
  lemma OnlyGap(s: string, k: nat, i: nat, m: nat, n: nat)
    requires Gap(s, k) && (forall j :: 0 <= j < k ==> !Gap(s, j))
    requires Gap(s, i) && Groups(s[..i], false, m) && Groups(s[i + 2..], true, n)
    ensures i == k
  {
    if i > k {
      if i == k + 1 {
        assert s[..i] == s[..k] + [':'];
        EndsInColon(s[..k]);
      } else {
        assert Gap(s[..i], k);
        NoGapInGroups(s[..i], false, m, k);
      }
    }
  }

  lemma EndsInColon(a: string)
    ensures !exists m :: Groups(a + [':'], false, m)
  {
    SplitAtColon(a, "");
    assert a + [':'] + "" == a + [':'];
    var parts := Split(a + [':'], ':');
    assert parts[|parts| - 1] == "";
    assert !HexGroup(parts[|parts| - 1]);
  }

  // ---- Host names ------------------------------------------------------------------------------

  /** A label of up to 63 bytes of letters, digits, hyphens and underscores, with no hyphen
      at either end. */
  predicate GoodLabel(part: string) {
    && part != "" && ByteLen(part) <= 63 && part[0] != '-' && part[|part| - 1] != '-'
    && forall i :: 0 <= i < |part| ==> LabelChar(part[i])
  }

  predicate LabelChar(c: char) {
    '0' <= c <= '9' || 'a' <= c <= 'z' || 'A' <= c <= 'Z' || c == '-' || c == '_'
  }

  /** What is wrong with the label. */
  predicate LabelFault(part: string, e: HostError) {
    match e
    case EmptyLabel => part == ""
    case LabelTooLong => ByteLen(part) > 63
    case EdgeHyphen => part != "" && (part[0] == '-' || part[|part| - 1] == '-')
    case BadCharacter => exists i :: 0 <= i < |part| && !LabelChar(part[i])
    case _ => false
  }

  lemma LabelExact(part: string)
    ensures LabelError(part).None? <==> GoodLabel(part)
    ensures LabelError(part).Some? ==> LabelFault(part, LabelError(part).value)
  {
    assert forall i :: 0 <= i < |part| ==> (IsHostChar(part[i]) <==> LabelChar(part[i]));
  }

  /** The first bad label has this fault. */
  predicate FirstFault(parts: seq<string>, e: HostError) {
    exists k :: 0 <= k < |parts| && LabelFault(parts[k], e) && forall i :: 0 <= i < k ==> GoodLabel(parts[i])
  }

  predicate AllGoodLabels(parts: seq<string>) {
    forall i :: 0 <= i < |parts| ==> GoodLabel(parts[i])
  }

  lemma FaultLater(first: string, rest: seq<string>, e: HostError)
    requires GoodLabel(first) && FirstFault(rest, e)
    ensures FirstFault([first] + rest, e)
  {
    var k :| 0 <= k < |rest| && LabelFault(rest[k], e) && forall i :: 0 <= i < k ==> GoodLabel(rest[i]);
    var parts := [first] + rest;
    assert LabelFault(parts[k + 1], e);
  }

  lemma {:induction false} FirstErrorExact(parts: seq<string>)
    ensures match FirstLabelError(parts)
            case None => AllGoodLabels(parts)
            case Some(e) => FirstFault(parts, e)
  {
    if parts != [] {
      LabelExact(parts[0]);
      FirstErrorExact(parts[1..]);
      if LabelError(parts[0]).Some? {
        assert LabelFault(parts[0], LabelError(parts[0]).value);
      } else if FirstLabelError(parts).Some? {
        FaultLater(parts[0], parts[1..], FirstLabelError(parts).value);
        assert parts == [parts[0]] + parts[1..];
      }
    }
  }

  lemma FaultMeansBad(parts: seq<string>, e: HostError)
    requires FirstFault(parts, e)
    ensures !AllGoodLabels(parts)
  {
    var k :| 0 <= k < |parts| && LabelFault(parts[k], e) && forall i :: 0 <= i < k ==> GoodLabel(parts[i]);
    assert !GoodLabel(parts[k]);
  }

  /** The text less one pair of brackets around it. */
  predicate Unbracketed(text: string, host: string) {
    text == "[" + host + "]" || (text == host && !(|text| >= 2 && text[0] == '[' && text[|text| - 1] == ']'))
  }

  lemma BareExact(text: string, host: string)
    ensures Bare(text) == host <==> Unbracketed(text, host)
  {
    if text == "[" + host + "]" {
      assert text[1..|text| - 1] == host;
    }
  }

  predicate GoodName(text: string) {
    text != "" && ByteLen(text) <= 253 && AllGoodLabels(Split(text, '.'))
  }

  lemma LabelsExact(text: string)
    ensures FirstLabelError(Split(text, '.')).None? <==> AllGoodLabels(Split(text, '.'))
    ensures FirstLabelError(Split(text, '.')).Some? ==> FirstFault(Split(text, '.'), FirstLabelError(Split(text, '.')).value)
  {
    FirstErrorExact(Split(text, '.'));
    if FirstLabelError(Split(text, '.')).Some? {
      FaultMeansBad(Split(text, '.'), FirstLabelError(Split(text, '.')).value);
    }
  }

  /** A trimmed text is accepted as a host if and only if it is an IP literal, perhaps in
      brackets that are taken off, or else a name of good labels of up to 253 bytes. */
  lemma HostExact(text: string, host: string)
    ensures ValidateTrimmed(text) == Ok(host) <==>
              || (text != "" && Unbracketed(text, host) && IsIp(host))
              || (text == host && GoodName(text) && !IsIp(Bare(text)))
  {
    BareExact(text, host);
    LabelsExact(text);
  }

  /** The refusal says why: nothing there, too long, or the first bad label's fault. */
  lemma HostFaultExact(text: string)
    requires ValidateTrimmed(text).Err?
    ensures ValidateTrimmed(text).error.Required? <==> text == ""
    ensures match ValidateTrimmed(text).error
            case Required => text == ""
            case TooLong => ByteLen(text) > 253
            case e => ByteLen(text) <= 253 && FirstFault(Split(text, '.'), e)
  {
    LabelsExact(text);
    if FirstLabelError(Split(text, '.')).Some? {
      NotTooLong(Split(text, '.'), FirstLabelError(Split(text, '.')).value);
    }
  }

  lemma NotTooLong(parts: seq<string>, e: HostError)
    requires FirstFault(parts, e)
    ensures !e.Required? && !e.TooLong?
  {
  }
}
