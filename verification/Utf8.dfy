/** UTF-8 as `std::str::from_utf8` checks it, over one character below 256 per
    byte. */
module Utf8 {

  predicate Cont(s: string, i: nat, low: int, high: int) {
    i < |s| && low <= s[i] as int <= high
  }

  /** Bytes of the leading encoded scalar value, 0 if it is malformed. */
  function LeadLen(s: string): (n: nat)
    requires s != ""
    ensures n <= |s|
    ensures forall i :: 1 <= i < n ==> s[i] as int >= 0x80
  {
    var b := s[0] as int;
    if b < 0x80 then 1
    else if 0xc2 <= b <= 0xdf then (if Cont(s, 1, 0x80, 0xbf) then 2 else 0)
    else if 0xe0 <= b <= 0xef then
      var low := if b == 0xe0 then 0xa0 else 0x80;
      var high := if b == 0xed then 0x9f else 0xbf;
      if Cont(s, 1, low, high) && Cont(s, 2, 0x80, 0xbf) then 3 else 0
    else if 0xf0 <= b <= 0xf4 then
      var low := if b == 0xf0 then 0x90 else 0x80;
      var high := if b == 0xf4 then 0x8f else 0xbf;
      if Cont(s, 1, low, high) && Cont(s, 2, 0x80, 0xbf) && Cont(s, 3, 0x80, 0xbf) then 4 else 0
    else 0
  }

  predicate ValidUtf8(s: string)
    decreases |s|
  {
    s == "" || (LeadLen(s) > 0 && ValidUtf8(s[LeadLen(s)..]))
  }

  lemma LeadLenExtends(a: string, b: string)
    requires a != "" && LeadLen(a) > 0
    ensures LeadLen(a + b) == LeadLen(a)
  {
  }

  /** Peeling off the first scalar value. */
  lemma ValidPeel(s: string, first: string, rest: string)
    requires s == first + rest && first != "" && LeadLen(first) == |first|
    ensures ValidUtf8(s) <==> ValidUtf8(rest)
  {
    LeadLenExtends(first, rest);
    assert s[|first|..] == rest;
  }

  lemma ValidFirst(s: string) returns (first: string, rest: string)
    requires s != "" && ValidUtf8(s)
    ensures s == first + rest && first != "" && LeadLen(first) == |first| && ValidUtf8(rest)
  {
    first, rest := s[..LeadLen(s)], s[LeadLen(s)..];
    assert LeadLen(first) == |first|;
  }

  lemma Regroup(a: string, b: string, c: string)
    ensures (a + b) + c == a + (b + c)
  {
  }

  /** After a valid prefix, validity is that of the rest. */
  lemma {:induction false} ValidConcat(a: string, b: string)
    requires ValidUtf8(a)
    ensures ValidUtf8(a + b) <==> ValidUtf8(b)
    decreases |a|
  {
    if a == "" {
      assert a + b == b;
    } else {
      var first, rest := ValidFirst(a);
      ValidConcat(rest, b);
      Regroup(first, rest, b);
      ValidPeel(a + b, first, rest + b);
    }
  }

  lemma LeadLenCut(a: string, b: string)
    requires a != "" && b != "" && b[0] as int < 0x80 && LeadLen(a + b) > 0
    ensures LeadLen(a) == LeadLen(a + b) <= |a|
  {
    var n := LeadLen(a + b);
    assert (a + b)[|a|] == b[0];
    assert forall i :: 0 <= i < n ==> (a + b)[i] == a[i];
  }

  /** Valid text can be cut before an ASCII byte. */
  lemma {:induction false} ValidCut(a: string, b: string)
    requires b != "" && b[0] as int < 0x80 && ValidUtf8(a + b)
    ensures ValidUtf8(a) && ValidUtf8(b)
    decreases |a|
  {
    if a == "" {
      assert a + b == b;
    } else {
      var n := LeadLen(a + b);
      LeadLenCut(a, b);
      assert (a + b)[n..] == a[n..] + b;
      ValidCut(a[n..], b);
    }
  }

  // ---- Lossy decoding ----------------------------------------------------------------------

  /** The encoded replacement character. */
  const REPLACEMENT := [0xef as char, 0xbf as char, 0xbd as char]

  /** How much of a malformed start is replaced by one replacement character: as many
      bytes as could begin a scalar value, and at least one. */
  function BadLen(s: string): (n: nat)
    requires s != ""
    ensures 1 <= n <= |s|
  {
    var b := s[0] as int;
    if 0xe0 <= b <= 0xef then
      var low := if b == 0xe0 then 0xa0 else 0x80;
      var high := if b == 0xed then 0x9f else 0xbf;
      if Cont(s, 1, low, high) then 2 else 1
    else if 0xf0 <= b <= 0xf4 then
      var low := if b == 0xf0 then 0x90 else 0x80;
      var high := if b == 0xf4 then 0x8f else 0xbf;
      if !Cont(s, 1, low, high) then 1 else if Cont(s, 2, 0x80, 0xbf) then 3 else 2
    else 1
  }

  /** `String::from_utf8_lossy`, still as bytes. */
  function Lossy(s: string): string
    decreases |s|
  {
    if s == "" then ""
    else if LeadLen(s) > 0 then s[..LeadLen(s)] + Lossy(s[LeadLen(s)..])
    else REPLACEMENT + Lossy(s[BadLen(s)..])
  }

  lemma ReplacementLeads()
    ensures LeadLen(REPLACEMENT) == |REPLACEMENT|
  {
  }

  /** How the first step goes: a scalar value is kept, anything else replaced. */
  lemma LossyFirst(s: string) returns (first: string, rest: string, kept: bool)
    requires s != ""
    ensures |rest| < |s| && first != "" && LeadLen(first) == |first| && Lossy(s) == first + Lossy(rest)
    ensures kept ==> s == first + rest
    ensures !kept ==> !ValidUtf8(s) && LeadLen(s) == 0
  {
    kept := LeadLen(s) > 0;
    if kept {
      first, rest := s[..LeadLen(s)], s[LeadLen(s)..];
      assert LeadLen(first) == |first|;
    } else {
      first, rest := REPLACEMENT, s[BadLen(s)..];
      ReplacementLeads();
    }
  }

  lemma NotItself(s: string, first: string, tail: string)
    requires s != "" && LeadLen(s) == 0 && first != "" && LeadLen(first) == |first|
    ensures first + tail != s
  {
    LeadLenExtends(first, tail);
  }

  /** The result is always well formed, and unchanged exactly if the input was. */
  lemma {:induction false} LossyExact(s: string)
    ensures ValidUtf8(Lossy(s))
    ensures Lossy(s) == s <==> ValidUtf8(s)
    decreases |s|
  {
    if s != "" {
      var first, rest, kept := LossyFirst(s);
      var tail := Lossy(rest);
      LossyExact(rest);
      ValidPeel(first + tail, first, tail);
      if kept {
        ValidPeel(s, first, rest);
        SameTail(first, tail, rest);
      } else {
        NotItself(s, first, tail);
      }
    }
  }

  lemma SameTail(first: string, a: string, b: string)
    ensures first + a == first + b <==> a == b
  {
    assert (first + a)[|first|..] == a && (first + b)[|first|..] == b;
  }

  predicate Ascii(s: string) {
    forall i :: 0 <= i < |s| ==> s[i] as int < 0x80
  }

  lemma {:induction false} AsciiValid(s: string)
    requires Ascii(s)
    ensures ValidUtf8(s)
    decreases |s|
  {
    if s != "" {
      AsciiValid(s[1..]);
    }
  }

  // ---- Cut into scalar values ------------------------------------------------------------

  /** `ends[i]` to `ends[i + 1]` is one encoded scalar value. */
  predicate Segment(s: string, ends: seq<nat>, i: nat) {
    i + 1 < |ends| && ends[i] < ends[i + 1] <= |s| && LeadLen(s[ends[i]..]) == ends[i + 1] - ends[i]
  }

  predicate Segments(s: string, ends: seq<nat>) {
    && ends != [] && ends[0] == 0 && ends[|ends| - 1] == |s|
    && forall i :: 0 <= i < |ends| - 1 ==> Segment(s, ends, i)
  }

  /** The text can be cut into encoded scalar values. */
  ghost predicate Encoded(s: string) {
    exists ends :: Segments(s, ends)
  }

  function Shift(ends: seq<nat>, n: nat): (r: seq<nat>)
    ensures |r| == |ends| && forall i :: 0 <= i < |ends| ==> r[i] == ends[i] + n
  {
    seq(|ends|, i requires 0 <= i < |ends| => ends[i] + n)
  }

  lemma SegmentsOf(s: string, rest: seq<nat>)
    requires s != "" && LeadLen(s) > 0 && Segments(s[LeadLen(s)..], rest)
    ensures Segments(s, [0] + Shift(rest, LeadLen(s)))
  {
    var n := LeadLen(s);
    var ends := [0] + Shift(rest, n);
    forall i | 0 <= i < |ends| - 1 ensures Segment(s, ends, i) {
      if i == 0 {
        assert s[0..] == s;
      } else {
        assert Segment(s[n..], rest, i - 1);
        assert s[n..][rest[i - 1]..] == s[ends[i]..];
      }
    }
  }

  function Unshift(ends: seq<nat>, n: nat): (r: seq<nat>)
    requires forall i :: 0 <= i < |ends| ==> ends[i] >= n
    ensures |r| == |ends| && forall i :: 0 <= i < |ends| ==> r[i] == ends[i] - n
  {
    seq(|ends|, i requires 0 <= i < |ends| => ends[i] - n)
  }

  lemma {:induction false} EndsFrom(s: string, ends: seq<nat>, i: nat)
    requires Segments(s, ends) && 1 <= i < |ends|
    ensures ends[i] >= ends[1]
  {
    if i > 1 {
      EndsFrom(s, ends, i - 1);
      assert Segment(s, ends, i - 1);
    }
  }

  lemma SegmentsRest(s: string, ends: seq<nat>) returns (rest: seq<nat>)
    requires Segments(s, ends) && s != ""
    ensures LeadLen(s) > 0 && Segments(s[LeadLen(s)..], rest) && |rest| < |ends|
  {
    assert Segment(s, ends, 0);
    assert s[0..] == s;
    var n := ends[1];
    forall i | 1 <= i < |ends| ensures ends[i] >= n {
      EndsFrom(s, ends, i);
    }
    rest := Unshift(ends[1..], n);
    forall i | 0 <= i < |rest| - 1 ensures Segment(s[n..], rest, i) {
      assert Segment(s, ends, i + 1);
      assert s[n..][rest[i]..] == s[ends[i + 1]..];
    }
  }

  lemma {:induction false} ValidIsEncoded(s: string)
    requires ValidUtf8(s)
    ensures Encoded(s)
    decreases |s|
  {
    if s == "" {
      assert Segments(s, [0]);
    } else {
      ValidIsEncoded(s[LeadLen(s)..]);
      var rest :| Segments(s[LeadLen(s)..], rest);
      SegmentsOf(s, rest);
    }
  }

  lemma {:induction false} SegmentsAreValid(s: string, ends: seq<nat>)
    requires Segments(s, ends)
    ensures ValidUtf8(s)
    decreases |ends|
  {
    if s != "" {
      var rest := SegmentsRest(s, ends);
      SegmentsAreValid(s[LeadLen(s)..], rest);
    }
  }

  /** The one-pass check accepts exactly the text that can be cut into encoded
      scalar values. */
  lemma ValidIffEncoded(s: string)
    ensures ValidUtf8(s) <==> Encoded(s)
  {
    if ValidUtf8(s) {
      ValidIsEncoded(s);
    }
    if Encoded(s) {
      var ends :| Segments(s, ends);
      SegmentsAreValid(s, ends);
    }
  }

  lemma EncodedJoin(a: string, b: string)
    requires Encoded(a) && Encoded(b)
    ensures Encoded(a + b)
  {
    ValidIffEncoded(a);
    ValidIffEncoded(b);
    ValidConcat(a, b);
    ValidIsEncoded(a + b);
  }

  lemma EncodedCut(a: string, b: string)
    requires Encoded(a + b) && (b == "" || b[0] as int < 0x80)
    ensures Encoded(a) && Encoded(b)
  {
    ValidIffEncoded(a + b);
    if b == "" {
      assert a + b == a;
      ValidIsEncoded("");
    } else {
      ValidCut(a, b);
      ValidIsEncoded(a);
      ValidIsEncoded(b);
    }
  }

  lemma EncodedAscii(s: string)
    requires Ascii(s)
    ensures Encoded(s)
  {
    AsciiValid(s);
    ValidIsEncoded(s);
  }

  lemma EncodedAfterAscii(a: string, b: string)
    requires Ascii(a) && Encoded(a + b)
    ensures Encoded(b)
  {
    ValidIffEncoded(a + b);
    AsciiValid(a);
    ValidConcat(a, b);
    ValidIsEncoded(b);
  }
}
