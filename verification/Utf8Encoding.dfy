/** The UTF-8 check against an encoder: what it accepts is exactly what some text of
    Unicode scalar values encodes to. */
module Utf8Encoding {
  import opened Text
  import opened Utf8

  function ByteOf(n: int): char
    requires 0 <= n < 256
  {
    n as char
  }

  function EncodeChar(c: char): (bytes: string)
    ensures |bytes| == CharLen(c)
  {
    var n := c as int;
    if n < 0x80 then [c]
    else if n < 0x800 then [ByteOf(0xc0 + n / 64), ByteOf(0x80 + n % 64)]
    else if n < 0x10000 then [ByteOf(0xe0 + n / 4096), ByteOf(0x80 + n / 64 % 64), ByteOf(0x80 + n % 64)]
    else [ByteOf(0xf0 + n / 262144), ByteOf(0x80 + n / 4096 % 64), ByteOf(0x80 + n / 64 % 64), ByteOf(0x80 + n % 64)]
  }

  function Encode(text: string): string {
    if text == "" then "" else EncodeChar(text[0]) + Encode(text[1..])
  }

  lemma EncodedLead(c: char, rest: string)
    ensures LeadLen(EncodeChar(c) + rest) == CharLen(c)
  {
    LeadOfEncoded(c);
    LeadLenExtends(EncodeChar(c), rest);
  }

  lemma LeadOfEncoded(c: char)
    ensures LeadLen(EncodeChar(c)) == CharLen(c)
  {
  }

  lemma {:induction false} EncodingIsValid(text: string)
    ensures ValidUtf8(Encode(text))
  {
    if text != "" {
      var first, rest := EncodeChar(text[0]), Encode(text[1..]);
      EncodingIsValid(text[1..]);
      EncodedLead(text[0], rest);
      assert (first + rest)[|first|..] == rest;
    }
  }

  lemma DecodeTwo(s: string) returns (c: char)
    requires s != "" && LeadLen(s) == 2
    ensures EncodeChar(c) == s[..2]
  {
    c := ((s[0] as int - 0xc0) * 64 + (s[1] as int - 0x80)) as char;
  }

  lemma DecodeThree(s: string) returns (c: char)
    requires s != "" && LeadLen(s) == 3
    ensures EncodeChar(c) == s[..3]
  {
    c := ((s[0] as int - 0xe0) * 4096 + (s[1] as int - 0x80) * 64 + (s[2] as int - 0x80)) as char;
  }

  /** The base-64 digits of a sum are what it was summed from. */
  lemma Digits(a: nat, b: nat, c: nat, d: nat, n: nat)
    requires b < 64 && c < 64 && d < 64 && n == a * 262144 + b * 4096 + c * 64 + d
    ensures n % 64 == d && n / 64 % 64 == c && n / 4096 % 64 == b && n / 262144 == a
  {
    assert n / 64 == a * 4096 + b * 64 + c;
    assert n / 4096 == a * 64 + b;
  }

  lemma DecodeFour(s: string) returns (c: char)
    requires s != "" && LeadLen(s) == 4
    ensures EncodeChar(c) == s[..4]
  {
    var w, x, y, z := s[0] as int - 0xf0, s[1] as int - 0x80, s[2] as int - 0x80, s[3] as int - 0x80;
    var n := w * 262144 + x * 4096 + y * 64 + z;
    Digits(w, x, y, z, n);
    c := n as char;
  }

  lemma DecodeLead(s: string) returns (c: char)
    requires s != "" && LeadLen(s) > 0
    ensures EncodeChar(c) == s[..LeadLen(s)]
  {
    match LeadLen(s)
    case 1 => c := s[0];
    case 2 => c := DecodeTwo(s);
    case 3 => c := DecodeThree(s);
    case _ => c := DecodeFour(s);
  }

  lemma {:induction false} ValidDecodes(s: string) returns (text: string)
    requires ValidUtf8(s)
    ensures Encode(text) == s
    decreases |s|
  {
    if s == "" {
      text := "";
    } else {
      var n := LeadLen(s);
      var c := DecodeLead(s);
      var rest := ValidDecodes(s[n..]);
      text := [c] + rest;
      assert text[1..] == rest && s == s[..n] + s[n..];
    }
  }

  /** The check accepts a byte string exactly if it is the encoding of some text. */
  lemma ValidIffEncoding(s: string)
    ensures ValidUtf8(s) <==> exists text :: Encode(text) == s
  {
    if ValidUtf8(s) {
      var text := ValidDecodes(s);
    }
    forall text ensures ValidUtf8(Encode(text)) {
      EncodingIsValid(text);
    }
  }

  // ---- What a replacement character stands for ------------------------------------------------------

  /** The bytes could begin an encoded scalar value. */
  ghost predicate Begins(s: string) {
    exists c :: s <= EncodeChar(c)
  }

  lemma BeginTwo(s: string) returns (c: char)
    requires |s| == 2 && LeadLen(s) == 0 && BadLen(s) == 2
    ensures s <= EncodeChar(c)
  {
    if s[0] as int < 0xf0 {
      c := DecodeLead(s + [0x80 as char]);
      assert (s + [0x80 as char])[..3] == s + [0x80 as char];
    } else {
      var t := s + [0x80 as char, 0x80 as char];
      c := DecodeLead(t);
      assert t[..4] == t;
    }
  }

  lemma BeginThree(s: string) returns (c: char)
    requires |s| == 3 && LeadLen(s) == 0 && BadLen(s) == 3
    ensures s <= EncodeChar(c)
  {
    var t := s + [0x80 as char];
    c := DecodeLead(t);
    assert t[..4] == t;
  }

  lemma BeginsNoLonger(s: string, code: string)
    requires s != "" && LeadLen(s) == 0 && BadLen(s) < |s| && code != "" && LeadLen(code) == |code|
    ensures !(s[..BadLen(s) + 1] <= code)
  {
    var t := s[..BadLen(s) + 1];
    if t <= code {
      assert forall i :: 0 <= i < |t| ==> code[i] == s[i];
      assert false;
    }
  }

  /** One replacement character stands for as many bytes as could begin a scalar value, and
      for one byte if none could. */
  lemma ReplacedExact(s: string)
    requires s != "" && LeadLen(s) == 0
    ensures BadLen(s) > 1 ==> Begins(s[..BadLen(s)])
    ensures BadLen(s) < |s| ==> !Begins(s[..BadLen(s) + 1])
  {
    var n := BadLen(s);
    if n == 2 {
      var c := BeginTwo(s[..2]);
    } else if n == 3 {
      var c := BeginThree(s[..3]);
    }
    if n < |s| {
      forall c ensures !(s[..n + 1] <= EncodeChar(c)) {
        LeadOfEncoded(c);
        BeginsNoLonger(s, EncodeChar(c));
      }
    }
  }

  /** What stands for them is the encoding of U+FFFD. */
  lemma ReplacementEncodes()
    ensures REPLACEMENT == EncodeChar('\U{FFFD}')
  {
  }
}
