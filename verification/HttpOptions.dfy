/** Connection options at the level of text: what is done to the bytes of a header value
    is splitting at commas, trimming and lower-casing of the text they encode. */
module HttpOptions {
  import opened Options
  import opened Sequences
  import opened Text
  import opened Utf8
  import opened Utf8Encoding
  import opened Http
  import opened HttpRewrite

  lemma {:induction false} EncodeIsFlatMap(s: string)
    ensures Encode(s) == FlatMap(EncodeChar, s)
  {
    if s != "" {
      EncodeIsFlatMap(s[1..]);
    }
  }

  lemma EncodeConcat(a: string, b: string)
    ensures Encode(a + b) == Encode(a) + Encode(b)
  {
    EncodeIsFlatMap(a);
    EncodeIsFlatMap(b);
    EncodeIsFlatMap(a + b);
    FlatMapConcat(EncodeChar, a, b);
  }

  lemma EncodeOne(c: char)
    ensures Encode([c]) == EncodeChar(c)
  {
    assert [c][1..] == "";
  }

  lemma EncodeSnoc(s: string, c: char)
    ensures Encode(s + [c]) == Encode(s) + EncodeChar(c)
  {
    EncodeConcat(s, [c]);
    EncodeOne(c);
  }

  // ---- Splitting -----------------------------------------------------------------------------

  lemma AsciiIsItself(c: char, d: char)
    requires d as int < 0x80
    ensures d in EncodeChar(c) <==> c == d
  {
  }

  lemma {:induction false} EncodeKeepsAscii(s: string, d: char)
    requires d as int < 0x80
    ensures d in Encode(s) <==> d in s
  {
    if s != "" {
      EncodeKeepsAscii(s[1..], d);
      AsciiIsItself(s[0], d);
      assert s == [s[0]] + s[1..];
    }
  }

  function EncodeAll(parts: seq<string>): (r: seq<string>)
    ensures |r| == |parts|
  {
    seq(|parts|, i requires 0 <= i < |parts| => Encode(parts[i]))
  }

  lemma EncodeAround(a: string, d: char, b: string)
    requires d as int < 0x80
    ensures Encode(a + [d] + b) == Encode(a) + [d] + Encode(b)
  {
    EncodeConcat(a + [d], b);
    EncodeSnoc(a, d);
  }

  lemma SplitFirst(s: string, d: char, i: nat)
    requires IndexOf(s, d) == Some(i)
    ensures s == s[..i] + [d] + s[i + 1..] && Split(s, d) == [s[..i]] + Split(s[i + 1..], d)
  {
  }

  lemma {:induction false} SplitEncoded(s: string, d: char)
    requires d as int < 0x80
    ensures Split(Encode(s), d) == EncodeAll(Split(s, d))
    decreases |s|
  {
    EncodeKeepsAscii(s, d);
    if d in s {
      var i := IndexOf(s, d).value;
      SplitFirst(s, d, i);
      SplitEncoded(s[i + 1..], d);
      SplitEncodedCons(s[..i], d, s[i + 1..]);
    } else {
      assert Split(s, d) == [s] && Split(Encode(s), d) == [Encode(s)];
    }
  }

  lemma EncodeAllCons(a: string, parts: seq<string>)
    ensures EncodeAll([a] + parts) == [Encode(a)] + EncodeAll(parts)
  {
  }

  lemma SplitEncodedCons(a: string, d: char, b: string)
    requires d as int < 0x80 && d !in a && Split(Encode(b), d) == EncodeAll(Split(b, d))
    ensures Split(Encode(a + [d] + b), d) == EncodeAll([a] + Split(b, d))
  {
    EncodeAround(a, d, b);
    EncodeKeepsAscii(a, d);
    SplitCons(Encode(a), d, Encode(b));
    EncodeAllCons(a, Split(b, d));
  }

  // ---- Trimming --------------------------------------------------------------------------------

  lemma WhiteOfEncoded(c: char, rest: string)
    ensures WhiteLen(EncodeChar(c) + rest) == if IsWhite(c) then CharLen(c) else 0
  {
  }

  lemma {:induction false} TrimStartEncoded(s: string)
    ensures TrimWhiteStart(Encode(s)) == Encode(TrimStart(s))
  {
    if s != "" {
      var first, rest := EncodeChar(s[0]), Encode(s[1..]);
      WhiteOfEncoded(s[0], rest);
      assert (first + rest)[|first|..] == rest;
      TrimStartEncoded(s[1..]);
    }
  }

  lemma WhiteEndOfEncoded(before: string, c: char)
    ensures WhiteEndLen(before + EncodeChar(c)) == if IsWhite(c) then CharLen(c) else 0
  {
    var s, code := before + EncodeChar(c), EncodeChar(c);
    WhiteOfEncoded(c, "");
    assert code + "" == code;
    assert forall i :: 0 <= i < |code| ==> s[|before| + i] == code[i];
    assert s[|s| - |code|..] == code;
  }

  lemma {:induction false} TrimEndEncoded(s: string)
    ensures TrimWhiteEnd(Encode(s)) == Encode(TrimEnd(s))
  {
    if s != "" {
      var last := |s| - 1;
      var before, c := s[..last], s[last];
      assert s == before + [c];
      EncodeSnoc(before, c);
      WhiteEndOfEncoded(Encode(before), c);
      assert (Encode(before) + EncodeChar(c))[..|Encode(before)|] == Encode(before);
      TrimEndEncoded(before);
    }
  }

  // ---- Lower case --------------------------------------------------------------------------------

  lemma LowerConcat(a: string, b: string)
    ensures Lower(a + b) == Lower(a) + Lower(b)
  {
  }

  lemma LowerOfEncoded(c: char)
    ensures Lower(EncodeChar(c)) == EncodeChar(LowerChar(c))
  {
    var code := EncodeChar(c);
    forall i | 0 <= i < |code| ensures LowerChar(code[i]) == EncodeChar(LowerChar(c))[i] {
    }
  }

  lemma {:induction false} LowerEncoded(s: string)
    ensures Lower(Encode(s)) == Encode(Lower(s))
  {
    if s != "" {
      LowerEncoded(s[1..]);
      LowerOfEncoded(s[0]);
      LowerConcat(EncodeChar(s[0]), Encode(s[1..]));
      assert Lower(s)[1..] == Lower(s[1..]);
    }
  }

  // ---- Options ---------------------------------------------------------------------------------

  lemma OptionOfPiece(piece: string)
    ensures OptionName(Encode(piece)) == Encode(Lower(Trim(piece)))
  {
    TrimStartEncoded(piece);
    TrimEndEncoded(TrimStart(piece));
    LowerEncoded(Trim(piece));
  }

  /** The option is one of the text's comma-separated pieces, trimmed and lower-cased. */
  predicate Lists(text: string, option: string) {
    exists i :: 0 <= i < |Split(text, ',')| && option == Encode(Lower(Trim(Split(text, ',')[i])))
  }

  lemma ListedAsText(value: string, text: string, option: string)
    requires Lossy(value) == Encode(text)
    ensures option in ListedOptions(value) <==> Lists(text, option)
  {
    SplitEncoded(text, ',');
    var pieces, names := Split(text, ','), ListedOptions(value);
    forall i | 0 <= i < |pieces| ensures names[i] == Encode(Lower(Trim(pieces[i]))) {
      OptionOfPiece(pieces[i]);
    }
  }

  /** A name counts as nominated by the headers if and only if some Connection or
      Proxy-Connection header lists it, in any case and with white space around it. */
  lemma NominatedAsText(headers: seq<Header>, option: string)
    ensures option in ConnectionOptions(headers) <==>
              exists h, text :: h in headers && IsConnection(h) && Lossy(h.value) == Encode(text) && Lists(text, option)
  {
    OptionsExact(headers, option);
    forall h | h in headers
      ensures option in ListedOptions(h.value) <==> exists text :: Lossy(h.value) == Encode(text) && Lists(text, option)
    {
      LossyExact(h.value);
      var text := ValidDecodes(Lossy(h.value));
      ListedAsText(h.value, text, option);
      forall other | Lossy(h.value) == Encode(other) && Lists(other, option) ensures option in ListedOptions(h.value) {
        ListedAsText(h.value, other, option);
      }
    }
  }
}
