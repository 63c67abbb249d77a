/** Names of profiles, keys and clients: the stored shape, the forms' normalisation
    into it, and the search for a free name on import. */
module Names {
  import opened Text

  const MAX_NAME := 64

  // ---- The stored shape --------------------------------------------------------------------

  /** Words separated by single spaces, with no other whitespace. */
  predicate Spaced(name: string) {
    && name != "" && name[0] != ' ' && name[|name| - 1] != ' '
    && (forall i :: 0 <= i < |name| - 1 ==> !(name[i] == ' ' && name[i + 1] == ' '))
    && (forall i :: 0 <= i < |name| && IsWhite(name[i]) ==> name[i] == ' ')
  }

  predicate IsValidName(name: string) {
    Spaced(name) && |name| <= MAX_NAME
  }

  // ---- Normalising -------------------------------------------------------------------------

  /** The characters before the first whitespace. */
  function FirstWord(s: string): (w: string)
    ensures w <= s && Black(w)
    ensures |w| < |s| ==> IsWhite(s[|w|])
  {
    if s == "" || IsWhite(s[0]) then ""
    else
      assert s == [s[0]] + s[1..];
      [s[0]] + FirstWord(s[1..])
  }

  function Words(s: string): (words: seq<string>)
    ensures forall i :: 0 <= i < |words| ==> words[i] != "" && Black(words[i])
    decreases |s|
  {
    if s == "" then []
    else if IsWhite(s[0]) then Words(s[1..])
    else [FirstWord(s)] + Words(s[|FirstWord(s)|..])
  }

  function JoinWords(words: seq<string>): string {
    if words == [] then "" else Join(words, ' ')
  }

  function Normalize(s: string): string {
    JoinWords(Words(s))
  }

  lemma SpacedCons(word: string, rest: string)
    requires word != "" && Black(word) && Spaced(rest)
    ensures Spaced(word + " " + rest)
  {
    var s := word + " " + rest;
    assert forall i :: 0 <= i < |s| ==>
                         s[i] == if i < |word| then word[i] else if i == |word| then ' ' else rest[i - |word| - 1];
  }

  lemma {:induction false} JoinedIsSpaced(words: seq<string>)
    requires words != [] && forall i :: 0 <= i < |words| ==> words[i] != "" && Black(words[i])
    ensures Spaced(Join(words, ' '))
  {
    if |words| > 1 {
      JoinedIsSpaced(words[1..]);
      SpacedCons(words[0], Join(words[1..], ' '));
    }
  }

  lemma FirstWordBeforeSpace(word: string, rest: string)
    requires Black(word)
    ensures FirstWord(word + " " + rest) == word
  {
    var s := word + " " + rest;
    assert s[|word|] == ' ';
    var w := FirstWord(s);
    assert forall i :: 0 <= i < |word| ==> s[i] == word[i];
  }

  lemma WordsCons(word: string, rest: string)
    requires word != "" && Black(word)
    ensures Words(word + " " + rest) == [word] + Words(rest)
  {
    var s := word + " " + rest;
    FirstWordBeforeSpace(word, rest);
    assert s[|word|..] == " " + rest && (" " + rest)[1..] == rest;
  }

  lemma SpacedTail(name: string, i: nat)
    requires Spaced(name) && 0 < i < |name| && name[i] == ' '
    ensures Spaced(name[i + 1..])
  {
    var t := name[i + 1..];
    assert t != "";
    assert forall j :: 0 <= j < |t| ==> t[j] == name[i + 1 + j];
  }

  lemma {:induction false} NormalizeKeepsSpaced(name: string)
    requires Spaced(name)
    ensures Normalize(name) == name
    decreases |name|
  {
    var word := FirstWord(name);
    if word == name {
      assert name[|word|..] == "";
      assert Words(name) == [word];
    } else {
      var rest := name[|word| + 1..];
      assert name == word + " " + rest;
      SpacedTail(name, |word|);
      NormalizeKeepsSpaced(rest);
      WordsCons(word, rest);
      JoinCons(word, Words(rest), ' ');
    }
  }

  /** Normalising leaves exactly the well-spaced names and the empty one fixed, and
      always yields one of them: so a form's length check alone decides validity. */
  lemma NormalizeExact(s: string)
    ensures Normalize(s) == "" || Spaced(Normalize(s))
    ensures IsValidName(Normalize(s)) <==> Normalize(s) != "" && |Normalize(s)| <= MAX_NAME
    ensures Normalize(s) == s <==> s == "" || Spaced(s)
  {
    if Words(s) != [] {
      JoinedIsSpaced(Words(s));
    }
    if Spaced(s) {
      NormalizeKeepsSpaced(s);
    }
  }

  lemma FirstWordCut(word: string, c: char, rest: string)
    requires Black(word) && IsWhite(c)
    ensures FirstWord(word + [c] + rest) == word
  {
    var s := word + [c] + rest;
    assert s[|word|] == c;
    var w := FirstWord(s);
    assert forall i :: 0 <= i < |word| ==> s[i] == word[i];
  }

  lemma WordsCut(word: string, c: char, rest: string)
    requires Black(word) && word != "" && IsWhite(c)
    ensures Words(word + [c] + rest) == [word] + Words(rest)
  {
    var s := word + [c] + rest;
    FirstWordCut(word, c, rest);
    assert s[|word|..] == [c] + rest && ([c] + rest)[1..] == rest;
  }

  /** Normalising keeps the words and puts one space between them: white space in front
      is dropped, a word alone stays, and after a word comes the rest, normalised. */
  lemma NormalizeWords(word: string, c: char, rest: string)
    requires Black(word) && IsWhite(c)
    ensures Normalize([c] + rest) == Normalize(rest)
    ensures Normalize(word) == word
    ensures word != "" ==>
              Normalize(word + [c] + rest) == if Normalize(rest) == "" then word else word + " " + Normalize(rest)
  {
    assert ([c] + rest)[1..] == rest;
    if word != "" {
      assert FirstWord(word) == word && word[|word|..] == "";
      assert Words(word) == [word];
      WordsCut(word, c, rest);
      if Words(rest) != [] {
        JoinCons(word, Words(rest), ' ');
        JoinedIsSpaced(Words(rest));
      }
    }
  }

  // ---- A free name ---------------------------------------------------------------------------

  /** The counter is a 32-bit integer. */
  const MAX_COUNTER := 0x7fff_ffff

  function Shorten(base: string, room: nat): (r: string)
    ensures r <= base && ByteLen(r) <= room
    ensures base != "" && room >= 4 ==> r != ""
  {
    if ByteLen(base) <= room then base else Shorten(base[..|base| - 1], room)
  }

  /** No longer prefix fits. */
  lemma {:induction false} ShortenIsLongest(base: string, room: nat, prefix: string)
    requires prefix <= base && ByteLen(prefix) <= room
    ensures |prefix| <= |Shorten(base, room)|
  {
    if ByteLen(base) > room {
      assert prefix != base;
      ShortenIsLongest(base[..|base| - 1], room, prefix);
    }
  }

  lemma {:induction false} DecimalLength(n: nat, digits: nat, bound: nat)
    requires n < bound && digits >= 1 && bound == Power(digits)
    ensures |Decimal(n)| <= digits
  {
    if digits > 1 && n >= 10 {
      DecimalLength(n / 10, digits - 1, Power(digits - 1));
    }
  }

  function Power(digits: nat): nat {
    if digits == 0 then 1 else 10 * Power(digits - 1)
  }

  function Suffix(n: nat): (s: string)
    requires n <= MAX_COUNTER
    ensures |s| <= 13
  {
    DecimalLength(n, 10, 10_000_000_000);
    " - " + Decimal(n)
  }

  function Candidate(desired: string, n: nat): string
    requires n <= MAX_COUNTER
  {
    TrimEnd(Shorten(desired, MAX_NAME - |Suffix(n)|)) + Suffix(n)
  }

  lemma {:induction false} AsciiBytes(s: string)
    requires forall i :: 0 <= i < |s| ==> s[i] as int < 0x80
    ensures ByteLen(s) == |s|
  {
    if s != "" {
      AsciiBytes(s[..|s| - 1]);
    }
  }

  lemma ByteLenPrefix(a: string, b: string)
    requires a <= b
    ensures ByteLen(a) <= ByteLen(b)
  {
    ByteLenConcat(a, b[|a|..]);
    assert b == a + b[|a|..];
  }

  lemma SuffixIsPlain(n: nat)
    requires n <= MAX_COUNTER
    ensures Black(Decimal(n)) && ' ' !in Decimal(n) && ByteLen(Suffix(n)) == |Suffix(n)|
  {
    assert AllDigits(Decimal(n));
    AsciiBytes(Suffix(n));
  }

  /** A renamed name is well formed and fits in 64 bytes. */
  lemma CandidateIsValid(desired: string, n: nat)
    requires IsValidName(desired) && n <= MAX_COUNTER
    ensures IsValidName(Candidate(desired, n)) && ByteLen(Candidate(desired, n)) <= MAX_NAME
  {
    var base := Shorten(desired, MAX_NAME - |Suffix(n)|);
    var trimmed := TrimEnd(base);
    TrimKeepsFirst(base);
    SuffixIsPlain(n);
    ByteLenPrefix(trimmed, base);
    ByteLenConcat(trimmed, Suffix(n));
    SpacedPrefix(desired, trimmed);
    SpacedSuffix(trimmed, Decimal(n));
  }

  lemma {:induction false} TrimKeepsFirst(s: string)
    requires s != "" && !IsWhite(s[0])
    ensures TrimEnd(s) != ""
  {
    if IsWhite(s[|s| - 1]) {
      TrimKeepsFirst(s[..|s| - 1]);
    }
  }

  lemma SpacedPrefix(name: string, prefix: string)
    requires Spaced(name) && prefix <= name && prefix != "" && !IsWhite(prefix[|prefix| - 1])
    ensures Spaced(prefix)
  {
    assert forall i :: 0 <= i < |prefix| ==> prefix[i] == name[i];
  }

  lemma SpacedSuffix(name: string, digits: string)
    requires Spaced(name) && Black(digits) && digits != ""
    ensures Spaced(name + (" - " + digits))
  {
    var s := name + (" - " + digits);
    assert forall i :: 0 <= i < |s| ==>
      s[i] == if i < |name| then name[i] else if i == |name| + 1 then '-' else if i <= |name| + 2 then ' '
              else digits[i - |name| - 3];
  }

  lemma NoLongerWord(a: string, x: string, b: string, y: string)
    requires ' ' !in y && a + (" - " + x) == b + (" - " + y)
    ensures |x| >= |y|
  {
    var s := a + (" - " + x);
    assert s[|s| - |x| - 1] == ' ';
    assert forall i :: |s| - |y| <= i < |s| ==> s[i] in y;
  }

  /** What follows the last space can be told from the whole. */
  lemma LastWord(a: string, x: string, b: string, y: string)
    requires ' ' !in x && ' ' !in y && a + (" - " + x) == b + (" - " + y)
    ensures x == y
  {
    NoLongerWord(a, x, b, y);
    NoLongerWord(b, y, a, x);
    var s := a + (" - " + x);
    assert x == s[|s| - |x|..];
    assert y == s[|s| - |y|..];
  }

  lemma CandidatesDiffer(desired: string, m: nat, n: nat)
    requires m <= MAX_COUNTER && n <= MAX_COUNTER && Candidate(desired, m) == Candidate(desired, n)
    ensures m == n
  {
    SuffixIsPlain(m);
    SuffixIsPlain(n);
    LastWord(TrimEnd(Shorten(desired, MAX_NAME - |Suffix(m)|)), Decimal(m),
             TrimEnd(Shorten(desired, MAX_NAME - |Suffix(n)|)), Decimal(n));
    DecimalInjective(m, n);
  }

  /** The candidates numbered from 2 up to just below n. */
  ghost function Candidates(desired: string, n: nat): set<string>
    requires 2 <= n <= MAX_COUNTER + 1
  {
    set m | 2 <= m < n :: Candidate(desired, m)
  }

  lemma {:induction false} CandidatesCount(desired: string, n: nat)
    requires 2 <= n <= MAX_COUNTER + 1
    ensures |Candidates(desired, n)| == n - 2
  {
    if n > 2 {
      CandidatesCount(desired, n - 1);
      var last := Candidate(desired, n - 1);
      assert Candidates(desired, n) == Candidates(desired, n - 1) + {last};
      if last in Candidates(desired, n - 1) {
        var m :| 2 <= m < n - 1 && Candidate(desired, m) == last;
        CandidatesDiffer(desired, m, n - 1);
      }
    } else {
      assert Candidates(desired, n) == {};
    }
  }

  lemma {:induction false} SubsetSize<T>(a: set<T>, b: set<T>)
    requires a <= b
    ensures |a| <= |b|
  {
    if a != {} {
      var x :| x in a;
      SubsetSize(a - {x}, b - {x});
    }
  }

  /** Only so many candidates can be taken. */
  lemma TakenCandidates(desired: string, taken: set<string>, n: nat)
    requires 2 <= n <= MAX_COUNTER + 1 && forall m :: 2 <= m < n ==> Candidate(desired, m) in taken
    ensures n - 2 <= |taken|
  {
    CandidatesCount(desired, n);
    SubsetSize(Candidates(desired, n), taken);
  }

  /** The first free candidate; it is found within one more try than there are
      names taken. */
  function FirstFree(desired: string, taken: set<string>, n: nat): (free: nat)
    requires |taken| + 2 <= MAX_COUNTER && 2 <= n <= |taken| + 2
    requires forall m :: 2 <= m < n ==> Candidate(desired, m) in taken
    ensures n <= free <= |taken| + 2 && Candidate(desired, free) !in taken
    ensures forall m :: 2 <= m < free ==> Candidate(desired, m) in taken
    decreases |taken| + 2 - n
  {
    if Candidate(desired, n) !in taken then n
    else
      TakenCandidates(desired, taken, n + 1);
      FirstFree(desired, taken, n + 1)
  }

  function FreeName(desired: string, taken: set<string>): (name: string)
    requires |taken| + 2 <= MAX_COUNTER
    ensures name !in taken
    ensures desired !in taken ==> name == desired
  {
    if desired !in taken then desired else Candidate(desired, FirstFree(desired, taken, 2))
  }

  method UniqueName(desired: string, taken: set<string>) returns (name: string)
    requires |taken| + 2 <= MAX_COUNTER
    ensures name == FreeName(desired, taken)
  {
    if desired !in taken {
      return desired;
    }
    var n: nat := 2;
    while true
      invariant 2 <= n <= |taken| + 2
      invariant forall m :: 2 <= m < n ==> Candidate(desired, m) in taken
      invariant FirstFree(desired, taken, 2) == FirstFree(desired, taken, n)
      decreases |taken| + 2 - n
    {
      var candidate := Numbered(desired, n);
      if candidate !in taken {
        return candidate;
      }
      TakenCandidates(desired, taken, n + 1);
      n := n + 1;
    }
  }

  method Numbered(desired: string, n: nat) returns (candidate: string)
    requires n <= MAX_COUNTER
    ensures candidate == Candidate(desired, n)
  {
    var suffix := Suffix(n);
    var base := desired;
    while ByteLen(base) + |suffix| > MAX_NAME
      invariant Shorten(base, MAX_NAME - |suffix|) == Shorten(desired, MAX_NAME - |suffix|)
      decreases |base|
    {
      base := base[..|base| - 1];
    }
    candidate := TrimEnd(base) + suffix;
  }

  lemma FreeNameIsValid(desired: string, taken: set<string>)
    requires IsValidName(desired) && |taken| + 2 <= MAX_COUNTER
    ensures IsValidName(FreeName(desired, taken))
    ensures FreeName(desired, taken) != desired ==> ByteLen(FreeName(desired, taken)) <= MAX_NAME
  {
    if desired in taken {
      CandidateIsValid(desired, FirstFree(desired, taken, 2));
    }
  }
}
