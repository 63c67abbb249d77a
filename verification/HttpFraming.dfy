/** Header lines and heads print and read back: a printed head has its blank line only at
    its end and splits to exactly the headers it was printed from. */
module HttpFraming {
  import opened Options
  import opened Text
  import opened Utf8
  import opened Http

  // ---- One header line ---------------------------------------------------------------

  /** What a parsed header satisfies, and all that printing it needs. */
  ghost predicate GoodHeader(h: Header) {
    && ':' !in h.name && Encoded(h.name) && !HasControl(h.name) && !BadValue(h.value)
    && (h.name != "" ==> h.name[0] != ' ' && h.name[|h.name| - 1] != ' ')
  }

  ghost predicate AllGood(headers: seq<Header>) {
    forall i :: 0 <= i < |headers| ==> GoodHeader(headers[i])
  }

  lemma TrimKeepsEncoding(raw: string)
    requires Encoded(raw)
    ensures Encoded(TrimAsciiEnd(raw))
  {
    var name := TrimAsciiEnd(raw);
    assert raw == name + raw[|name|..];
    EncodedCut(name, raw[|name|..]);
  }

  lemma ParsedLineIsGood(line: string)
    requires ParseLine(line).Some?
    ensures GoodHeader(ParseLine(line).value)
  {
    var colon := IndexOf(line, ':').value;
    ValidIsEncoded(line[..colon]);
    TrimKeepsEncoding(line[..colon]);
    var name := TrimAsciiEnd(line[..colon]);
    assert forall c :: c in name ==> c in line[..colon];
  }

  /** A line of text that is neither blank nor holds a line break. */
  predicate CleanLine(line: string) {
    line != "" && '\r' !in line && '\n' !in line
  }

  lemma TrimmedName(name: string)
    requires !HasControl(name) && (name != "" ==> name[|name| - 1] != ' ')
    ensures TrimAsciiEnd(name) == name
  {
    if name != "" {
      assert !IsControl(name[|name| - 1]);
    }
  }

  lemma GoodHeaderReparses(h: Header)
    requires GoodHeader(h)
    ensures ParseLine(Line(h)) == Some(h)
  {
    var line := Line(h);
    ValidIffEncoded(h.name);
    FirstSeparator(h.name, ':', h.value);
    assert line[..|h.name|] == h.name && line[|h.name| + 1..] == h.value;
    TrimmedName(h.name);
    if h.name != "" {
      assert line[0] == h.name[0] && !IsControl(h.name[0]);
    }
  }

  lemma GoodHeaderIsClean(h: Header)
    requires GoodHeader(h)
    ensures CleanLine(Line(h))
  {
    var line := Line(h);
    forall i | 0 <= i < |line| ensures line[i] != '\r' && line[i] != '\n' {
      if i < |h.name| {
        assert line[i] == h.name[i] && !IsControl(h.name[i]);
      } else if i > |h.name| {
        assert line[i] == h.value[i - |h.name| - 1];
      }
    }
  }

  // ---- Blocks of lines -----------------------------------------------------------------

  lemma FirstCrlf(line: string, rest: string)
    requires '\r' !in line
    ensures FindCrlf(line + CRLF + rest) == Some(|line|)
  {
    var s := line + CRLF + rest;
    assert s[|line|] == '\r' && s[|line| + 1] == '\n' && CrlfAt(s, |line|);
    forall k | 0 <= k < |line| ensures !CrlfAt(s, k) {
      assert s[k] == line[k];
    }
  }

  lemma CutFirstLine(line: string, rest: string)
    requires '\r' !in line
    ensures CutLine(line + CRLF + rest) == (line, rest)
  {
    var s := line + CRLF + rest;
    FirstCrlf(line, rest);
    assert s[..|line|] == line && s[|line| + 2..] == rest;
  }

  /** Printing good headers and splitting the text gives them back. */
  lemma {:induction false} PrintThenSplit(headers: seq<Header>)
    requires AllGood(headers)
    ensures SplitHeaders(Terminated(HeaderLines(headers))) == Some(headers)
  {
    if headers != [] {
      var lines := HeaderLines(headers);
      assert lines[1..] == HeaderLines(headers[1..]);
      PrintThenSplit(headers[1..]);
      GoodHeaderReparses(headers[0]);
      GoodHeaderIsClean(headers[0]);
      CutFirstLine(lines[0], Terminated(lines[1..]));
      assert headers == [headers[0]] + headers[1..];
    }
  }

  /** Whatever the splitter accepts is good. */
  lemma {:induction false} SplitIsGood(block: string)
    requires SplitHeaders(block).Some?
    ensures AllGood(SplitHeaders(block).value)
    decreases |block|
  {
    if block != "" {
      var (line, rest) := CutLine(block);
      ParsedLineIsGood(line);
      SplitIsGood(rest);
    }
  }

  predicate AllClean(lines: seq<string>) {
    forall i :: 0 <= i < |lines| ==> CleanLine(lines[i])
  }

  lemma NoBlankInside(line: string, rest: string, k: nat)
    requires CleanLine(line) && rest != "" && rest[0] != '\r'
    requires CrlfAt(line + CRLF + rest, k) && CrlfAt(line + CRLF + rest, k + 2)
    ensures k >= |line| + 2
  {
    var s := line + CRLF + rest;
    assert forall i :: 0 <= i < |line| ==> s[i] == line[i];
    assert s[|line| + 1] == '\n' && s[|line| + 2] == rest[0];
  }

  /** A blank line can only be the last thing. */
  lemma {:induction false} BlankOnlyAtEnd(lines: seq<string>, k: nat)
    requires AllClean(lines) && lines != []
    requires var s := Terminated(lines) + CRLF; CrlfAt(s, k) && CrlfAt(s, k + 2)
    ensures k + 4 == |Terminated(lines) + CRLF|
    decreases |lines|
  {
    var line, rest := lines[0], Terminated(lines[1..]) + CRLF;
    var s := Terminated(lines) + CRLF;
    assert s == line + CRLF + rest;
    if |lines| == 1 {
      assert rest == CRLF;
      assert forall i :: 0 <= i < |line| ==> s[i] == line[i];
      assert s[|line| + 1] == '\n';
    } else {
      assert rest[0] == lines[1][0];
      NoBlankInside(line, rest, k);
      assert forall i :: 0 <= i < |rest| ==> s[i + |line| + 2] == rest[i];
      BlankOnlyAtEnd(lines[1..], k - |line| - 2);
    }
  }

  lemma {:induction false} TerminatedEndsCrlf(lines: seq<string>)
    requires lines != []
    ensures |Terminated(lines)| >= 2 && CrlfAt(Terminated(lines), |Terminated(lines)| - 2)
  {
    if |lines| > 1 {
      TerminatedEndsCrlf(lines[1..]);
      var s, t := Terminated(lines), Terminated(lines[1..]);
      assert s[|s| - 2] == t[|t| - 2] && s[|s| - 1] == t[|t| - 1];
    }
  }

  /** No prefix but the whole ends in a blank line, so a reader stops exactly at
      its end. */
  predicate OneHead(s: string) {
    EndsBlank(s) && forall k :: 0 <= k < |s| ==> !EndsBlank(s[..k])
  }

  /** Reading such a head leaves whatever follows it in the stream. */
  lemma ReaderStopsAtHead(head: string, body: string, r: HeadRead, consumed: nat)
    requires OneHead(head) && |head| <= MAX_HTTP_HEADER && ReadsHead(head + body, r, consumed)
    ensures r == Head(head) && consumed == |head|
  {
    var stream := head + body;
    assert stream[..|head|] == head;
    assert forall k :: 0 <= k <= |head| ==> stream[..k] == head[..k];
    assert stream[..|stream|] == stream && head[..|head|] == head;
  }

  lemma CleanLinesAreOneHead(lines: seq<string>)
    requires AllClean(lines) && lines != []
    ensures OneHead(Terminated(lines) + CRLF)
    ensures FindCrlf(Terminated(lines) + CRLF) == Some(|lines[0]|)
  {
    var s := Terminated(lines) + CRLF;
    TerminatedEndsCrlf(lines);
    assert s[|s| - 4] == Terminated(lines)[|s| - 4] && s[|s| - 3] == Terminated(lines)[|s| - 3];
    forall k | 0 <= k < |s| ensures !EndsBlank(s[..k]) {
      if EndsBlank(s[..k]) {
        var p := s[..k];
        assert p[k - 4] == s[k - 4] && p[k - 3] == s[k - 3] && p[k - 2] == s[k - 2] && p[k - 1] == s[k - 1];
        BlankOnlyAtEnd(lines, k - 4);
      }
    }
    assert s == lines[0] + CRLF + (Terminated(lines[1..]) + CRLF);
    FirstCrlf(lines[0], Terminated(lines[1..]) + CRLF);
  }

  /** A head printed from a clean request line and good headers reads back as
      them. */
  lemma HeadReadsBack(line: string, headers: seq<Header>)
    requires CleanLine(line) && AllGood(headers)
    ensures var head := PrintHead(line, headers);
            && OneHead(head)
            && RequestLineOf(head) == line
            && SplitHeaders(HeaderBlockOf(head)) == Some(headers)
  {
    var lines := [line] + HeaderLines(headers);
    var head := Terminated(lines) + CRLF;
    forall i | 0 <= i < |lines| ensures CleanLine(lines[i]) {
      if i > 0 {
        GoodHeaderIsClean(headers[i - 1]);
      }
    }
    CleanLinesAreOneHead(lines);
    TerminatedCons(line, HeaderLines(headers));
    var block := Terminated(HeaderLines(headers));
    assert head == line + CRLF + block + CRLF;
    assert head[..|line|] == line && head[|line| + 2..|head| - 2] == block;
    PrintThenSplit(headers);
  }

  /** So a printed head determines the headers in it. */
  lemma HeadTellsHeaders(line: string, a: seq<Header>, b: seq<Header>)
    requires CleanLine(line) && AllGood(a) && AllGood(b) && PrintHead(line, a) == PrintHead(line, b)
    ensures a == b
  {
    HeadReadsBack(line, a);
    HeadReadsBack(line, b);
  }
}
