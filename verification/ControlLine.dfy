/** The capped line reader of the control channel. */
module ControlLine {
  import opened Options
  import opened Text

  const MAX_LINE := 1024 * 1024

  /** How one call ends on what is available: a line with its end stripped, and how
      many bytes it consumed (0 only at a clean end of stream); a line over the
      cap; or not yet, because the stream is open and holds no whole line. */
  datatype LineRead =
    | Line(text: string, consumed: nat)
    | OverCap(consumed: nat)
    | Pending

  function StripEol(s: string): string {
    if s != "" && (s[|s| - 1] == '\n' || s[|s| - 1] == '\r') then StripEol(s[..|s| - 1]) else s
  }

  function ReadLine(stream: string, closed: bool): LineRead {
    var eol := IndexOf(stream, '\n');
    if eol.Some? && eol.value <= MAX_LINE then Line(StripEol(stream[..eol.value + 1]), eol.value + 1)
    else if |stream| > MAX_LINE then OverCap(MAX_LINE + 1)
    else if closed then Line(StripEol(stream), |stream|)
    else Pending
  }

  /** `read_until` behind a limit: up to and with the newline, at most `limit`
      bytes, and short of both only at the end of the stream. */
  function ReadUntil(stream: string, limit: nat): (n: nat)
    ensures n <= |stream| && n <= limit
  {
    var eol := IndexOf(stream, '\n');
    var end := if eol.Some? then eol.value + 1 else |stream|;
    if end <= limit then end else limit
  }

  method StripLineEnd(buf: string) returns (r: string)
    ensures r == StripEol(buf)
  {
    r := buf;
    while r != "" && (r[|r| - 1] == '\n' || r[|r| - 1] == '\r')
      invariant StripEol(buf) == StripEol(r)
      decreases |r|
    {
      r := r[..|r| - 1];
    }
  }

  /** The subtraction from the capacity is on natural numbers: it never underflows. */
  method ReadLineCapped(stream: string, closed: bool) returns (r: LineRead)
    ensures r == ReadLine(stream, closed)
  {
    var buf := "";
    var total: nat := 0;
    while true
      invariant total == |buf| <= MAX_LINE && total <= |stream| && buf == stream[..total] && '\n' !in buf
      invariant total == 0 || (closed && total == |stream|)
      decreases |stream| - total
    {
      var limit: nat := MAX_LINE + 1 - |buf|;
      var rest := stream[total..];
      var read := ReadUntil(rest, limit);
      if total > 0 {
        assert rest == "" && buf == stream;
      } else {
        assert rest == stream;
      }
      if !closed && read == |rest| < limit && (read == 0 || rest[read - 1] != '\n') {
        return Pending;
      }
      ghost var first := total == 0;
      buf := buf + rest[..read];
      total := total + read;
      assert buf == stream[..total];
      if read == 0 || buf[|buf| - 1] == '\n' {
        if first && read > 0 {
          NewlineIsFirst(stream, read);
        } else {
          assert buf == stream && '\n' !in stream;
        }
        var text := StripLineEnd(buf);
        return Line(text, total);
      }
      assert '\n' !in buf by {
        assert first;
        NoNewline(stream, limit);
      }
      if |buf| > MAX_LINE {
        return OverCap(total);
      }
    }
  }

  lemma NewlineIsFirst(stream: string, n: nat)
    requires 0 < n <= |stream| && stream[n - 1] == '\n' && n == ReadUntil(stream, MAX_LINE + 1)
    ensures IndexOf(stream, '\n') == Some(n - 1)
  {
    var eol := IndexOf(stream, '\n').value;
    assert forall i :: 0 <= i < eol ==> stream[i] == stream[..eol][i];
  }

  lemma NoNewline(stream: string, limit: nat)
    requires var n := ReadUntil(stream, limit); n == 0 || stream[n - 1] != '\n'
    ensures '\n' !in stream[..ReadUntil(stream, limit)]
  {
    var eol := IndexOf(stream, '\n');
    if eol.Some? {
      assert forall i :: 0 <= i < eol.value ==> stream[i] == stream[..eol.value][i];
    }
  }

  predicate IsEol(c: char) {
    c == '\n' || c == '\r'
  }

  /** Exactly one line is consumed, and given without the line ends after it: what was consumed holds a newline at most at
      its end, and a call that is not over the cap leaves no part of it behind. */
  lemma ReadsOneLine(stream: string, closed: bool)
    ensures match ReadLine(stream, closed)
            case Line(text, n) =>
              && n <= |stream| && n <= MAX_LINE + 1
              && (forall i :: 0 <= i < n - 1 ==> stream[i] != '\n')
              && ((closed && n == |stream|) || (n > 0 && stream[n - 1] == '\n'))
              && text <= stream[..n] && (text == "" || !IsEol(text[|text| - 1]))
              && (forall i :: |text| <= i < n ==> IsEol(stream[i]))
            case OverCap(n) => n <= |stream| && n == MAX_LINE + 1 && '\n' !in stream[..n]
            case Pending => !closed && '\n' !in stream && |stream| <= MAX_LINE
  {
    if ReadLine(stream, closed).Line? {
      var n := ReadLine(stream, closed).consumed;
      StripIsPrefix(stream[..n]);
      assert stream[..|stream|] == stream;
    }
  }

  lemma {:induction false} StripIsPrefix(s: string)
    ensures StripEol(s) <= s && (StripEol(s) == "" || !IsEol(StripEol(s)[|StripEol(s)| - 1]))
    ensures forall i :: |StripEol(s)| <= i < |s| ==> IsEol(s[i])
  {
    if s != "" && (s[|s| - 1] == '\n' || s[|s| - 1] == '\r') {
      StripIsPrefix(s[..|s| - 1]);
    }
  }
}
