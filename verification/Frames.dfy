/** The tunnel frames of the control channel: a 4-byte big-endian length, then
    that many bytes, ended by an empty frame. */
module Frames {
  /** One character below 256 per byte. */
  type Bytes = string

  const MAX_FRAME := 64 * 1024

  // ---- Lengths -------------------------------------------------------------------------

  predicate AreBytes(s: Bytes) {
    forall i :: 0 <= i < |s| ==> s[i] as int < 256
  }

  function Be32(n: nat): (r: Bytes)
    requires n < 0x1_0000_0000
    ensures |r| == 4 && AreBytes(r) && FromBe32(r) == n
  {
    var q := n / 256;
    [(q / 256 / 256) as char, (q / 256 % 256) as char, (q % 256) as char, (n % 256) as char]
  }

  function FromBe32(b: Bytes): (n: nat)
    requires |b| == 4
  {
    ((b[0] as int * 256 + b[1] as int) * 256 + b[2] as int) * 256 + b[3] as int
  }

  /** Most significant byte first. */
  lemma LengthOnTheWire(n: nat)
    requires n < 0x1_0000_0000
    ensures var b := Be32(n);
            && b[0] as int == n / 16777216 && b[1] as int == n / 65536 % 256
            && b[2] as int == n / 256 % 256 && b[3] as int == n % 256
  {
  }

  lemma Digit(q: nat, r: nat)
    requires r < 256
    ensures (q * 256 + r) / 256 == q && (q * 256 + r) % 256 == r
  {
  }

  lemma FromBe32Injective(b: Bytes)
    requires |b| == 4 && AreBytes(b)
    ensures FromBe32(b) < 0x1_0000_0000 && Be32(FromBe32(b)) == b
  {
    Digit((b[0] as int * 256 + b[1] as int) * 256 + b[2] as int, b[3] as int);
    Digit(b[0] as int * 256 + b[1] as int, b[2] as int);
    Digit(b[0] as int, b[1] as int);
  }

  // ---- Encoding ------------------------------------------------------------------------

  /** What one read of the source can return before its end. */
  predicate IsChunk(c: Bytes) {
    1 <= |c| <= MAX_FRAME
  }

  predicate AreChunks(chunks: seq<Bytes>) {
    forall i :: 0 <= i < |chunks| ==> IsChunk(chunks[i])
  }

  function Flatten(chunks: seq<Bytes>): Bytes {
    if chunks == [] then [] else chunks[0] + Flatten(chunks[1..])
  }

  function Frame(chunk: Bytes): (f: Bytes)
    requires |chunk| <= MAX_FRAME
    ensures |f| == 4 + |chunk|
  {
    Be32(|chunk|) + chunk
  }

  /** A frame per chunk, then the empty frame. */
  function Encode(chunks: seq<Bytes>): Bytes
    requires AreChunks(chunks)
  {
    if chunks == [] then Frame([]) else Frame(chunks[0]) + Encode(chunks[1..])
  }

  lemma Assoc(a: Bytes, b: Bytes, c: Bytes)
    ensures a + b + c == a + (b + c)
  {
  }

  /** The frames written so far, and what they leave of the input. */
  ghost predicate Framing(input: Bytes, chunks: seq<Bytes>, left: Bytes, out: Bytes) {
    AreChunks(chunks) && Flatten(chunks) + left == input && out == Open(chunks)
  }

  /** The frames without the empty one. */
  function Open(chunks: seq<Bytes>): Bytes
    requires AreChunks(chunks)
  {
    if chunks == [] then [] else Frame(chunks[0]) + Open(chunks[1..])
  }

  lemma {:induction false} OpenSnoc(chunks: seq<Bytes>, c: Bytes)
    requires AreChunks(chunks) && IsChunk(c)
    ensures AreChunks(chunks + [c]) && Open(chunks + [c]) == Open(chunks) + Frame(c)
  {
    if chunks == [] {
      assert chunks + [c] == [c] && [c][1..] == [];
    } else {
      OpenSnoc(chunks[1..], c);
      assert (chunks + [c])[1..] == chunks[1..] + [c];
      Assoc(Frame(chunks[0]), Open(chunks[1..]), Frame(c));
    }
  }

  lemma {:induction false} EncodeIsOpenThenEnd(chunks: seq<Bytes>)
    requires AreChunks(chunks)
    ensures Encode(chunks) == Open(chunks) + Frame([])
  {
    if chunks != [] {
      EncodeIsOpenThenEnd(chunks[1..]);
      Assoc(Frame(chunks[0]), Open(chunks[1..]), Frame([]));
    }
  }

  lemma {:induction false} FlattenSnoc(chunks: seq<Bytes>, c: Bytes)
    ensures Flatten(chunks + [c]) == Flatten(chunks) + c
  {
    if chunks == [] {
      assert chunks + [c] == [c] && [c][1..] == [];
    } else {
      FlattenSnoc(chunks[1..], c);
      assert (chunks + [c])[1..] == chunks[1..] + [c];
      Assoc(chunks[0], Flatten(chunks[1..]), c);
    }
  }

  lemma EncodeCons(chunk: Bytes, tail: seq<Bytes>)
    requires IsChunk(chunk) && AreChunks(tail)
    ensures AreChunks([chunk] + tail)
    ensures Flatten([chunk] + tail) == chunk + Flatten(tail)
    ensures Encode([chunk] + tail) == Frame(chunk) + Encode(tail)
  {
    assert ([chunk] + tail)[1..] == tail;
  }

  lemma FrameOne(input: Bytes, chunks: seq<Bytes>, left: Bytes, out: Bytes, n: nat)
    requires Framing(input, chunks, left, out) && 1 <= n <= MAX_FRAME && n <= |left|
    ensures Framing(input, chunks + [left[..n]], left[n..], out + Frame(left[..n]))
  {
    var chunk := left[..n];
    OpenSnoc(chunks, chunk);
    FlattenSnoc(chunks, chunk);
    assert left == chunk + left[n..];
    Assoc(Flatten(chunks), chunk, left[n..]);
  }

  /** `sizes` is what each read happens to return, capped by the buffer and by
      what is left; a read of nothing before the end does not happen. */
  method CopyToFrames(input: Bytes, sizes: nat -> nat) returns (out: Bytes)
    requires forall i :: sizes(i) >= 1
    ensures exists chunks :: AreChunks(chunks) && Flatten(chunks) == input && out == Encode(chunks)
  {
    out := [];
    ghost var chunks: seq<Bytes> := [];
    var left := input;
    var turn := 0;
    while true
      invariant Framing(input, chunks, left, out)
      decreases |left|
    {
      var n := if sizes(turn) < |left| then sizes(turn) else |left|;
      if n > MAX_FRAME {
        n := MAX_FRAME;
      }
      turn := turn + 1;
      if n == 0 {
        out := out + Frame([]);
        EncodeIsOpenThenEnd(chunks);
        return;
      }
      FrameOne(input, chunks, left, out, n);
      out := out + Frame(left[..n]);
      chunks := chunks + [left[..n]];
      left := left[n..];
    }
  }

  // ---- Decoding --------------------------------------------------------------------------

  /** How a copy from frames ends: at the empty frame, with how much of the stream
      it consumed; at a frame over the cap; or because the stream ended first.
      `delivered` has been written either way. */
  datatype Decoded =
    | Done(delivered: Bytes, consumed: nat)
    | TooBig(delivered: Bytes)
    | Cut(delivered: Bytes)

  function Deliver(first: Bytes, used: nat, d: Decoded): Decoded {
    match d
    case Done(delivered, consumed) => Done(first + delivered, used + consumed)
    case TooBig(delivered) => TooBig(first + delivered)
    case Cut(delivered) => Cut(first + delivered)
  }

  /** What the stream starts with. */
  datatype Next = End | Oversized | Short | Payload(chunk: Bytes)

  function ReadFrame(stream: Bytes): (r: Next)
    ensures r.End? ==> |stream| >= 4
    ensures r.Payload? ==> IsChunk(r.chunk) && 4 + |r.chunk| <= |stream|
  {
    if |stream| < 4 then Short
    else
      var n := FromBe32(stream[..4]);
      if n == 0 then End
      else if n > MAX_FRAME then Oversized
      else if |stream| < 4 + n then Short
      else Payload(stream[4..4 + n])
  }

  function Decode(stream: Bytes): Decoded
    decreases |stream|
  {
    match ReadFrame(stream)
    case Short => Cut([])
    case End => Done([], 4)
    case Oversized => TooBig([])
    case Payload(chunk) => Deliver(chunk, 4 + |chunk|, Decode(stream[4 + |chunk|..]))
  }

  /** The stream decodes to what was delivered followed by what the rest decodes
      to. */
  ghost predicate Decoding(whole: Decoded, out: Bytes, at: nat, rest: Bytes) {
    whole == Deliver(out, at, Decode(rest))
  }

  lemma DecodingStart(stream: Bytes)
    ensures Decoding(Decode(stream), [], 0, stream)
  {
    var d := Decode(stream);
    assert [] + d.delivered == d.delivered;
  }

  method CopyFromFrames(stream: Bytes) returns (r: Decoded)
    ensures r == Decode(stream)
  {
    var out: Bytes := [];
    var at: nat := 0;
    var rest := stream;
    ghost var whole := Decode(stream);
    DecodingStart(stream);
    while true
      invariant Decoding(whole, out, at, rest)
      decreases |rest|
    {
      var next := ReadFrame(rest);
      if next.Payload? {
        DecodeOneMore(whole, out, at, rest);
        out := out + next.chunk;
        at := at + (4 + |next.chunk|);
        rest := rest[4 + |next.chunk|..];
      } else {
        DecodeStops(out, at, rest);
        r := if next.Short? then Cut(out) else if next.End? then Done(out, at + 4) else TooBig(out);
        return;
      }
    }
  }

  lemma DecodeStops(out: Bytes, at: nat, rest: Bytes)
    ensures var r := Deliver(out, at, Decode(rest));
            && (ReadFrame(rest).Short? ==> r == Cut(out))
            && (ReadFrame(rest).End? ==> r == Done(out, at + 4))
            && (ReadFrame(rest).Oversized? ==> r == TooBig(out))
  {
    assert out + [] == out;
  }

  lemma DecodeOneMore(whole: Decoded, out: Bytes, at: nat, rest: Bytes)
    requires Decoding(whole, out, at, rest) && ReadFrame(rest).Payload?
    ensures var chunk := ReadFrame(rest).chunk;
            Decoding(whole, out + chunk, at + (4 + |chunk|), rest[4 + |chunk|..])
  {
    var chunk := ReadFrame(rest).chunk;
    DeliverTwice(out, at, chunk, 4 + |chunk|, Decode(rest[4 + |chunk|..]));
  }

  lemma DeliverTwice(a: Bytes, i: nat, b: Bytes, j: nat, d: Decoded)
    ensures Deliver(a, i, Deliver(b, j, d)) == Deliver(a + b, i + j, d)
  {
    assert a + (b + d.delivered) == a + b + d.delivered;
  }

  // ---- Round trip --------------------------------------------------------------------------

  /** Decoding one frame and what follows it. */
  lemma DecodeFrame(chunk: Bytes, rest: Bytes)
    requires IsChunk(chunk)
    ensures Decode(Frame(chunk) + rest) == Deliver(chunk, 4 + |chunk|, Decode(rest))
  {
    var stream, n := Frame(chunk) + rest, |chunk|;
    assert stream[..4] == Be32(n);
    assert stream[4..4 + n] == chunk && stream[4 + n..] == rest;
    assert ReadFrame(stream) == Payload(chunk);
  }

  lemma DecodeEnd(rest: Bytes)
    ensures Decode(Frame([]) + rest) == Done([], 4)
  {
    assert (Frame([]) + rest)[..4] == Be32(0);
    assert ReadFrame(Frame([]) + rest) == End;
  }

  /** However the reader chunked the input, decoding gives it back and stops right
      after the empty frame, whatever follows. */
  lemma {:induction false} RoundTrip(chunks: seq<Bytes>, rest: Bytes)
    requires AreChunks(chunks)
    ensures Decode(Encode(chunks) + rest) == Done(Flatten(chunks), |Encode(chunks)|)
  {
    if chunks == [] {
      DecodeEnd(rest);
    } else {
      var tail := Encode(chunks[1..]);
      RoundTrip(chunks[1..], rest);
      DecodeFrame(chunks[0], tail + rest);
      Assoc(Frame(chunks[0]), tail, rest);
    }
  }

  lemma PrefixOfFrame(chunk: Bytes, rest: Bytes, k: nat)
    requires |chunk| <= MAX_FRAME && k < 4 + |chunk| && k <= |Frame(chunk) + rest|
    ensures Decode((Frame(chunk) + rest)[..k]) == Cut([])
  {
    var prefix := (Frame(chunk) + rest)[..k];
    if k >= 4 {
      assert prefix[..4] == Be32(|chunk|);
    }
    assert ReadFrame(prefix) == Short;
  }

  lemma PrefixConcat(a: Bytes, b: Bytes, k: nat)
    requires |a| <= k <= |a| + |b|
    ensures (a + b)[..k] == a + b[..k - |a|]
  {
  }

  /** A stream cut short anywhere delivers a prefix of the input and never reports
      its end. */
  lemma {:induction false} PrefixIsCut(chunks: seq<Bytes>, k: nat)
    requires AreChunks(chunks) && k < |Encode(chunks)|
    ensures var d := Decode(Encode(chunks)[..k]); d.Cut? && d.delivered <= Flatten(chunks)
  {
    if chunks == [] {
      PrefixOfFrame([], [], k);
      assert Frame([]) + [] == Frame([]);
    } else {
      var first, tail := Frame(chunks[0]), Encode(chunks[1..]);
      if k < |first| {
        PrefixOfFrame(chunks[0], tail, k);
      } else {
        PrefixIsCut(chunks[1..], k - |first|);
        DecodeFrame(chunks[0], tail[..k - |first|]);
        PrefixConcat(first, tail, k);
      }
    }
  }

  lemma FrameRead(stream: Bytes)
    requires AreBytes(stream)
    ensures ReadFrame(stream).End? ==> stream[..4] == Frame([])
    ensures ReadFrame(stream).Payload? ==>
              var chunk := ReadFrame(stream).chunk; stream[..4 + |chunk|] == Frame(chunk)
  {
    if |stream| >= 4 {
      FromBe32Injective(stream[..4]);
      var n := FromBe32(stream[..4]);
      assert Frame([]) == Be32(0);
      if |stream| >= 4 + n {
        assert stream[..4 + n] == stream[..4] + stream[4..4 + n];
      }
    }
  }

  /** Conversely, whatever decodes to its end is the encoding of some chunking of
      what it delivered. */
  lemma {:induction false} DoneIsEncoded(stream: Bytes) returns (chunks: seq<Bytes>)
    requires AreBytes(stream) && Decode(stream).Done?
    ensures AreChunks(chunks) && Flatten(chunks) == Decode(stream).delivered
    ensures Decode(stream).consumed <= |stream| && stream[..Decode(stream).consumed] == Encode(chunks)
    decreases |stream|
  {
    FrameRead(stream);
    match ReadFrame(stream)
    case End => chunks := [];
    case Payload(chunk) =>
      var n := 4 + |chunk|;
      var rest := stream[n..];
      var tail := DoneIsEncoded(rest);
      EncodeCons(chunk, tail);
      chunks := [chunk] + tail;
      var used := Decode(rest).consumed;
      PrefixConcat(stream[..n], rest, n + used);
      assert stream == stream[..n] + rest;
  }
}
