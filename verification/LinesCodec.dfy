/**
 The line codec that every processor session is framed with (`LinesCodec` capped at 64 KiB), and
 the reference meaning of "echo": what a client must get back for the bytes it sent.

 The codec is a library type, so its contract is written out here: a line ends at the first LF, one
 trailing CR is dropped, a line that is too long or is not UTF-8 is an error, and at end of file an
 unterminated tail counts as a last line unless it is empty or a lone CR.
 */
module LinesCodec {
  import opened Common

  const LF: byte := 10
  const CR: byte := 13
  const MAX_LENGTH: nat := 64 * 1024

  datatype Decoded = NeedMore | Line(line: seq<byte>, rest: seq<byte>) | Bad

  /** Offset of the first LF, or the length of the buffer when there is none. */
  function FirstLf(buf: seq<byte>): (k: nat)
    ensures k <= |buf|
    ensures k < |buf| ==> buf[k] == LF
    ensures forall i :: 0 <= i < k ==> buf[i] != LF
  {
    if buf == [] || buf[0] == LF then 0 else 1 + FirstLf(buf[1..])
  }

  function WithoutCr(line: seq<byte>): seq<byte> {
    if line != [] && line[|line| - 1] == CR then line[..|line| - 1] else line
  }

  predicate Continuation(b: byte) { 0x80 <= b <= 0xBF }

  predicate ThreeByteStart(b0: byte, b1: byte) {
    || (b0 == 0xE0 && 0xA0 <= b1 <= 0xBF)
    || ((0xE1 <= b0 <= 0xEC || 0xEE <= b0 <= 0xEF) && Continuation(b1))
    || (b0 == 0xED && 0x80 <= b1 <= 0x9F)
  }

  predicate FourByteStart(b0: byte, b1: byte) {
    || (b0 == 0xF0 && 0x90 <= b1 <= 0xBF)
    || (0xF1 <= b0 <= 0xF3 && Continuation(b1))
    || (b0 == 0xF4 && 0x80 <= b1 <= 0x8F)
  }

  /** Well-formed UTF-8 (table 3-7 of the Unicode Standard). */
  predicate Utf8(s: seq<byte>) {
    || s == []
    || (s[0] < 0x80 && Utf8(s[1..]))
    || (|s| >= 2 && 0xC2 <= s[0] <= 0xDF && Continuation(s[1]) && Utf8(s[2..]))
    || (|s| >= 3 && ThreeByteStart(s[0], s[1]) && Continuation(s[2]) && Utf8(s[3..]))
    || (|s| >= 4 && FourByteStart(s[0], s[1]) && Continuation(s[2]) && Continuation(s[3]) && Utf8(s[4..]))
  }

  function AsLine(raw: seq<byte>, rest: seq<byte>): Decoded {
    var line := WithoutCr(raw);
    if Utf8(line) then Line(line, rest) else Bad
  }

  function Decode(buf: seq<byte>): (d: Decoded)
    ensures d.Line? ==> |d.line| + |d.rest| < |buf|
  {
    var k := FirstLf(buf);
    if k < |buf| && k <= MAX_LENGTH then AsLine(buf[..k], buf[k + 1..])
    else if |buf| > MAX_LENGTH then Bad
    else NeedMore
  }

  function DecodeEof(buf: seq<byte>): (d: Decoded)
    ensures d.Line? ==> |d.line| + |d.rest| <= |buf| && |d.rest| < |buf|
  {
    match Decode(buf)
    case NeedMore => if buf == [] || buf == [CR] then NeedMore else AsLine(buf, [])
    case d => d
  }

  function Encode(line: seq<byte>): seq<byte> { line + [LF] }

  /** The echo of every complete line of a byte stream, up to the first line the codec rejects. */
  function Echo(stream: seq<byte>): seq<byte>
    decreases |stream|
  {
    match Decode(stream)
    case Line(line, rest) => Encode(line) + Echo(rest)
    case _ => []
  }

  /** What is left of a stream once every complete line is taken. */
  function Rest(stream: seq<byte>): (r: seq<byte>)
    ensures |r| <= |stream| && !Decode(r).Line?
    decreases |stream|
  {
    match Decode(stream)
    case Line(_, rest) => Rest(rest)
    case _ => stream
  }

  function Lines(stream: seq<byte>): nat
    decreases |stream|
  {
    match Decode(stream)
    case Line(_, rest) => 1 + Lines(rest)
    case _ => 0
  }

  /** The unterminated last line, if the stream ends there. */
  function Tail(stream: seq<byte>): Decoded { DecodeEof(Rest(stream)) }

  /** The echo of a stream that is known to be over. */
  function FullEcho(stream: seq<byte>): seq<byte> {
    Echo(stream) + if Tail(stream).Line? then Encode(Tail(stream).line) else []
  }

  /** Only complete, accepted lines: the points between two lines. */
  predicate AtBoundary(stream: seq<byte>) { Rest(stream) == [] }

  // ---- a line among bytes -------------------------------------------------------------------

  lemma FirstLfOf(raw: seq<byte>, rest: seq<byte>)
    requires LF !in raw
    ensures FirstLf(raw + [LF] + rest) == |raw|
  {
    var buf := raw + [LF] + rest;
    assert buf[|raw|] == LF;
    assert forall i :: 0 <= i < |raw| ==> buf[i] == raw[i] && raw[i] in raw;
  }

  lemma SplitAt(raw: seq<byte>, rest: seq<byte>)
    ensures (raw + [LF] + rest)[..|raw|] == raw && (raw + [LF] + rest)[|raw| + 1..] == rest
  {
  }

  /** Decoding takes the bytes up to the first LF and leaves the rest alone. */
  lemma DecodeOf(raw: seq<byte>, rest: seq<byte>)
    requires LF !in raw && |raw| <= 65536
    ensures Decode(raw + [LF] + rest) == AsLine(raw, rest)
  {
    FirstLfOf(raw, rest);
    SplitAt(raw, rest);
  }

  lemma DecodedLine(buf: seq<byte>)
    requires Decode(buf).Line?
    ensures var raw := buf[..FirstLf(buf)];
      && LF !in raw && |raw| <= 65536 && buf == raw + [LF] + Decode(buf).rest
      && Decode(buf) == AsLine(raw, Decode(buf).rest)
  {
  }

  /** A decoded line does not depend on how much of what follows has arrived. */
  lemma DecodeExtend(a: seq<byte>, b: seq<byte>)
    requires Decode(a).Line?
    ensures Decode(a + b) == Line(Decode(a).line, Decode(a).rest + b)
  {
    var raw, rest := a[..FirstLf(a)], Decode(a).rest;
    DecodedLine(a);
    assert raw + [LF] + rest + b == raw + [LF] + (rest + b);
    DecodeOf(raw, rest + b);
  }

  /** One line by itself. */
  lemma OneLine(raw: seq<byte>, line: seq<byte>, rest: seq<byte>)
    requires LF !in raw && |raw| <= MAX_LENGTH && AsLine(raw, rest) == Line(line, rest)
    ensures AtBoundary(raw + [LF]) && Echo(raw + [LF]) == Encode(line) && Lines(raw + [LF]) == 1
  {
    DecodeOf(raw, []);
    assert raw + [LF] + [] == raw + [LF];
    assert Decode(raw + [LF]) == Line(line, []);
    NoBytes();
    assert Encode(line) + [] == Encode(line);
  }

  lemma NoBytes()
    ensures Decode([]).NeedMore? && Echo([]) == [] && Rest([]) == [] && Lines([]) == 0
  {
  }

  /** Echo distributes over a split at a line boundary. */
  lemma {:induction false} EchoAppend(a: seq<byte>, b: seq<byte>)
    requires AtBoundary(a)
    ensures Echo(a + b) == Echo(a) + Echo(b)
    ensures Rest(a + b) == Rest(b)
    ensures Lines(a + b) == Lines(a) + Lines(b)
    decreases |a|
  {
    if Decode(a).Line? {
      var line, rest := Decode(a).line, Decode(a).rest;
      DecodeExtend(a, b);
      EchoAppend(rest, b);
      assert Encode(line) + (Echo(rest) + Echo(b)) == Encode(line) + Echo(rest) + Echo(b);
    } else {
      assert a + b == b;
      assert Echo(a) + Echo(b) == Echo(b);
    }
  }

  /** Echo after any prefix: what the prefix gave, then its unfinished rest with what follows. */
  lemma {:induction false} EchoSplit(s: seq<byte>, z: seq<byte>)
    ensures Echo(s + z) == Echo(s) + Echo(Rest(s) + z)
    ensures Rest(s + z) == Rest(Rest(s) + z)
    decreases |s|
  {
    if Decode(s).Line? {
      var line, rest := Decode(s).line, Decode(s).rest;
      DecodeExtend(s, z);
      EchoSplit(rest, z);
      assert Encode(line) + (Echo(rest) + Echo(Rest(rest) + z)) == Encode(line) + Echo(rest) + Echo(Rest(rest) + z);
    }
  }

  /** A rejected line stays rejected. */
  lemma BadStays(s: seq<byte>, z: seq<byte>)
    requires Decode(s).Bad?
    ensures Decode(s + z).Bad?
  {
    var k := FirstLf(s);
    assert forall i :: 0 <= i < |s| ==> (s + z)[i] == s[i];
    if k < |s| && k <= MAX_LENGTH {
      assert FirstLf(s + z) == k && (s + z)[..k] == s[..k];
    }
  }

  /** An unfinished line has no LF yet and is not too long. */
  lemma Unfinished(s: seq<byte>)
    requires Decode(s).NeedMore?
    ensures LF !in s && |s| <= MAX_LENGTH && Rest(s) == s && Echo(s) == []
  {
  }

  lemma {:induction false} Utf8Ascii(s: seq<byte>, x: byte)
    requires Utf8(s) && x < 0x80
    ensures Utf8(s + [x])
    decreases |s|
  {
    if s == [] {
      assert ([x])[1..] == [] && s + [x] == [x];
    } else {
      var n := if s[0] < 0x80 then 1 else if s[0] <= 0xDF then 2 else if s[0] <= 0xEF then 3 else 4;
      Utf8Ascii(s[n..], x);
      assert (s + [x])[n..] == s[n..] + [x];
    }
  }

  /**
   The end of a stream, at byte level: an unterminated last line is echoed as if the client had still
   sent its LF; an empty rest, a lone CR and a rejected line add nothing.
   */
  lemma EndOfStream(s: seq<byte>)
    ensures var r := Rest(s);
      FullEcho(s) == if Decode(r).NeedMore? && r != [] && r != [CR] then Echo(s + [LF]) else Echo(s)
  {
    var r := Rest(s);
    if Decode(r).NeedMore? && r != [] && r != [CR] {
      EchoSplit(s, [LF]);
      LastLine(r);
    } else {
      assert Echo(s) + [] == Echo(s);
    }
  }

  lemma LastLine(r: seq<byte>)
    requires Decode(r).NeedMore? && r != [] && r != [CR]
    ensures Echo(r + [LF]) == if DecodeEof(r).Line? then Encode(DecodeEof(r).line) else []
  {
    Unfinished(r);
    DecodeOf(r, []);
    NoBytes();
    assert r + [LF] + [] == r + [LF];
    if Utf8(WithoutCr(r)) { assert Encode(WithoutCr(r)) + [] == Encode(WithoutCr(r)); }
  }

  /** More input never takes back an echo. */
  lemma {:induction false} EchoMonotone(a: seq<byte>, b: seq<byte>)
    ensures Echo(a) <= Echo(a + b)
    ensures Echo(a + b) <= FullEcho(a + b)
    decreases |a|
  {
    if Decode(a).Line? {
      DecodeExtend(a, b);
      EchoMonotone(Decode(a).rest, b);
    }
  }

  /** Byte-level reading of the echo: drop each CR that stands right before an LF. */
  function DropCrLf(s: seq<byte>): seq<byte> {
    if s == [] then []
    else if |s| > 1 && s[0] == CR && s[1] == LF then DropCrLf(s[1..])
    else [s[0]] + DropCrLf(s[1..])
  }

  lemma DropCrLfCons(x: byte, s: seq<byte>)
    ensures DropCrLf([x] + s) == if s != [] && x == CR && s[0] == LF then DropCrLf(s) else [x] + DropCrLf(s)
  {
    assert ([x] + s)[1..] == s;
  }

  lemma {:induction false} DropCrLfLine(raw: seq<byte>, after: seq<byte>)
    requires LF !in raw
    ensures DropCrLf(raw + [LF] + after) == WithoutCr(raw) + [LF] + DropCrLf(after)
    decreases |raw|
  {
    if raw == [] {
      assert raw + [LF] + after == [LF] + after;
      DropCrLfCons(LF, after);
    } else {
      var x, tail := raw[0], raw[1..];
      assert raw + [LF] + after == [x] + (tail + [LF] + after);
      DropCrLfCons(x, tail + [LF] + after);
      DropCrLfLine(tail, after);
      WithoutCrTail(raw);
      assert (tail + [LF] + after)[0] == if tail == [] then LF else tail[0];
      if raw != [CR] {
        Assoc([x], WithoutCr(tail) + [LF], DropCrLf(after));
        Assoc([x], WithoutCr(tail), [LF]);
      }
    }
  }

  lemma WithoutCrTail(raw: seq<byte>)
    requires raw != []
    ensures WithoutCr(raw) == if raw == [CR] then [] else [raw[0]] + WithoutCr(raw[1..])
  {
  }

  /** The complete lines of a stream, as raw bytes. */
  function Complete(stream: seq<byte>): seq<byte>
    decreases |stream|
  {
    match Decode(stream)
    case Line(_, rest) => stream[..FirstLf(stream)] + [LF] + Complete(rest)
    case _ => []
  }

  lemma LastOfAppend(a: seq<byte>, b: seq<byte>)
    ensures b != [] ==> (a + b)[|a + b| - 1] == b[|b| - 1]
    ensures b == [] ==> a + b == a
  {
  }

  lemma {:induction false} CompleteAndRest(stream: seq<byte>)
    ensures stream == Complete(stream) + Rest(stream)
    decreases |stream|
  {
    if Decode(stream).Line? {
      var head, rest := stream[..FirstLf(stream)] + [LF], Decode(stream).rest;
      CompleteAndRest(rest);
      DecodedLine(stream);
      Assoc(head, Complete(rest), Rest(rest));
    }
  }

  lemma {:induction false} CompleteEndsInLf(stream: seq<byte>)
    ensures Complete(stream) != [] ==> Complete(stream)[|Complete(stream)| - 1] == LF
    decreases |stream|
  {
    if Decode(stream).Line? {
      CompleteEndsInLf(Decode(stream).rest);
      LastOfAppend(stream[..FirstLf(stream)] + [LF], Complete(Decode(stream).rest));
    }
  }

  /**
   The echo, line by line, is exactly the complete part of the stream with CRLF turned into LF; and
   when the codec rejected nothing, the complete part is everything up to the last LF.
   */
  lemma {:induction false} EchoIsTheStream(stream: seq<byte>)
    ensures Echo(stream) == DropCrLf(Complete(stream)) && stream == Complete(stream) + Rest(stream)
    ensures Complete(stream) != [] ==> Complete(stream)[|Complete(stream)| - 1] == LF
    ensures Decode(Rest(stream)).NeedMore? ==> LF !in Rest(stream)
    decreases |stream|
  {
    CompleteAndRest(stream);
    CompleteEndsInLf(stream);
    if Decode(stream).Line? {
      EchoIsTheStream(Decode(stream).rest);
      DecodedLine(stream);
      DropCrLfLine(stream[..FirstLf(stream)], Complete(Decode(stream).rest));
    }
  }
}
