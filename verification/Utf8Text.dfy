/**
 The codec's UTF-8 test against its reference: a byte string passes exactly when it is the encoding of
 some sequence of Unicode scalar values (section 3 of RFC 3629).
 */
module Utf8Text {
  import opened Common
  import opened LinesCodec

  predicate Scalar(c: int) { 0 <= c < 0xD800 || 0xE000 <= c < 0x110000 }

  function EncodeScalar(c: int): (s: seq<byte>)
    requires Scalar(c)
    ensures 1 <= |s| <= 4
  {
    if c < 0x80 then [c]
    else if c < 0x800 then [0xC0 + c / 64, Low(c)]
    else if c < 0x10000 then [0xE0 + c / 4096, Low(c / 64), Low(c)]
    else [0xF0 + c / 262144, Low(c / 4096), Low(c / 64), Low(c)]
  }

  /** A continuation byte with the low six bits. */
  function Low(c: nat): byte { 0x80 + c % 64 }

  function EncodeText(text: seq<int>): seq<byte>
    requires forall i :: 0 <= i < |text| ==> Scalar(text[i])
  {
    if text == [] then [] else EncodeScalar(text[0]) + EncodeText(text[1..])
  }

  lemma TwoBytes(c: int)
    requires 0x80 <= c < 0x800
    ensures 0xC2 <= 0xC0 + c / 64 <= 0xDF
  {
  }

  lemma ThreeBytes(c: int)
    requires 0x800 <= c < 0x10000 && Scalar(c)
    ensures 0xE0 + c / 4096 < 256 && ThreeByteStart(0xE0 + c / 4096, Low(c / 64))
  {
    assert c / 4096 == c / 64 / 64;
  }

  lemma FourBytes(c: int)
    requires 0x10000 <= c < 0x110000
    ensures 0xF0 + c / 262144 < 256 && FourByteStart(0xF0 + c / 262144, Low(c / 4096))
  {
    assert c / 262144 == c / 4096 / 64;
  }

  lemma Drop(a: seq<byte>, b: seq<byte>)
    ensures (a + b)[|a|..] == b
    ensures forall i :: 0 <= i < |a| ==> (a + b)[i] == a[i]
  {
  }

  lemma EncodedPasses(c: int, rest: seq<byte>)
    requires Scalar(c) && Utf8(rest)
    ensures Utf8(EncodeScalar(c) + rest)
  {
    Drop(EncodeScalar(c), rest);
    if 0x80 <= c < 0x800 {
      TwoBytes(c);
    } else if 0x800 <= c < 0x10000 {
      ThreeBytes(c);
    } else if 0x10000 <= c {
      FourBytes(c);
    }
  }

  lemma {:induction false} TextPasses(text: seq<int>)
    requires forall i :: 0 <= i < |text| ==> Scalar(text[i])
    ensures Utf8(EncodeText(text))
    decreases |text|
  {
    if text != [] {
      TextPasses(text[1..]);
      EncodedPasses(text[0], EncodeText(text[1..]));
    }
  }

  /** The scalar value that a passing byte string starts with. */
  lemma FirstScalar(s: seq<byte>) returns (c: int)
    requires Utf8(s) && s != []
    ensures Scalar(c) && EncodeScalar(c) <= s && Utf8(s[|EncodeScalar(c)|..])
  {
    if s[0] < 0x80 {
      c := s[0];
    } else if s[0] <= 0xDF {
      var hi: int, lo: int := s[0], s[1];
      c := (hi - 0xC0) * 64 + (lo - 0x80);
    } else if s[0] <= 0xEF {
      c := ThreeByteScalar(s[0], s[1], s[2]);
    } else {
      c := FourByteScalar(s[0], s[1], s[2], s[3]);
    }
  }

  lemma ThreeByteScalar(b0: byte, b1: byte, b2: byte) returns (c: int)
    requires ThreeByteStart(b0, b1) && Continuation(b2)
    ensures Scalar(c) && EncodeScalar(c) == [b0, b1, b2]
  {
    var hi := (b0 - 0xE0) * 64 + (b1 - 0x80);
    c := hi * 64 + (b2 - 0x80);
    assert c / 64 == hi && c / 4096 == b0 - 0xE0;
  }

  lemma FourByteScalar(b0: byte, b1: byte, b2: byte, b3: byte) returns (c: int)
    requires FourByteStart(b0, b1) && Continuation(b2) && Continuation(b3)
    ensures Scalar(c) && EncodeScalar(c) == [b0, b1, b2, b3]
  {
    var top := (b0 - 0xF0) * 64 + (b1 - 0x80);
    var hi := top * 64 + (b2 - 0x80);
    c := hi * 64 + (b3 - 0x80);
    assert c / 64 == hi && c / 4096 == top && c / 262144 == b0 - 0xF0;
  }

  lemma Rejoin(a: seq<byte>, s: seq<byte>)
    requires a <= s
    ensures a + s[|a|..] == s
  {
  }

  lemma {:induction false} Decodes(s: seq<byte>) returns (text: seq<int>)
    requires Utf8(s)
    ensures (forall i :: 0 <= i < |text| ==> Scalar(text[i])) && EncodeText(text) == s
    decreases |s|
  {
    if s == [] {
      text := [];
    } else {
      var c := FirstScalar(s);
      var n := |EncodeScalar(c)|;
      var rest := Decodes(s[n..]);
      text := [c] + rest;
      assert text[1..] == rest;
      Rejoin(EncodeScalar(c), s);
    }
  }

  ghost predicate IsText(s: seq<byte>) {
    exists text: seq<int> :: (forall i :: 0 <= i < |text| ==> Scalar(text[i])) && EncodeText(text) == s
  }

  /** The byte test accepts exactly the encodings of text. */
  lemma Utf8IsText(s: seq<byte>)
    ensures Utf8(s) <==> IsText(s)
  {
    if Utf8(s) {
      var text := Decodes(s);
    } else if IsText(s) {
      var text: seq<int> :| (forall i :: 0 <= i < |text| ==> Scalar(text[i])) && EncodeText(text) == s;
      TextPasses(text);
    }
  }
}
