/** UTF-8 as RFC 3629 defines it: the encoder of its section 3 and a decoder that
    follows the byte ranges of its section 4, which is what `String::from_utf8`
    accepts.  The theorem at the end says the two describe the same strings. */
module Utf8 {
  import opened Common

  type Byte = x: int | 0 <= x < 256

  /** A Unicode scalar value: a code point that is not a surrogate. */
  type Scalar = c: int | 0 <= c < 0xD800 || 0xE000 <= c < 0x11_0000

  type Text = seq<Scalar>

  // ----- section 3: encoding -----

  function EncodeScalar(scalar: Scalar): seq<Byte> {
    var c: int := scalar;
    if c < 0x80 then [c]
    else if c < 0x800 then [0xC0 + c / 0x40, 0x80 + c % 0x40]
    else if c < 0x1_0000 then [0xE0 + c / 0x1000, 0x80 + c / 0x40 % 0x40, 0x80 + c % 0x40]
    else
      assert c / 0x4_0000 <= 4;
      [0xF0 + c / 0x4_0000, 0x80 + c / 0x1000 % 0x40, 0x80 + c / 0x40 % 0x40, 0x80 + c % 0x40]
  }

  function Encode(t: Text): seq<Byte> {
    if t == [] then [] else EncodeScalar(t[0]) + Encode(t[1..])
  }

  /** No scalar takes more than four bytes. */
  lemma {:induction false} EncodedLength(t: Text)
    ensures |Encode(t)| <= 4 * |t|
  {
    if t == [] {
    } else {
      EncodedLength(t[1..]);
    }
  }

  /** The text of a string literal. */
  function Scalars(s: string): (t: Text)
    ensures |t| == |s|
  {
    seq(|s|, i requires 0 <= i < |s| => s[i] as Scalar)
  }

  /** ASCII is sent as it is. */
  lemma {:induction false} AsciiAsItIs(t: Text)
    requires forall i | 0 <= i < |t| :: t[i] < 0x80
    ensures |Encode(t)| == |t| && forall i | 0 <= i < |t| :: Encode(t)[i] == t[i]
  {
    if t == [] {
    } else {
      AsciiAsItIs(t[1..]);
    }
  }

  /** The first example of section 7, "A<NOT IDENTICAL TO><ALPHA>.", and a character of four bytes. */
  lemma Examples()
    ensures Encode([0x41, 0x2262, 0x391, 0x2E]) == [0x41, 0xE2, 0x89, 0xA2, 0xCE, 0x91, 0x2E]
    ensures Encode([0x2_33B4]) == [0xF0, 0xA3, 0x8E, 0xB4]
  {
    EncodeCons(0x41, [0x2262, 0x391, 0x2E]);
    EncodeCons(0x2262, [0x391, 0x2E]);
    EncodeCons(0x391, [0x2E]);
    EncodeCons(0x2E, []);
    EncodeCons(0x2_33B4, []);
  }

  lemma EncodeCons(c: Scalar, t: Text)
    ensures Encode([c] + t) == EncodeScalar(c) + Encode(t)
  {
    assert ([c] + t)[1..] == t;
  }

  // ----- section 4: the byte sequences that are well formed -----

  predicate Tail(b: Byte) {
    0x80 <= b <= 0xBF
  }

  datatype Head = Malformed | Head(c: Scalar, length: nat)

  /** The second byte of a three-byte sequence: E0 excludes overlong forms, ED surrogates. */
  predicate SecondOfThree(a: Byte, b: Byte) {
    (if a == 0xE0 then 0xA0 else 0x80) <= b <= (if a == 0xED then 0x9F else 0xBF)
  }

  /** The second byte of a four-byte sequence: F0 excludes overlong forms, F4 values past 10FFFF. */
  predicate SecondOfFour(a: Byte, b: Byte) {
    (if a == 0xF0 then 0x90 else 0x80) <= b <= (if a == 0xF4 then 0x8F else 0xBF)
  }

  function DecodeHead(b: seq<Byte>): Head
    requires b != []
  {
    if b[0] <= 0x7F then
      Head(b[0], 1)
    else if 0xC2 <= b[0] <= 0xDF && |b| >= 2 && Tail(b[1]) then
      Head(Join2(b[0], b[1]), 2)
    else if 0xE0 <= b[0] <= 0xEF && |b| >= 3 && SecondOfThree(b[0], b[1]) && Tail(b[2]) then
      Head(Join3(b[0], b[1], b[2]), 3)
    else if 0xF0 <= b[0] <= 0xF4 && |b| >= 4 && SecondOfFour(b[0], b[1]) && Tail(b[2]) && Tail(b[3]) then
      Head(Join4(b[0], b[1], b[2], b[3]), 4)
    else
      Malformed
  }

  function Join2(a: int, b: int): int { (a - 0xC0) * 0x40 + (b - 0x80) }

  function Join3(a: int, b: int, c: int): int { (a - 0xE0) * 0x1000 + (b - 0x80) * 0x40 + (c - 0x80) }

  function Join4(a: int, b: int, c: int, d: int): int {
    (a - 0xF0) * 0x4_0000 + (b - 0x80) * 0x1000 + (c - 0x80) * 0x40 + (d - 0x80)
  }

  function FromUtf8(b: seq<Byte>): Option<Text>
    decreases |b|
  {
    if b == [] then Some([])
    else match DecodeHead(b)
      case Malformed => None
      case Head(c, n) =>
        if 0 < n <= |b| then
          match FromUtf8(b[n..])
          case None => None
          case Some(t) => Some([c] + t)
        else None
  }

  // ----- the two agree -----

  /** The three low six-bit groups of a number, and what is left above them. */
  lemma Groups(high: int, c: int, d: int, e: int)
    requires 0 <= c < 0x40 && 0 <= d < 0x40 && 0 <= e < 0x40
    ensures var x := high * 0x4_0000 + c * 0x1000 + d * 0x40 + e;
            x % 0x40 == e && x / 0x40 % 0x40 == d && x / 0x1000 % 0x40 == c && x / 0x4_0000 == high
            && x / 0x1000 == high * 0x40 + c && x / 0x40 == (high * 0x40 + c) * 0x40 + d
  {
    var x := high * 0x4_0000 + c * 0x1000 + d * 0x40 + e;
    var y := high * 0x1000 + c * 0x40 + d;
    assert x == y * 0x40 + e;
    assert x / 0x40 == y;
    assert x / 0x1000 == y / 0x40 == high * 0x40 + c;
    assert x / 0x4_0000 == y / 0x1000 == high;
  }

  lemma HeadOfEncoded(scalar: Scalar, rest: seq<Byte>)
    ensures DecodeHead(EncodeScalar(scalar) + rest) == Head(scalar, |EncodeScalar(scalar)|)
  {
    JoinsBack(scalar);
    EncodedShape(scalar);
    var s := EncodeScalar(scalar);
    var b := s + rest;
    assert b[0] == s[0];
    assert |s| > 1 ==> b[1] == s[1];
    assert |s| > 2 ==> b[2] == s[2];
    assert |s| > 3 ==> b[3] == s[3];
  }

  /** A number as its six-bit groups. */
  lemma GroupsOf(x: nat)
    ensures x == x / 0x4_0000 * 0x4_0000 + x / 0x1000 % 0x40 * 0x1000 + x / 0x40 % 0x40 * 0x40 + x % 0x40
    ensures x / 0x1000 == x / 0x4_0000 * 0x40 + x / 0x1000 % 0x40
    ensures x / 0x40 == (x / 0x4_0000 * 0x40 + x / 0x1000 % 0x40) * 0x40 + x / 0x40 % 0x40
  {
    assert x / 0x1000 == x / 0x40 / 0x40;
    assert x / 0x4_0000 == x / 0x1000 / 0x40;
  }

  /** The bytes of an encoded scalar join to the scalar again ... */
  lemma JoinsBack(scalar: Scalar)
    ensures var s := EncodeScalar(scalar);
            && (|s| == 1 ==> s[0] == scalar)
            && (|s| == 2 ==> Join2(s[0], s[1]) == scalar)
            && (|s| == 3 ==> Join3(s[0], s[1], s[2]) == scalar)
            && (|s| == 4 ==> Join4(s[0], s[1], s[2], s[3]) == scalar)
  {
    GroupsOf(scalar);
  }

  /** ... and fall into the ranges of the table. */
  lemma EncodedShape(scalar: Scalar)
    ensures var s := EncodeScalar(scalar);
            && (|s| == 1 ==> s[0] <= 0x7F)
            && (|s| == 2 ==> 0xC2 <= s[0] <= 0xDF && Tail(s[1]))
            && (|s| == 3 ==> 0xE0 <= s[0] <= 0xEF && SecondOfThree(s[0], s[1]) && Tail(s[2]))
            && (|s| == 4 ==> 0xF0 <= s[0] <= 0xF4 && SecondOfFour(s[0], s[1]) && Tail(s[2]) && Tail(s[3]))
  {
    JoinsBack(scalar);
  }

  lemma EncodedOfTwo(a: Byte, b: Byte)
    requires 0xC2 <= a <= 0xDF && Tail(b)
    ensures 0x80 <= Join2(a, b) < 0x800 && EncodeScalar(Join2(a, b)) == [a, b]
  {
    Groups(0, 0, a - 0xC0, b - 0x80);
  }

  lemma EncodedOfThree(a: Byte, b: Byte, c: Byte)
    requires 0xE0 <= a <= 0xEF && SecondOfThree(a, b) && Tail(c)
    ensures 0x800 <= Join3(a, b, c) < 0x1_0000 && !(0xD800 <= Join3(a, b, c) < 0xE000)
    ensures EncodeScalar(Join3(a, b, c)) == [a, b, c]
  {
    Groups(0, a - 0xE0, b - 0x80, c - 0x80);
  }

  lemma EncodedOfFour(a: Byte, b: Byte, c: Byte, d: Byte)
    requires 0xF0 <= a <= 0xF4 && SecondOfFour(a, b) && Tail(c) && Tail(d)
    ensures 0x1_0000 <= Join4(a, b, c, d) < 0x11_0000
    ensures EncodeScalar(Join4(a, b, c, d)) == [a, b, c, d]
  {
    Groups(a - 0xF0, b - 0x80, c - 0x80, d - 0x80);
  }

  lemma EncodedOfHead(b: seq<Byte>)
    requires b != [] && DecodeHead(b).Head?
    ensures DecodeHead(b).length <= |b|
    ensures b[..DecodeHead(b).length] == EncodeScalar(DecodeHead(b).c)
  {
    match DecodeHead(b).length {
      case 1 =>
      case 2 => EncodedOfTwo(b[0], b[1]);
      case 3 => EncodedOfThree(b[0], b[1], b[2]);
      case _ => EncodedOfFour(b[0], b[1], b[2], b[3]);
    }
  }

  lemma {:induction false} DecodesEncoded(t: Text)
    ensures FromUtf8(Encode(t)) == Some(t)
  {
    if t == [] {
    } else {
      var e, rest := EncodeScalar(t[0]), Encode(t[1..]);
      HeadOfEncoded(t[0], rest);
      DecodesEncoded(t[1..]);
      assert (e + rest)[|e|..] == rest;
      assert [t[0]] + t[1..] == t;
    }
  }

  /** What a successful decoding starts with. */
  lemma Decoded(b: seq<Byte>)
    requires b != [] && FromUtf8(b).Some?
    ensures DecodeHead(b).Head? && 0 < DecodeHead(b).length <= |b|
    ensures FromUtf8(b[DecodeHead(b).length..]).Some?
    ensures FromUtf8(b).value == [DecodeHead(b).c] + FromUtf8(b[DecodeHead(b).length..]).value
  {
  }

  lemma EncodesOnto(c: Scalar, t: Text, b: seq<Byte>, n: nat)
    requires n <= |b| && EncodeScalar(c) == b[..n] && Encode(t) == b[n..]
    ensures Encode([c] + t) == b
  {
    EncodeCons(c, t);
    assert b == b[..n] + b[n..];
  }

  lemma {:induction false} EncodesDecoded(b: seq<Byte>)
    requires FromUtf8(b).Some?
    ensures Encode(FromUtf8(b).value) == b
    decreases |b|
  {
    if b == [] {
    } else {
      Decoded(b);
      var head := DecodeHead(b);
      EncodedOfHead(b);
      EncodesDecoded(b[head.length..]);
      EncodesOnto(head.c, FromUtf8(b[head.length..]).value, b, head.length);
    }
  }

  /** Decoding accepts exactly the encodings, and gives back the text they encode. */
  lemma FromUtf8Exact(b: seq<Byte>, t: Text)
    ensures FromUtf8(b) == Some(t) <==> b == Encode(t)
  {
    DecodesEncoded(t);
    if FromUtf8(b).Some? {
      EncodesDecoded(b);
    }
  }
}
