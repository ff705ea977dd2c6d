/** The frames of the tunnel protocol as values: what each writer puts on the wire and
    what each reader makes of the bytes it finds there. */
module Wire {
  import opened Common
  import opened Utf8

  const MAGIC: seq<Byte> := [77, 77, 83, 75] // "MMSK"
  const PROTO_VERSION: Byte := 1
  const STATUS_OK: Byte := 1
  const STATUS_FAIL: Byte := 0
  const MAX_STRING := 0xFFFF

  datatype WireError = UnexpectedEof | ConnectionLost | BadMagic | BadVersion(version: Byte) | BadUtf8 | TooLong

  /** What a reader returns when every byte the stream will ever carry is `b`: the value
      and the bytes it has not taken, or the error it stops with. */
  datatype Parse<+T> = Parsed(value: T, rest: seq<Byte>) | Rejected(error: WireError)

  // ----- writers -----

  predicate Fits(t: Text) {
    |Encode(t)| <= MAX_STRING
  }

  function LengthPrefix(n: nat): seq<Byte>
    requires n <= MAX_STRING
  {
    [n / 0x100, n % 0x100]
  }

  function StringFrame(t: Text): seq<Byte>
    requires Fits(t)
  {
    LengthPrefix(|Encode(t)|) + Encode(t)
  }

  function Greeting(): seq<Byte> {
    MAGIC + [PROTO_VERSION]
  }

  function HandshakeFrame(id: Text, token: Text): seq<Byte>
    requires Fits(id) && Fits(token)
  {
    Greeting() + StringFrame(id) + StringFrame(token)
  }

  function StatusFrame(ok: bool, msg: Text): seq<Byte>
    requires Fits(msg)
  {
    [if ok then STATUS_OK else STATUS_FAIL] + StringFrame(msg)
  }

  // ----- readers -----

  /** `read_exact` of n bytes. */
  function Take(b: seq<Byte>, n: nat): Parse<seq<Byte>> {
    if |b| < n then Rejected(UnexpectedEof) else Parsed(b[..n], b[n..])
  }

  /** The big-endian value of a two-byte length prefix. */
  function LengthOf(high: int, low: int): int {
    high * 0x100 + low
  }

  /** The raw body of a length-prefixed string. */
  function TakeBody(b: seq<Byte>): Parse<seq<Byte>> {
    match Take(b, 2)
    case Rejected(e) => Rejected(e)
    case Parsed(prefix, r) => Take(r, LengthOf(prefix[0], prefix[1]))
  }

  function ParseString(b: seq<Byte>): Parse<Text> {
    match TakeBody(b)
    case Rejected(e) => Rejected(e)
    case Parsed(body, rest) =>
      match FromUtf8(body)
      case None => Rejected(BadUtf8)
      case Some(t) => Parsed(t, rest)
  }

  function ParseGreeting(b: seq<Byte>): Parse<()> {
    match Take(b, 4)
    case Rejected(e) => Rejected(e)
    case Parsed(magic, r) =>
      if magic != MAGIC then Rejected(BadMagic)
      else match Take(r, 1)
        case Rejected(e) => Rejected(e)
        case Parsed(version, r) =>
          if version[0] != PROTO_VERSION then Rejected(BadVersion(version[0])) else Parsed((), r)
  }

  function ParseHandshake(b: seq<Byte>): Parse<(Text, Text)> {
    match ParseGreeting(b)
    case Rejected(e) => Rejected(e)
    case Parsed(_, r) =>
      match ParseString(r)
      case Rejected(e) => Rejected(e)
      case Parsed(id, r) =>
        match ParseString(r)
        case Rejected(e) => Rejected(e)
        case Parsed(token, rest) => Parsed((id, token), rest)
  }

  function ParseStatus(b: seq<Byte>): Parse<(bool, Text)> {
    match Take(b, 1)
    case Rejected(e) => Rejected(e)
    case Parsed(s, r) =>
      match ParseString(r)
      case Rejected(e) => Rejected(e)
      case Parsed(msg, rest) => Parsed((s[0] == STATUS_OK, msg), rest)
  }

  // ----- where everything is -----

  /** At position i of the frame: a length of two bytes, the high one first, and then the text. */
  predicate StringAt(f: seq<Byte>, i: nat, t: Text) {
    && i + 2 + |Encode(t)| <= |f|
    && f[i] as int * 256 + f[i + 1] as int == |Encode(t)|
    && f[i + 2..i + 2 + |Encode(t)|] == Encode(t)
  }

  lemma StringIsAt(before: seq<Byte>, t: Text, behind: seq<Byte>)
    requires Fits(t)
    ensures StringAt(before + StringFrame(t) + behind, |before|, t)
    ensures |StringFrame(t)| == 2 + |Encode(t)|
  {
    var f := before + StringFrame(t) + behind;
    assert f[|before|] == LengthPrefix(|Encode(t)|)[0] && f[|before| + 1] == LengthPrefix(|Encode(t)|)[1];
    assert f[|before| + 2..|before| + 2 + |Encode(t)|] == Encode(t);
  }

  /** A handshake byte by byte: the letters MMSK, the version 1, the client id, the token, and no more. */
  lemma HandshakeLayout(id: Text, token: Text)
    requires Fits(id) && Fits(token)
    ensures var f := HandshakeFrame(id, token);
            && |f| == 9 + |Encode(id)| + |Encode(token)|
            && f[..5] == ['M' as int, 'M' as int, 'S' as int, 'K' as int, 1]
            && StringAt(f, 5, id) && StringAt(f, 7 + |Encode(id)|, token)
  {
    var f := HandshakeFrame(id, token);
    StringIsAt(Greeting(), id, StringFrame(token));
    StringIsAt(Greeting() + StringFrame(id), token, []);
    assert f == Greeting() + StringFrame(id) + StringFrame(token) + [];
  }

  /** A status: 1 for yes and 0 for no, and the message. */
  lemma StatusLayout(ok: bool, msg: Text)
    requires Fits(msg)
    ensures var f := StatusFrame(ok, msg);
            |f| == 3 + |Encode(msg)| && f[0] == (if ok then 1 else 0) && StringAt(f, 1, msg)
  {
    var head := [if ok then STATUS_OK else STATUS_FAIL];
    StringIsAt(head, msg, []);
    assert StatusFrame(ok, msg) == head + StringFrame(msg) + [];
  }

  // ----- exactness: a reader accepts what the writer wrote, and nothing else -----

  lemma PrefixOfLength(high: Byte, low: Byte)
    ensures 0 <= LengthOf(high, low) <= MAX_STRING && LengthPrefix(LengthOf(high, low)) == [high, low]
  {
  }

  lemma LengthOfPrefix(n: nat)
    requires n <= MAX_STRING
    ensures LengthOf(LengthPrefix(n)[0], LengthPrefix(n)[1]) == n
  {
  }

  lemma TakeBodySound(b: seq<Byte>)
    requires TakeBody(b).Parsed?
    ensures var (body, rest) := (TakeBody(b).value, TakeBody(b).rest);
            |body| <= MAX_STRING && b == LengthPrefix(|body|) + body + rest
  {
    PrefixOfLength(b[0], b[1]);
    var n := LengthOf(b[0], b[1]);
    assert b[..2] == [b[0], b[1]];
    assert b == b[..2] + b[2..][..n] + b[2..][n..];
  }

  lemma TakeBodyComplete(body: seq<Byte>, rest: seq<Byte>)
    requires |body| <= MAX_STRING
    ensures TakeBody(LengthPrefix(|body|) + body + rest) == Parsed(body, rest)
  {
    LengthOfPrefix(|body|);
    var b := LengthPrefix(|body|) + body + rest;
    assert b[..2] == LengthPrefix(|body|);
    assert b[2..] == body + rest;
    assert b[2..][..|body|] == body && b[2..][|body|..] == rest;
  }

  lemma ReadStringSound(b: seq<Byte>)
    ensures var p := ParseString(b); p.Parsed? ==> Fits(p.value) && b == StringFrame(p.value) + p.rest
  {
    if ParseString(b).Parsed? {
      TakeBodySound(b);
      EncodesDecoded(TakeBody(b).value);
    }
  }

  lemma ReadStringComplete(t: Text, rest: seq<Byte>)
    requires Fits(t)
    ensures ParseString(StringFrame(t) + rest) == Parsed(t, rest)
  {
    TakeBodyComplete(Encode(t), rest);
    DecodesEncoded(t);
  }

  lemma StringExact(b: seq<Byte>, t: Text, rest: seq<Byte>)
    ensures ParseString(b) == Parsed(t, rest) <==> Fits(t) && b == StringFrame(t) + rest
  {
    ReadStringSound(b);
    if Fits(t) {
      ReadStringComplete(t, rest);
    }
  }

  lemma GreetingExact(b: seq<Byte>, rest: seq<Byte>)
    ensures ParseGreeting(b) == Parsed((), rest) <==> b == Greeting() + rest
  {
    if ParseGreeting(b) == Parsed((), rest) {
      assert b == b[..4] + b[4..][..1] + b[4..][1..];
    }
    if b == Greeting() + rest {
      assert b[..4] == MAGIC && b[4..][..1] == [PROTO_VERSION] && b[4..][1..] == rest;
    }
  }

  lemma Reassociate(a: seq<Byte>, b: seq<Byte>, c: seq<Byte>, rest: seq<Byte>)
    ensures a + (b + (c + rest)) == a + b + c + rest
  {
  }

  /** The three readers of a handshake, one after the other. */
  lemma HandshakeParts(b: seq<Byte>, id: Text, token: Text, rest: seq<Byte>)
    ensures ParseHandshake(b) == Parsed((id, token), rest) <==>
            && ParseGreeting(b).Parsed?
            && ParseString(ParseGreeting(b).rest).Parsed? && ParseString(ParseGreeting(b).rest).value == id
            && ParseString(ParseString(ParseGreeting(b).rest).rest) == Parsed(token, rest)
  {
  }

  lemma ReadHandshakeSound(b: seq<Byte>, id: Text, token: Text, rest: seq<Byte>)
    ensures ParseHandshake(b) == Parsed((id, token), rest) ==>
              Fits(id) && Fits(token) && b == HandshakeFrame(id, token) + rest
  {
    HandshakeParts(b, id, token, rest);
    if ParseHandshake(b) == Parsed((id, token), rest) {
      var r := ParseGreeting(b).rest;
      var q := ParseString(r).rest;
      GreetingExact(b, r);
      StringExact(r, id, q);
      StringExact(q, token, rest);
      Reassociate(Greeting(), StringFrame(id), StringFrame(token), rest);
    }
  }

  lemma ReadHandshakeComplete(id: Text, token: Text, rest: seq<Byte>)
    requires Fits(id) && Fits(token)
    ensures ParseHandshake(HandshakeFrame(id, token) + rest) == Parsed((id, token), rest)
  {
    var q := StringFrame(token) + rest;
    var r := StringFrame(id) + q;
    FrameParts(id, token, rest);
    GreetingExact(Greeting() + r, r);
    StringExact(r, id, q);
    StringExact(q, token, rest);
    HandshakeParts(Greeting() + r, id, token, rest);
  }

  lemma FrameParts(id: Text, token: Text, rest: seq<Byte>)
    requires Fits(id) && Fits(token)
    ensures HandshakeFrame(id, token) + rest == Greeting() + (StringFrame(id) + (StringFrame(token) + rest))
  {
  }

  /** The server reads (id, token) and leaves exactly `rest` if and only if the stream is the
      handshake frame of (id, token) followed by `rest`. */
  lemma HandshakeExact(b: seq<Byte>, id: Text, token: Text, rest: seq<Byte>)
    ensures ParseHandshake(b) == Parsed((id, token), rest)
            <==> Fits(id) && Fits(token) && b == HandshakeFrame(id, token) + rest
  {
    ReadHandshakeSound(b, id, token, rest);
    if Fits(id) && Fits(token) {
      ReadHandshakeComplete(id, token, rest);
    }
  }

  /** The status reader takes any first byte; only STATUS_OK means acceptance. */
  lemma StatusExact(b: seq<Byte>, ok: bool, msg: Text, rest: seq<Byte>)
    ensures ParseStatus(b) == Parsed((ok, msg), rest)
            <==> Fits(msg) && b != [] && ok == (b[0] == STATUS_OK) && b == [b[0]] + StringFrame(msg) + rest
  {
    if b != [] {
      assert b == b[..1] + b[1..];
      StringExact(b[1..], msg, rest);
      if Fits(msg) && b == [b[0]] + StringFrame(msg) + rest {
        assert b[1..] == StringFrame(msg) + rest;
      }
    }
  }

  /** No handshake is a prefix of another one: two streams that agree as bytes carry the
      same credentials and the same bytes after them. */
  lemma HandshakePrefixFree(id: Text, token: Text, rest: seq<Byte>, id': Text, token': Text, rest': seq<Byte>)
    requires Fits(id) && Fits(token) && Fits(id') && Fits(token')
    requires HandshakeFrame(id, token) + rest == HandshakeFrame(id', token') + rest'
    ensures id == id' && token == token' && rest == rest'
  {
    var b := HandshakeFrame(id, token) + rest;
    HandshakeExact(b, id, token, rest);
    HandshakeExact(b, id', token', rest');
  }

  // ----- truncation: bytes cut short are never accepted -----

  /** `p` is what is on the wire when a writer of `f` stopped before its end. */
  predicate Truncation(p: seq<Byte>, f: seq<Byte>) {
    p < f
  }

  lemma TruncatedString(p: seq<Byte>, t: Text)
    requires Fits(t) && Truncation(p, StringFrame(t))
    ensures ParseString(p) == Rejected(UnexpectedEof)
  {
    var f := StringFrame(t);
    if |p| >= 2 {
      assert p[0] == f[0] && p[1] == f[1];
      assert LengthOf(p[0], p[1]) == |Encode(t)|;
    }
  }

  lemma TruncatedGreeting(p: seq<Byte>)
    requires Truncation(p, Greeting())
    ensures ParseHandshake(p) == Rejected(UnexpectedEof)
  {
    if |p| == 4 {
      assert p == MAGIC;
    }
  }

  /** The greeting is whole; what follows it is cut short. */
  lemma TruncatedCredentials(p: seq<Byte>, q: seq<Byte>, id: Text, token: Text)
    requires Fits(id) && Fits(token) && ParseGreeting(p) == Parsed((), q)
    requires Truncation(q, StringFrame(id) + StringFrame(token))
    ensures ParseHandshake(p) == Rejected(UnexpectedEof)
  {
    var s := StringFrame(id);
    if |q| < |s| {
      TruncatedString(q, id);
    } else {
      assert q == s + q[|s|..];
      StringExact(q, id, q[|s|..]);
      TruncatedString(q[|s|..], token);
    }
  }

  lemma TruncatedHandshake(p: seq<Byte>, id: Text, token: Text)
    requires Fits(id) && Fits(token) && Truncation(p, HandshakeFrame(id, token))
    ensures ParseHandshake(p) == Rejected(UnexpectedEof)
  {
    var g, rest := Greeting(), StringFrame(id) + StringFrame(token);
    assert HandshakeFrame(id, token) == g + rest;
    if |p| < |g| {
      TruncatedGreeting(p);
    } else {
      var q := p[|g|..];
      assert p == g + q;
      GreetingExact(p, q);
      TruncatedCredentials(p, q, id, token);
    }
  }

  lemma TruncatedStatus(p: seq<Byte>, ok: bool, msg: Text)
    requires Fits(msg) && Truncation(p, StatusFrame(ok, msg))
    ensures ParseStatus(p) == Rejected(UnexpectedEof)
  {
    if p != [] {
      assert p[1..] < StringFrame(msg) by {
        assert StatusFrame(ok, msg)[1..] == StringFrame(msg);
      }
      TruncatedString(p[1..], msg);
    }
  }

  /** The bytes a handshake writer has emitted when it meets a string it cannot send. */
  function BeforeOversized(id: Text, token: Text): seq<Byte>
    requires !Fits(id) || !Fits(token)
  {
    if !Fits(id) then Greeting() else Greeting() + StringFrame(id)
  }

  lemma TinyTextFits()
    ensures Fits([])
  {
  }

  /** A handshake that fails because a string is too long leaves bytes that the server does
      not accept at the end of the stream, however few of them arrive. */
  lemma OversizedRejected(id: Text, token: Text, p: seq<Byte>)
    requires !Fits(id) || !Fits(token)
    requires p <= BeforeOversized(id, token)
    ensures ParseHandshake(p) == Rejected(UnexpectedEof)
  {
    TinyTextFits();
    var sent: Text := if Fits(id) then id else [];
    var f := HandshakeFrame(sent, []);
    assert |StringFrame([])| == 2;
    assert BeforeOversized(id, token) < f by {
      assert f == Greeting() + (StringFrame(sent) + StringFrame([]));
    }
    TruncatedHandshake(p, sent, []);
  }

  /** The same for a status or target whose text is too long: at most the status byte got out. */
  lemma OversizedTextRejected(ok: bool, p: seq<Byte>)
    requires p <= [if ok then STATUS_OK else STATUS_FAIL]
    ensures ParseStatus(p) == Rejected(UnexpectedEof) && ParseString([]) == Rejected(UnexpectedEof)
  {
    TinyTextFits();
    assert p < StatusFrame(ok, []);
    TruncatedStatus(p, ok, []);
  }
}
