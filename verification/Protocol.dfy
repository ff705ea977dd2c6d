/** src/tunnel/protocol.rs: the frame writers and readers over real streams, each proved
    against the frames and parsers of module Wire. */
module Protocol {
  import opened Common
  import opened Utf8
  import opened Wire
  import opened Streams

  method WriteString(w: Sink, s: Text) returns (r: Result<()>)
    modifies w
    ensures old(w.Healthy()) ==> w.Healthy() && (r.Err? && Fits(s) ==> w.plan == [])
    ensures r == Err(TooLong) <==> !Fits(s)
    ensures r == Err(TooLong) ==> w.written == old(w.written)
    ensures r.Ok? ==> w.written == old(w.written) + StringFrame(s)
    ensures r.Err? && Fits(s) ==>
              r == Err(ConnectionLost) && old(w.written) <= w.written < old(w.written) + StringFrame(s)
  {
    var b := Encode(s);
    if |b| > MAX_STRING {
      return Err(TooLong);
    }
    r := w.WriteAll(LengthPrefix(|b|));
    if r.Err? {
      return;
    }
    r := w.WriteAll(b);
    assert old(w.written) + StringFrame(s) == old(w.written) + LengthPrefix(|b|) + b;
  }

  /** What may be on the wire after a handshake writer returned: all of the frame, or a part of
      it, or the part before a string that cannot be sent. */
  ghost predicate HandshakeSent(before: seq<Byte>, after: seq<Byte>, id: Text, token: Text, r: Result<()>) {
    if Fits(id) && Fits(token) then
      && before <= after <= before + HandshakeFrame(id, token)
      && (r.Ok? ==> after == before + HandshakeFrame(id, token))
    else
      r.Err? && before <= after <= before + BeforeOversized(id, token)
  }

  /** A part of the greeting or of the first string is a part of the whole. */
  lemma StillSending(before: seq<Byte>, after: seq<Byte>, sent: seq<Byte>, id: Text, token: Text, r: Result<()>)
    requires before <= after <= before + sent && r.Err?
    requires sent == Greeting() || (Fits(id) && sent == Greeting() + StringFrame(id))
    ensures HandshakeSent(before, after, id, token, r)
  {
    var whole := if Fits(id) && Fits(token) then HandshakeFrame(id, token) else BeforeOversized(id, token);
    assert sent <= whole;
    assert before + sent <= before + whole;
  }

  /** Writing `b` after `a`: a complete write completes both, a cut one leaves a part of both. */
  lemma WroteMore(before: seq<Byte>, a: seq<Byte>, b: seq<Byte>)
    ensures before + a + b == before + (a + b)
    ensures before + a <= before + (a + b)
  {
    assert (before + a + b)[..|before + a|] == before + a;
  }

  /** The writers of a handshake's first five bytes. */
  method WriteGreeting(w: Sink) returns (r: Result<()>)
    modifies w
    ensures old(w.Healthy()) ==> w.Healthy() && (r.Err? ==> w.plan == [])
    ensures r.Ok? ==> w.written == old(w.written) + Greeting()
    ensures r.Err? ==> old(w.written) <= w.written <= old(w.written) + Greeting()
  {
    WroteMore(w.written, MAGIC, [PROTO_VERSION]);
    r := w.WriteAll(MAGIC);
    if r.Ok? {
      r := w.WriteAll([PROTO_VERSION]);
    }
  }

  method WriteHandshake(w: Sink, id: Text, token: Text) returns (r: Result<()>)
    modifies w
    ensures old(w.Healthy()) ==> w.Healthy() && (r.Err? && Fits(id) && Fits(token) ==> w.plan == [])
    ensures HandshakeSent(old(w.written), w.written, id, token, r)
  {
    ghost var before := w.written;
    r := WriteGreeting(w);
    if r.Err? {
      StillSending(before, w.written, Greeting(), id, token, r);
      return;
    }
    r := WriteString(w, id);
    if r.Err? {
      ghost var sent := if Fits(id) then Greeting() + StringFrame(id) else Greeting();
      if Fits(id) {
        WroteMore(before, Greeting(), StringFrame(id));
      }
      StillSending(before, w.written, sent, id, token, r);
      return;
    }
    WroteMore(before, Greeting(), StringFrame(id));
    r := WriteString(w, token);
    if r.Err? && !Fits(token) {
      StillSending(before, w.written, Greeting() + StringFrame(id), id, token, r);
      return;
    }
    WroteMore(before, Greeting() + StringFrame(id), StringFrame(token));
    if r.Ok? {
      r := w.Flush();
    }
  }

  method WriteStatus(w: Sink, ok: bool, msg: Text) returns (r: Result<()>)
    modifies w
    ensures old(w.Healthy()) ==> w.Healthy() && (r.Err? && Fits(msg) ==> w.plan == [])
    ensures old(w.written) <= w.written
    ensures Fits(msg) ==> w.written <= old(w.written) + StatusFrame(ok, msg)
    ensures !Fits(msg) ==> r.Err? && w.written <= old(w.written) + [if ok then STATUS_OK else STATUS_FAIL]
    ensures r.Ok? ==> Fits(msg) && w.written == old(w.written) + StatusFrame(ok, msg)
  {
    ghost var before := w.written;
    var s := [if ok then STATUS_OK else STATUS_FAIL];
    r := w.WriteAll(s);
    if r.Err? {
      return;
    }
    r := WriteString(w, msg);
    if r.Err? {
      return;
    }
    assert w.written == before + StatusFrame(ok, msg);
    r := w.Flush();
  }

  method WriteTarget(w: Sink, target: Text) returns (r: Result<()>)
    modifies w
    ensures old(w.Healthy()) ==> w.Healthy() && (r.Err? && Fits(target) ==> w.plan == [])
    ensures old(w.written) <= w.written
    ensures Fits(target) ==> w.written <= old(w.written) + StringFrame(target)
    ensures !Fits(target) ==> r.Err? && w.written == old(w.written)
    ensures r.Ok? ==> Fits(target) && w.written == old(w.written) + StringFrame(target)
  {
    r := WriteString(w, target);
    if r.Err? {
      return;
    }
    r := w.Flush();
  }

  /** The reader returned what the parser says of all the bytes to come, and took no more. */
  ghost predicate Reads<T(!new)>(r: Result<T>, left: seq<Byte>, ending: Ending, p: Parse<T>) {
    match p
    case Parsed(v, rest) => r == Ok(v) && left == rest
    case Rejected(e) => r == Err(AtEnd(e, ending))
  }

  method ReadString(src: Source) returns (r: Result<Text>)
    requires src.Valid()
    modifies src`chunks
    ensures src.Valid()
    ensures Reads(r, src.Bytes(), src.ending, ParseString(old(src.Bytes())))
  {
    var prefix := ReadExact(src, 2);
    if prefix.Err? {
      return Err(prefix.error);
    }
    var body := ReadExact(src, LengthOf(prefix.value[0], prefix.value[1]));
    if body.Err? {
      return Err(body.error);
    }
    var t := FromUtf8(body.value);
    r := if t.None? then Err(BadUtf8) else Ok(t.value);
  }

  /** Reads a client announcement, under any chunking, exactly as ParseHandshake reads the
      whole stream. */
  method ReadHandshake(src: Source) returns (r: Result<(Text, Text)>)
    requires src.Valid()
    modifies src`chunks
    ensures src.Valid()
    ensures Reads(r, src.Bytes(), src.ending, ParseHandshake(old(src.Bytes())))
  {
    var magic := ReadExact(src, 4);
    if magic.Err? {
      return Err(magic.error);
    }
    if magic.value != MAGIC {
      return Err(BadMagic);
    }
    var ver := ReadExact(src, 1);
    if ver.Err? {
      return Err(ver.error);
    }
    if ver.value[0] != PROTO_VERSION {
      return Err(BadVersion(ver.value[0]));
    }
    var id := ReadString(src);
    if id.Err? {
      return Err(id.error);
    }
    var token := ReadString(src);
    if token.Err? {
      return Err(token.error);
    }
    r := Ok((id.value, token.value));
  }

  method ReadStatus(src: Source) returns (r: Result<(bool, Text)>)
    requires src.Valid()
    modifies src`chunks
    ensures src.Valid()
    ensures Reads(r, src.Bytes(), src.ending, ParseStatus(old(src.Bytes())))
  {
    var s := ReadExact(src, 1);
    if s.Err? {
      return Err(s.error);
    }
    var msg := ReadString(src);
    if msg.Err? {
      return Err(msg.error);
    }
    r := Ok((s.value[0] == STATUS_OK, msg.value));
  }
}
