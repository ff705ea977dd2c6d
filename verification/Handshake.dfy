/** One tunnel connection from its first byte to yamux, both ends, down to the bytes: the client of
    src/client.rs and the handler of src/tunnel/listener.rs.  Either side may stop anywhere, bytes
    arrive in any pieces, and the administrator may change the store at any time. */
module Handshake {
  import opened Common
  import opened Utf8
  import opened Wire
  import opened Store

  /** The characters of a text: a Unicode scalar value is a character. */
  function Chars(t: Text): string {
    seq(|t|, i requires 0 <= i < |t| => t[i] as char)
  }

  const OK_MESSAGE := Scalars("ok")

  datatype Server =
    | Reading
    | Got(token: Text)
    | Known(client: string)
    | Replying
    | Up
    | Ended

  datatype Client = Writing | AwaitingStatus | Connected | GaveUp

  /** `c2s` and `s2c` are the bytes written so far in each direction, `clientData` and `serverData`
      those of them that belong to yamux.  `serverAt` and `clientAt` count the bytes each side has
      taken for the handshake.  `seen` is the store at the moment of verification, `verifiedAs` its
      answer, `inserted` the client id a session was inserted for, `reply` the status decided on. */
  datatype Link = Link(id: Text, token: Text, pepper: string, store: seq<Store.Client>,
                       c2s: seq<Byte>, s2c: seq<Byte>, clientData: seq<Byte>, serverData: seq<Byte>,
                       server: Server, client: Client, serverAt: nat, clientAt: nat,
                       seen: seq<Store.Client>, verifiedAs: Option<string>, inserted: Option<string>,
                       reply: Option<(bool, Text)>)

  datatype Event =
    | StoreChanges(store: seq<Store.Client>)
    | ClientWrites(n: nat)
    | ServerReads(n: nat)          // with the first n bytes arrived
    | ServerVerifies(refusal: Text)
    | SessionInsert(full: bool, refusal: Text)
    | ServerWrites(n: nat)
    | ClientReads(n: nat)          // with the first n bytes arrived
    | ClientSends(data: seq<Byte>) // yamux
    | ServerSends(data: seq<Byte>) // yamux
    | ClientStops
    | ServerStops

  function Begin(id: Text, token: Text, pepper: string, store: seq<Store.Client>): Link {
    Link(id, token, pepper, store, [], [], [], [], Reading, Writing, 0, 0, [], None, None, None)
  }

  /** All that the client's handshake writer would write. */
  function Outgoing(id: Text, token: Text): seq<Byte> {
    if Fits(id) && Fits(token) then HandshakeFrame(id, token) else BeforeOversized(id, token)
  }

  function ReplyFrame(reply: Option<(bool, Text)>): seq<Byte> {
    if reply.Some? && Fits(reply.value.1) then StatusFrame(reply.value.0, reply.value.1) else []
  }

  function Next(h: Link, e: Event): Link {
    match e
    case StoreChanges(store) => h.(store := store)
    case ClientWrites(n) =>
      if h.client.Writing? && |h.c2s| + n <= |Outgoing(h.id, h.token)| then
        h.(c2s := Outgoing(h.id, h.token)[..|h.c2s| + n],
           client := if |h.c2s| + n < |Outgoing(h.id, h.token)| then Writing
                     else if Fits(h.id) && Fits(h.token) then AwaitingStatus else GaveUp)
      else h
    case ServerReads(n) =>
      if h.server.Reading? && n <= |h.c2s| then
        match ParseHandshake(h.c2s[..n])
        case Parsed(v, rest) => h.(server := Got(v.1), serverAt := n - |rest|)
        case Rejected(_) => h
      else h
    case ServerVerifies(refusal) =>
      if h.server.Got? && Fits(refusal) then
        match VerifyToken(h.store, Chars(h.server.token), h.pepper)
        case Some(client) => h.(server := Known(client), seen := h.store, verifiedAs := Some(client))
        case None => h.(server := Replying, reply := Some((false, refusal)))
      else h
    case SessionInsert(full, refusal) =>
      if h.server.Known? && Fits(refusal) then
        if full then h.(server := Replying, reply := Some((false, refusal)))
        else h.(server := Replying, reply := Some((true, OK_MESSAGE)), inserted := Some(h.server.client))
      else h
    case ServerWrites(n) =>
      if h.server.Replying? && |h.s2c| + n <= |ReplyFrame(h.reply)| then
        h.(s2c := ReplyFrame(h.reply)[..|h.s2c| + n],
           server := if |h.s2c| + n < |ReplyFrame(h.reply)| then Replying
                     else if h.reply.Some? && h.reply.value.0 then Up else Ended)
      else h
    case ClientReads(n) =>
      if h.client.AwaitingStatus? && n <= |h.s2c| then
        match ParseStatus(h.s2c[..n])
        case Parsed(v, rest) => h.(client := if v.0 then Connected else GaveUp, clientAt := n - |rest|)
        case Rejected(_) => h
      else h
    case ClientSends(data) =>
      if h.client.Connected? then h.(c2s := h.c2s + data, clientData := h.clientData + data) else h
    case ServerSends(data) =>
      if h.server.Up? then h.(s2c := h.s2c + data, serverData := h.serverData + data) else h
    case ClientStops => if h.client.Connected? then h else h.(client := GaveUp)
    case ServerStops => h.(server := Ended)
  }

  function Run(h: Link, events: seq<Event>): Link {
    if events == [] then h else Next(Run(h, events[..|events| - 1]), events[|events| - 1])
  }

  // ----- invariants -----

  /** What the client has put on the wire. */
  predicate ClientWrote(id: Text, token: Text, client: Client, c2s: seq<Byte>, data: seq<Byte>) {
    if client.Connected? then
      Fits(id) && Fits(token) && c2s == HandshakeFrame(id, token) + data
    else
      && data == [] && c2s <= Outgoing(id, token)
      && (client.AwaitingStatus? ==> Fits(id) && Fits(token) && c2s == HandshakeFrame(id, token))
  }

  /** What the server has put on the wire. */
  predicate ServerWrote(reply: Option<(bool, Text)>, server: Server, s2c: seq<Byte>, data: seq<Byte>) {
    && (reply.Some? ==> Fits(reply.value.1))
    && (data == [] ==> s2c <= ReplyFrame(reply))
    && (data != [] || server.Up? ==> reply == Some((true, OK_MESSAGE)) && s2c == ReplyFrame(reply) + data)
    && (server.Replying? ==> data == [])
  }

  /** What the server knows of the client. */
  predicate ServerKnows(id: Text, token: Text, pepper: string, server: Server, at: nat,
                        seen: seq<Store.Client>, verifiedAs: Option<string>) {
    && (server.Got? ==> server.token == token)
    && (!server.Reading? && !server.Ended? ==> Fits(id) && Fits(token) && at == |HandshakeFrame(id, token)|)
    && (server.Reading? || server.Got? ==> verifiedAs.None?)
    && (server.Known? ==> verifiedAs == Some(server.client))
    && (verifiedAs.Some? ==> VerifyToken(seen, Chars(token), pepper) == verifiedAs)
  }

  /** What the server decided: only a verified client gets a session, and only one that did is told ok. */
  predicate ServerDecided(server: Server, verifiedAs: Option<string>, inserted: Option<string>,
                          reply: Option<(bool, Text)>) {
    && (server.Reading? || server.Got? || server.Known? ==> reply.None? && inserted.None?)
    && (server.Replying? || server.Up? ==> reply.Some?)
    && (inserted.Some? ==> inserted == verifiedAs)
    && (reply.Some? && reply.value.0 ==> inserted.Some? && reply.value.1 == OK_MESSAGE)
  }

  /** A connected client was let in. */
  predicate ClientKnows(client: Client, at: nat, reply: Option<(bool, Text)>, s2c: seq<Byte>) {
    client.Connected? ==>
      reply == Some((true, OK_MESSAGE)) && ReplyFrame(reply) <= s2c && at == |ReplyFrame(reply)|
  }

  predicate LinkInv(h: Link) {
    && ClientWrote(h.id, h.token, h.client, h.c2s, h.clientData)
    && ServerWrote(h.reply, h.server, h.s2c, h.serverData)
    && ServerKnows(h.id, h.token, h.pepper, h.server, h.serverAt, h.seen, h.verifiedAs)
    && ServerDecided(h.server, h.verifiedAs, h.inserted, h.reply)
    && ClientKnows(h.client, h.clientAt, h.reply, h.s2c)
  }

  lemma OkFits()
    ensures Fits(OK_MESSAGE)
  {
    EncodedLength(OK_MESSAGE);
  }

  // ----- what the readers can see -----

  /** A part of `f` followed by more is a strict part of f, or all of f and the rest. */
  lemma PartOf(b: seq<Byte>, f: seq<Byte>, more: seq<Byte>)
    requires b <= f + more
    ensures |b| < |f| ==> Truncation(b, f)
    ensures |b| >= |f| ==> b == f + b[|f|..]
  {
    assert f <= f + more;
  }

  lemma ArrivedHandshake(id: Text, token: Text, b: seq<Byte>, more: seq<Byte>)
    requires Fits(id) && Fits(token) && b <= HandshakeFrame(id, token) + more
    ensures var f := HandshakeFrame(id, token);
            ParseHandshake(b) == if |b| < |f| then Rejected(UnexpectedEof) else Parsed((id, token), b[|f|..])
  {
    var f := HandshakeFrame(id, token);
    PartOf(b, f, more);
    if |b| < |f| {
      TruncatedHandshake(b, id, token);
    } else {
      ReadHandshakeComplete(id, token, b[|f|..]);
    }
  }

  /** Whatever part of the client's bytes has arrived, if the server reads a handshake from it, it is
      the client's, and all of it. */
  lemma ServerSeesClient(id: Text, token: Text, client: Client, c2s: seq<Byte>, data: seq<Byte>, n: nat)
    requires ClientWrote(id, token, client, c2s, data) && n <= |c2s|
    ensures var p := ParseHandshake(c2s[..n]);
            p.Parsed? ==>
              Fits(id) && Fits(token) && p.value == (id, token) && n == |HandshakeFrame(id, token)| + |p.rest|
  {
    if Fits(id) && Fits(token) {
      assert HandshakeFrame(id, token) + [] == HandshakeFrame(id, token);
      ArrivedHandshake(id, token, c2s[..n], data);
    } else {
      OversizedRejected(id, token, c2s[..n]);
    }
  }

  lemma ArrivedStatus(b: seq<Byte>, ok: bool, msg: Text, more: seq<Byte>)
    requires Fits(msg) && b <= StatusFrame(ok, msg) + more
    ensures var f := StatusFrame(ok, msg);
            ParseStatus(b) == if |b| < |f| then Rejected(UnexpectedEof) else Parsed((ok, msg), b[|f|..])
  {
    var f := StatusFrame(ok, msg);
    PartOf(b, f, more);
    if |b| < |f| {
      TruncatedStatus(b, ok, msg);
    } else {
      assert b == [b[0]] + StringFrame(msg) + b[|f|..];
      StatusExact(b, ok, msg, b[|f|..]);
    }
  }

  /** Whatever part of the server's bytes has arrived, if the client reads a status from it, it is the
      one the server decided on, and all of it. */
  lemma ClientSeesServer(reply: Option<(bool, Text)>, server: Server, s2c: seq<Byte>, data: seq<Byte>, n: nat)
    requires ServerWrote(reply, server, s2c, data) && n <= |s2c| && ParseStatus(s2c[..n]).Parsed?
    ensures reply.Some? && ParseStatus(s2c[..n]).value == reply.value
    ensures n == |ReplyFrame(reply)| + |ParseStatus(s2c[..n]).rest|
    ensures ReplyFrame(reply) <= s2c
  {
    assert ReplyFrame(reply) + [] == ReplyFrame(reply);
    if reply.Some? {
      ArrivedStatus(s2c[..n], reply.value.0, reply.value.1, data);
    }
  }

  // ----- steps -----

  lemma ClientWritesInv(h: Link, n: nat)
    requires LinkInv(h)
    ensures LinkInv(Next(h, ClientWrites(n)))
  {
  }

  lemma ServerWritesMore(reply: Option<(bool, Text)>, s2c: seq<Byte>, n: nat)
    requires ServerWrote(reply, Replying, s2c, []) && |s2c| + n <= |ReplyFrame(reply)|
    requires reply.Some? && reply.value.0 ==> reply.value.1 == OK_MESSAGE
    ensures var more := ReplyFrame(reply)[..|s2c| + n];
            s2c <= more && ServerWrote(reply, if |more| < |ReplyFrame(reply)| then Replying
                                              else if reply.Some? && reply.value.0 then Up else Ended, more, [])
  {
    assert ReplyFrame(reply) + [] == ReplyFrame(reply);
  }

  lemma ServerWritesInv(h: Link, n: nat)
    requires LinkInv(h)
    ensures LinkInv(Next(h, ServerWrites(n)))
  {
    if h.server.Replying? && |h.s2c| + n <= |ReplyFrame(h.reply)| {
      ServerWritesMore(h.reply, h.s2c, n);
    }
  }

  lemma ClientSendsMore(id: Text, token: Text, c2s: seq<Byte>, data: seq<Byte>, more: seq<Byte>)
    requires ClientWrote(id, token, Connected, c2s, data)
    ensures ClientWrote(id, token, Connected, c2s + more, data + more)
  {
    var f := HandshakeFrame(id, token);
    assert f + data + more == f + (data + more);
  }

  lemma ClientSendsInv(h: Link, data: seq<Byte>)
    requires LinkInv(h)
    ensures LinkInv(Next(h, ClientSends(data)))
  {
    if h.client.Connected? {
      ClientSendsMore(h.id, h.token, h.c2s, h.clientData, data);
    }
  }

  lemma ServerSendsMore(reply: Option<(bool, Text)>, s2c: seq<Byte>, data: seq<Byte>, more: seq<Byte>)
    requires ServerWrote(reply, Up, s2c, data)
    ensures ServerWrote(reply, Up, s2c + more, data + more) && ReplyFrame(reply) <= s2c + more
  {
    var f := ReplyFrame(reply);
    assert f + data + more == f + (data + more);
    assert f + [] == f;
  }

  lemma ServerSendsInv(h: Link, data: seq<Byte>)
    requires LinkInv(h)
    ensures LinkInv(Next(h, ServerSends(data)))
  {
    if h.server.Up? {
      ServerSendsMore(h.reply, h.s2c, h.serverData, data);
    }
  }

  lemma ServerReadsInv(h: Link, n: nat)
    requires LinkInv(h)
    ensures LinkInv(Next(h, ServerReads(n)))
  {
    if h.server.Reading? && n <= |h.c2s| {
      ServerSeesClient(h.id, h.token, h.client, h.c2s, h.clientData, n);
    }
  }

  lemma NowConnected(id: Text, token: Text, c2s: seq<Byte>, client: Client)
    requires ClientWrote(id, token, AwaitingStatus, c2s, []) && (client.Connected? || client.GaveUp?)
    ensures ClientWrote(id, token, client, c2s, [])
  {
    assert HandshakeFrame(id, token) + [] == HandshakeFrame(id, token);
  }

  lemma ClientReadsInv(h: Link, n: nat)
    requires LinkInv(h)
    ensures LinkInv(Next(h, ClientReads(n)))
  {
    if h.client.AwaitingStatus? && n <= |h.s2c| && ParseStatus(h.s2c[..n]).Parsed? {
      ClientSeesServer(h.reply, h.server, h.s2c, h.serverData, n);
      NowConnected(h.id, h.token, h.c2s, if h.reply.value.0 then Connected else GaveUp);
    }
  }

  lemma VerifiesInv(h: Link, refusal: Text)
    requires LinkInv(h)
    ensures LinkInv(Next(h, ServerVerifies(refusal)))
  {
  }

  lemma InsertInv(h: Link, full: bool, refusal: Text)
    requires LinkInv(h)
    ensures LinkInv(Next(h, SessionInsert(full, refusal)))
  {
    OkFits();
  }

  lemma StoreChangesInv(h: Link, store: seq<Store.Client>)
    requires LinkInv(h)
    ensures LinkInv(Next(h, StoreChanges(store)))
  {
  }

  lemma ClientStopsInv(h: Link)
    requires LinkInv(h)
    ensures LinkInv(Next(h, ClientStops))
  {
  }

  lemma EndedWrote(reply: Option<(bool, Text)>, server: Server, s2c: seq<Byte>, data: seq<Byte>)
    requires ServerWrote(reply, server, s2c, data)
    ensures ServerWrote(reply, Ended, s2c, data)
  {
  }

  lemma ServerStopsInv(h: Link)
    requires LinkInv(h)
    ensures LinkInv(Next(h, ServerStops))
  {
    EndedWrote(h.reply, h.server, h.s2c, h.serverData);
  }

  lemma NextLinked(h: Link, e: Event)
    requires LinkInv(h)
    ensures LinkInv(Next(h, e))
  {
    match e {
      case ClientWrites(n) => ClientWritesInv(h, n);
      case ServerWrites(n) => ServerWritesInv(h, n);
      case ClientSends(data) => ClientSendsInv(h, data);
      case ServerSends(data) => ServerSendsInv(h, data);
      case ServerReads(n) => ServerReadsInv(h, n);
      case ClientReads(n) => ClientReadsInv(h, n);
      case ServerVerifies(refusal) => VerifiesInv(h, refusal);
      case SessionInsert(full, refusal) => InsertInv(h, full, refusal);
      case StoreChanges(store) => StoreChangesInv(h, store);
      case ClientStops => ClientStopsInv(h);
      case ServerStops => ServerStopsInv(h);
    }
  }

  /** No step changes whose connection it is. */
  lemma NextSame(h: Link, e: Event)
    ensures Next(h, e).id == h.id && Next(h, e).token == h.token && Next(h, e).pepper == h.pepper
  {
  }

  lemma {:induction false} AlwaysLinked(id: Text, token: Text, pepper: string, store: seq<Store.Client>,
                                        events: seq<Event>)
    ensures var h := Run(Begin(id, token, pepper, store), events);
            LinkInv(h) && h.id == id && h.token == token && h.pepper == pepper
  {
    if events == [] {
    } else {
      var prior, e := events[..|events| - 1], events[|events| - 1];
      AlwaysLinked(id, token, pepper, store, prior);
      NextLinked(Run(Begin(id, token, pepper, store), prior), e);
      NextSame(Run(Begin(id, token, pepper, store), prior), e);
    }
  }

  // ----- agreement -----

  /** At some moment of the run so far the store accepted the client's token as this id's. */
  ghost predicate VerifiedAt(start: Link, events: seq<Event>, n: nat, client: Option<string>) {
    n <= |events| && client.Some?
    && VerifyToken(Run(start, events[..n]).store, Chars(start.token), start.pepper) == client
  }

  /** A step that verifies sees the store of that moment; no other step changes what was seen. */
  lemma NextSeen(h: Link, e: Event)
    ensures (Next(h, e).verifiedAs == h.verifiedAs && Next(h, e).seen == h.seen)
            || (Next(h, e).verifiedAs.Some? && Next(h, e).seen == h.store)
  {
  }

  lemma VerifiedAtLater(start: Link, events: seq<Event>, n: nat, client: Option<string>)
    requires events != [] && VerifiedAt(start, events[..|events| - 1], n, client)
    ensures VerifiedAt(start, events, n, client)
  {
    assert events[..|events| - 1][..n] == events[..n];
  }

  /** Whoever the server took the client for, the store said so at an earlier moment of the run. */
  lemma {:induction false} VerifiedWhen(id: Text, token: Text, pepper: string, store: seq<Store.Client>,
                                        events: seq<Event>)
    returns (n: nat)
    requires Run(Begin(id, token, pepper, store), events).verifiedAs.Some?
    ensures VerifiedAt(Begin(id, token, pepper, store), events, n,
                       Run(Begin(id, token, pepper, store), events).verifiedAs)
  {
    var start := Begin(id, token, pepper, store);
    n := 0;
    if events != [] {
      var prior, e := events[..|events| - 1], events[|events| - 1];
      var h := Run(start, prior);
      AlwaysLinked(id, token, pepper, store, events);
      NextSeen(h, e);
      if Run(start, events).verifiedAs == h.verifiedAs {
        n := VerifiedWhen(id, token, pepper, store, prior);
        VerifiedAtLater(start, events, n, h.verifiedAs);
      } else {
        n := |prior|;
        assert events[..n] == prior;
      }
    }
  }

  /** In every run: a client that reports Connected was verified, by the store as it stood at an earlier
      moment, under some client id, and a session was inserted for that id. */
  lemma ConnectedMeansVerified(id: Text, token: Text, pepper: string, store: seq<Store.Client>, events: seq<Event>)
    ensures var start := Begin(id, token, pepper, store);
            Run(start, events).client.Connected? ==>
              && Run(start, events).inserted.Some?
              && exists n: nat :: VerifiedAt(start, events, n, Run(start, events).inserted)
  {
    AlwaysLinked(id, token, pepper, store, events);
    if Run(Begin(id, token, pepper, store), events).client.Connected? {
      var n := VerifiedWhen(id, token, pepper, store, events);
    }
  }

  /** A client the server turned down never reaches Connected. */
  lemma RejectedNeverConnects(id: Text, token: Text, pepper: string, store: seq<Store.Client>, events: seq<Event>)
    requires Run(Begin(id, token, pepper, store), events).reply.Some?
    requires !Run(Begin(id, token, pepper, store), events).reply.value.0
    ensures !Run(Begin(id, token, pepper, store), events).client.Connected?
  {
    AlwaysLinked(id, token, pepper, store, events);
  }

  /** Yamux starts clean on both sides: once the server is up, the bytes after those it took for the
      handshake are exactly the client's yamux bytes; once the client is connected, the bytes after
      those it took are exactly the server's. */
  lemma YamuxStartsClean(id: Text, token: Text, pepper: string, store: seq<Store.Client>, events: seq<Event>)
    ensures var h := Run(Begin(id, token, pepper, store), events);
            && (h.server.Up? && h.client.Connected? ==> h.serverAt <= |h.c2s| && h.c2s[h.serverAt..] == h.clientData)
            && (h.server.Up? && !h.client.Connected? ==> h.clientData == [] && h.serverAt >= |h.c2s|)
            && (h.client.Connected? ==> h.clientAt <= |h.s2c| && h.s2c[h.clientAt..] == h.serverData)
  {
    AlwaysLinked(id, token, pepper, store, events);
    var h := Run(Begin(id, token, pepper, store), events);
    if h.client.Connected? && h.serverData == [] {
      assert h.s2c == ReplyFrame(h.reply);
    }
  }

  // ----- completion -----

  /** Different texts have different characters. */
  lemma CharsInjective(s: Text, t: Text)
    requires Chars(s) == Chars(t)
    ensures s == t
  {
    assert |s| == |Chars(s)| && |t| == |Chars(t)|;
    forall i | 0 <= i < |s|
      ensures s[i] == t[i]
    {
      assert Chars(s)[i] == s[i] as char && Chars(t)[i] == t[i] as char;
    }
  }

  /** Whom, if anyone, the server lets in, once it has read the handshake and if there is room. */
  function LetIn(h: Link, full: bool): Option<string> {
    if h.reply.Some? then (if h.reply.value.0 then h.inserted else None)
    else if full then None
    else if h.server.Known? then Some(h.server.client)
    else VerifyToken(h.store, Chars(h.token), h.pepper)
  }

  predicate ClientWaits(h: Link) {
    Fits(h.id) && Fits(h.token) && (h.client.Writing? || h.client.AwaitingStatus?)
  }

  lemma ClientFinishes(h: Link)
    requires LinkInv(h) && ClientWaits(h)
    ensures |h.c2s| <= |Outgoing(h.id, h.token)|
    ensures Next(h, ClientWrites(|Outgoing(h.id, h.token)| - |h.c2s|))
            == h.(c2s := HandshakeFrame(h.id, h.token), client := AwaitingStatus)
  {
  }

  lemma ServerGets(h: Link)
    requires LinkInv(h) && h.client.AwaitingStatus? && !h.server.Ended?
    ensures Next(h, ServerReads(|h.c2s|)) == if h.server.Reading?
                                             then h.(server := Got(h.token), serverAt := |h.c2s|) else h
  {
    var f := HandshakeFrame(h.id, h.token);
    assert f + [] == f && f[..|f|] == f;
    ArrivedHandshake(h.id, h.token, f, []);
  }

  /** Verification and insert, one after the other. */
  function Decided(h: Link, full: bool, refusal: Text): Link {
    Next(Next(h, ServerVerifies(refusal)), SessionInsert(full, refusal))
  }

  lemma ServerDecides(h: Link, full: bool, refusal: Text)
    requires LinkInv(h) && Fits(refusal) && !h.server.Reading? && !h.server.Ended?
    ensures var after, let := Decided(h, full, refusal), LetIn(h, full);
            && after.reply.Some? && after.reply.value.0 == let.Some? && (let.Some? ==> after.inserted == let)
            && (after.server.Replying? || after.server.Up?)
            && after.s2c == h.s2c && after.client == h.client
  {
  }

  lemma ServerReplies(h: Link)
    requires LinkInv(h) && h.reply.Some? && (h.server.Replying? || h.server.Up?)
    requires h.client.AwaitingStatus?
    ensures h.server.Replying? ==> |h.s2c| <= |ReplyFrame(h.reply)|
    ensures var n := if h.server.Replying? then |ReplyFrame(h.reply)| - |h.s2c| else 0;
            var after := Next(h, ServerWrites(n));
            && after.server == (if h.reply.value.0 then Up else Ended)
            && ReplyFrame(h.reply) <= after.s2c
            && after.reply == h.reply && after.inserted == h.inserted && after.client == h.client
  {
    var f := ReplyFrame(h.reply);
    assert f[..|f|] == f && f + [] == f;
  }

  lemma ClientLearns(h: Link)
    requires LinkInv(h) && h.reply.Some? && h.client.AwaitingStatus? && ReplyFrame(h.reply) <= h.s2c
    ensures var after := Next(h, ClientReads(|ReplyFrame(h.reply)|));
            && after.client == (if h.reply.value.0 then Connected else GaveUp)
            && after.server == h.server && after.inserted == h.inserted
  {
    var f := ReplyFrame(h.reply);
    assert h.s2c[..|f|] == f && f + [] == f;
    ArrivedStatus(f, h.reply.value.0, h.reply.value.1, []);
  }

  lemma RunMore(h: Link, events: seq<Event>, e: Event)
    ensures Run(h, events + [e]) == Next(Run(h, events), e)
  {
    assert (events + [e])[..|events|] == events;
  }

  lemma Steps(start: Link, events: seq<Event>, e: Event) returns (more: seq<Event>)
    requires LinkInv(Run(start, events))
    ensures more == events + [e] && Run(start, more) == Next(Run(start, events), e) && LinkInv(Run(start, more))
  {
    more := events + [e];
    RunMore(start, events, e);
    NextLinked(Run(start, events), e);
  }

  /** The server has read the handshake, and the client waits for what it makes of it. */
  lemma ToServer(start: Link, events: seq<Event>) returns (more: seq<Event>)
    requires LinkInv(Run(start, events)) && ClientWaits(Run(start, events)) && !Run(start, events).server.Ended?
    ensures events <= more
    ensures var h, after := Run(start, events), Run(start, more);
            && LinkInv(after) && after.client.AwaitingStatus? && !after.server.Reading? && !after.server.Ended?
            && forall full :: LetIn(after, full) == LetIn(h, full)
  {
    var h := Run(start, events);
    ClientFinishes(h);
    more := Steps(start, events, ClientWrites(|Outgoing(h.id, h.token)| - |h.c2s|));
    ServerGets(Run(start, more));
    more := Steps(start, more, ServerReads(|Run(start, more).c2s|));
  }

  /** The server has decided. */
  lemma ToVerdict(start: Link, events: seq<Event>, full: bool, refusal: Text) returns (more: seq<Event>)
    requires LinkInv(Run(start, events)) && Run(start, events).client.AwaitingStatus? && Fits(refusal)
    requires !Run(start, events).server.Reading? && !Run(start, events).server.Ended?
    ensures events <= more
    ensures Verdict(Run(start, more), LetIn(Run(start, events), full))
  {
    ServerDecides(Run(start, events), full, refusal);
    more := Steps(start, events, ServerVerifies(refusal));
    more := Steps(start, more, SessionInsert(full, refusal));
  }

  predicate Verdict(h: Link, let: Option<string>) {
    && LinkInv(h) && h.client.AwaitingStatus? && (h.server.Replying? || h.server.Up?)
    && h.reply.Some? && h.reply.value.0 == let.Some? && (let.Some? ==> h.inserted == let)
  }

  /** Both sides know how it ended. */
  predicate Settled(h: Link, let: Option<string>) {
    if let.Some? then h.client.Connected? && h.server.Up? && h.inserted == let
    else h.client.GaveUp? && h.server.Ended?
  }

  lemma ToClient(start: Link, events: seq<Event>, let: Option<string>) returns (more: seq<Event>)
    requires Verdict(Run(start, events), let)
    ensures events <= more
    ensures Settled(Run(start, more), let)
  {
    var h := Run(start, events);
    ServerReplies(h);
    more := Steps(start, events, ServerWrites(if h.server.Replying? then |ReplyFrame(h.reply)| - |h.s2c| else 0));
    ClientLearns(Run(start, more));
    more := Steps(start, more, ClientReads(|ReplyFrame(h.reply)|));
  }

  /** From every moment of every run at which neither side has stopped, the rest of the bytes suffice:
      the client is told, and both sides agree.  It is connected, in a session for the id the store
      gives, if the token is accepted and there is room, and has given up otherwise. */
  lemma Completes(id: Text, token: Text, pepper: string, store: seq<Store.Client>, events: seq<Event>,
                  full: bool, refusal: Text)
    returns (more: seq<Event>)
    requires Fits(refusal) && ClientWaits(Run(Begin(id, token, pepper, store), events))
    requires !Run(Begin(id, token, pepper, store), events).server.Ended?
    ensures events <= more
    ensures var start := Begin(id, token, pepper, store);
            Settled(Run(start, more), LetIn(Run(start, events), full))
  {
    var start := Begin(id, token, pepper, store);
    AlwaysLinked(id, token, pepper, store, events);
    more := ToServer(start, events);
    var let := LetIn(Run(start, more), full);
    more := ToVerdict(start, more, full, refusal);
    more := ToClient(start, more, let);
  }

  /** From the start, if nothing stops: the client gets through exactly when the store accepts its
      token and there is room. */
  lemma FreshHandshake(id: Text, token: Text, pepper: string, store: seq<Store.Client>, full: bool, refusal: Text)
    returns (run: seq<Event>)
    requires Fits(id) && Fits(token) && Fits(refusal)
    ensures var end, verified := Run(Begin(id, token, pepper, store), run), VerifyToken(store, Chars(token), pepper);
            && (end.client.Connected? <==> verified.Some? && !full)
            && (end.client.Connected? ==> end.server.Up? && end.inserted == verified)
  {
    run := Completes(id, token, pepper, store, [], full, refusal);
  }
}
