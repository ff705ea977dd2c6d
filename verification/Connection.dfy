/** The two ends of a handshake in the form the program has them: the handler of a tunnel connection
    (src/tunnel/listener.rs) and the client's connection attempt (src/client.rs), over real streams
    and the server's shared tables. */
module Connection {
  import opened Common
  import opened Utf8
  import opened Wire
  import opened Streams
  import opened Store
  import opened Registry
  import opened Server
  import Handshake
  import P = Persistence
  import Protocol

  /** The texts of the replies. */
  datatype Texts = Texts(welcome: Text, invalidToken: Text, maxClients: Text)

  const TEXTS := Texts(Handshake.OK_MESSAGE, Scalars("invalid token"), Scalars("max clients reached"))

  /** How the handler of a connection fared: it read no handshake, it refused the client, it inserted
      a session but could not tell the client, or it got as far as starting yamux. */
  datatype Outcome = NoHandshake | Refused | StatusLost(session: nat) | Up(session: nat)

  lemma TextsFit()
    ensures Fits(TEXTS.welcome) && Fits(TEXTS.invalidToken) && Fits(TEXTS.maxClients)
  {
    EncodedLength(TEXTS.welcome);
    EncodedLength(TEXTS.invalidToken);
    EncodedLength(TEXTS.maxClients);
  }

  /** Part of the reply is on the wire; all of it if the write succeeded. */
  ghost predicate Replied(before: seq<Byte>, after: seq<Byte>, ok: bool, msg: Text) {
    Fits(msg) && before <= after <= before + StatusFrame(ok, msg)
  }

  method Reply(w: Sink, ok: bool, msg: Text) returns (sent: bool)
    requires Fits(msg)
    modifies w
    ensures Replied(old(w.written), w.written, ok, msg)
    ensures sent ==> w.written == old(w.written) + StatusFrame(ok, msg)
    ensures !sent && old(w.Healthy()) ==> w.plan == []
  {
    var r := Protocol.WriteStatus(w, ok, msg);
    sent := r.Ok?;
  }

  /** What becomes of a verified client. */
  ghost predicate LetIn(before: Reg, after: Reg, client: string, binds: set<string>, outcome: Outcome) {
    if |before.sessions| >= before.maxClients then
      outcome == Refused && after == before
    else
      && (outcome == Up(|before.all|) || outcome == StatusLost(|before.all|))
      && after == (if outcome.Up? then StartClientListeners(Insert(before, client), client, binds)
                    else Insert(before, client))
  }

  /** The part of the handler after the session was inserted: tell the client, start the listeners. */
  method Welcome(w: Sink, server: TunnelServer, client: string, binds: set<string>) returns (up: bool)
    requires server.Valid()
    modifies w, server
    ensures server.Valid()
    ensures server.State() == if up then StartClientListeners(old(server.State()), client, binds)
                              else old(server.State())
    ensures Replied(old(w.written), w.written, true, TEXTS.welcome)
    ensures up ==> w.written == old(w.written) + StatusFrame(true, TEXTS.welcome)
    ensures !up && old(w.Healthy()) ==> w.plan == []
  {
    TextsFit();
    ghost var before := server.State();
    up := Reply(w, true, TEXTS.welcome);
    assert server.State() == before;
    if up {
      server.StartListeners(client, binds);
    }
  }

  /** The part of the handler after the token was verified: check and insert, reply, start the
      listeners.  If the reply cannot be written the entry stays in the session map. */
  method AdmitClient(w: Sink, server: TunnelServer, client: string, binds: set<string>) returns (outcome: Outcome)
    requires server.Valid()
    modifies w, server
    ensures server.Valid() && LetIn(old(server.State()), server.State(), client, binds, outcome)
    ensures outcome.Refused? ==> Replied(old(w.written), w.written, false, TEXTS.maxClients)
    ensures !outcome.Refused? ==> Replied(old(w.written), w.written, true, TEXTS.welcome)
    ensures outcome.Up? ==> w.written == old(w.written) + StatusFrame(true, TEXTS.welcome)
    ensures outcome.StatusLost? && old(w.Healthy()) ==> w.plan == []
  {
    var rejected, s := server.InsertSession(client);
    if rejected {
      TextsFit();
      var _ := Reply(w, false, TEXTS.maxClients);
      return Refused;
    }
    var up := Welcome(w, server, client, binds);
    outcome := if up then Up(s) else StatusLost(s);
  }

  /** What becomes of a client that announced this token. */
  ghost predicate Decided(token: string, store: P.ClientStore, before: Reg, after: Reg,
                          binds: set<string>, outcome: Outcome)
    reads store
  {
    match VerifyToken(store.list, token, store.pepper)
    case None => outcome == Refused && after == before
    case Some(client) => LetIn(before, after, client, binds, outcome)
  }

  /** What the handler tells the client. */
  ghost predicate Told(token: string, store: P.ClientStore, outcome: Outcome, before: seq<Byte>, after: seq<Byte>)
    reads store
  {
    if VerifyToken(store.list, token, store.pepper).None? then Replied(before, after, false, TEXTS.invalidToken)
    else if outcome.Refused? then Replied(before, after, false, TEXTS.maxClients)
    else Replied(before, after, true, TEXTS.welcome)
         && (outcome.Up? ==> after == before + StatusFrame(true, TEXTS.welcome))
  }

  /** The handler once it has read an announcement. */
  method Decide(w: Sink, server: TunnelServer, token: string, binds: set<string>) returns (outcome: Outcome)
    requires server.Valid()
    modifies w, server
    ensures server.Valid() && !outcome.NoHandshake?
    ensures Decided(token, server.store, old(server.State()), server.State(), binds, outcome)
    ensures Told(token, server.store, outcome, old(w.written), w.written)
    ensures outcome.StatusLost? && old(w.Healthy()) ==> w.plan == []
  {
    var verified := VerifyToken(server.store.list, token, server.store.pepper);
    if verified.None? {
      TextsFit();
      ghost var before := server.State();
      var _ := Reply(w, false, TEXTS.invalidToken);
      assert server.State() == before;
      return Refused;
    }
    outcome := AdmitClient(w, server, verified.value, binds);
  }

  /** handle_tunnel up to the driver: read the announcement, verify its token (the announced id is
      ignored), and go on as above. */
  method HandleTunnel(src: Source, w: Sink, server: TunnelServer, binds: set<string>) returns (outcome: Outcome)
    requires src.Valid() && server.Valid()
    modifies src`chunks, w, server
    ensures src.Valid() && server.Valid()
    ensures match ParseHandshake(old(src.Bytes()))
            case Rejected(_) =>
              outcome == NoHandshake && server.State() == old(server.State()) && w.written == old(w.written)
            case Parsed(hello, rest) =>
              && src.Bytes() == rest && !outcome.NoHandshake?
              && Decided(Handshake.Chars(hello.1), server.store, old(server.State()), server.State(), binds, outcome)
              && Told(Handshake.Chars(hello.1), server.store, outcome, old(w.written), w.written)
    ensures outcome.StatusLost? && old(w.Healthy()) ==> w.plan == []
  {
    var hello := Protocol.ReadHandshake(src);
    if hello.Err? {
      return NoHandshake;
    }
    outcome := Decide(w, server, Handshake.Chars(hello.value.1), binds);
  }

  /** run_once up to yamux: announce, then wait for the status.  Connected exactly if the whole
      announcement went out and a status that says so came back. */
  method Connect(w: Sink, src: Source, id: Text, token: Text) returns (connected: bool)
    requires src.Valid()
    modifies w, src`chunks
    ensures src.Valid()
    ensures old(w.written) <= w.written
    ensures connected ==> Fits(id) && Fits(token) && w.written == old(w.written) + HandshakeFrame(id, token)
    ensures connected ==> ParseStatus(old(src.Bytes())).Parsed? && ParseStatus(old(src.Bytes())).value.0
                          && src.Bytes() == ParseStatus(old(src.Bytes())).rest
    ensures !connected && Fits(id) && Fits(token) && old(w.Healthy()) ==>
              w.plan == [] || ParseStatus(old(src.Bytes())).Rejected? || !ParseStatus(old(src.Bytes())).value.0
  {
    var announced := Protocol.WriteHandshake(w, id, token);
    if announced.Err? {
      return false;
    }
    var status := Protocol.ReadStatus(src);
    connected := status.Ok? && status.value.0;
  }
}
