/** Runs of the server, from an empty store, that show that the exceptions named in the guarantees are
    real: an orphaned listener, a limit overshot to the full extent of its bound, and a channel that only
    the handler's own sender keeps open. */
module Scenarios {
  import opened Common
  import opened Store
  import opened Registry
  import opened RegistryFacts
  import opened Pipe
  import opened Tunnel
  import opened TunnelFacts
  import opened Guarantees

  const SMALL: Config := Setup([], "pepper", 2, 1)
  const WEB := Mapping("m", "web", 80, "local", true)
  const OWNER := Client("a", "home", Hmac("pepper", "t"), true, [])

  const CREATE := Manage(AddClient("home", "a", "t"), true, {}, [])
  const MAP := Manage(AddMapping("a", "web", 80, "local", "m"), true, {}, [])

  // ----- a client with a mapping, connected -----

  lemma Created()
    ensures After(SMALL, [CREATE]) == Init([OWNER], "pepper", 2, 1)
  {
    AfterOne(SMALL, [], CREATE);
    assert [] + [CREATE] == [CREATE];
    var t := After(SMALL, []);
    assert Apply([], CREATE.op, "pepper") == [OWNER];
    assert IssuedBefore([]) == map[] == IssuedBefore([OWNER]);
  }

  /** The tables once the client has its mapping. */
  function Tables(sessions: map<string, nat>, all: seq<Session>, tasks: seq<Acceptor>): Reg {
    Reg([OWNER.(mappings := [WEB])], 2, sessions, all, tasks, map["m" := Origin("a", 80, "local")])
  }

  /** ... and the server, before any visitor. */
  function Quiet(reg: Reg, verified: seq<Verified>, pipes: seq<Pipe>): Tunnel {
    Tunnel(reg, pipes, verified, [], 0, 0, "pepper", 1)
  }

  lemma MapApplies()
    ensures Applies([OWNER], MAP.op) && FreshDraw([OWNER], MAP.op)
    ensures Apply([OWNER], MAP.op, "pepper") == [OWNER.(mappings := [WEB])]
  {
    assert [OWNER][1..] == [];
    assert OWNER.id == "a";
    assert Position([OWNER], "a") == 0;
    assert FindMapping([OWNER][1..], "m") == None;
    assert forall c | c in [OWNER] :: c == OWNER;
    assert OWNER.mappings + [WEB] == [WEB];
    assert [OWNER][0 := OWNER.(mappings := [WEB])] == [OWNER.(mappings := [WEB])];
  }

  const MAPPED := Quiet(Tables(map[], [], []), [], [])

  lemma MapHandled(t: Tunnel)
    requires t == Init([OWNER], "pepper", 2, 1)
    ensures Next(t, MAP) == MAPPED
  {
    MapApplies();
    assert IssuedBefore([OWNER]) == map[];
    assert map[]["m" := Origin("a", 80, "local")] == map["m" := Origin("a", 80, "local")];
  }

  lemma Mapped()
    ensures After(SMALL, [CREATE, MAP]) == MAPPED
  {
    Created();
    AfterOne(SMALL, [CREATE], MAP);
    assert [CREATE] + [MAP] == [CREATE, MAP];
    MapHandled(Init([OWNER], "pepper", 2, 1));
  }

  /** The first session: the only one, with these handles, loops and pipe. */
  function Single(filed: map<string, nat>, tasks: seq<Acceptor>, pipe: Pipe): Tunnel {
    Quiet(Tables(map["a" := 0], [Session("a", filed, false)], tasks), [Verified("a", true)], [pipe])
  }

  lemma Registers()
    ensures Next(Next(MAPPED, Verify("t")), Register(0)) == Single(map[], [], NEW)
  {
    assert VerifyToken([OWNER.(mappings := [WEB])], "t", "pepper") == Some("a");
    assert Next(MAPPED, Verify("t")) == MAPPED.(verified := [Verified("a", false)]);
  }

  lemma Replies()
    ensures Next(Single(map[], [], NEW), Handler(0, StatusReplied(true))) == Single(map[], [], NEW.(driver := Accepted))
  {
    assert [NEW][0 := NEW.(driver := Accepted)] == [NEW.(driver := Accepted)];
  }

  const FIRST := [CREATE, MAP, Verify("t"), Register(0), Handler(0, StatusReplied(true))]

  lemma Greeted()
    ensures After(SMALL, FIRST) == Single(map[], [], NEW.(driver := Accepted))
  {
    Mapped();
    AfterOne(SMALL, FIRST[..2], FIRST[2]);
    AfterOne(SMALL, FIRST[..3], FIRST[3]);
    AfterOne(SMALL, FIRST[..4], FIRST[4]);
    assert FIRST[..2] == [CREATE, MAP] && FIRST[..2] + [FIRST[2]] == FIRST[..3];
    assert FIRST[..3] + [FIRST[3]] == FIRST[..4] && FIRST[..4] + [FIRST[4]] == FIRST;
    Registers();
    Replies();
  }

  /** The mapping's port is bound: its loop runs, and is filed with the session. */
  const SERVING := Single(map["m" := 0], [Acceptor(0, "m", 80, "local", false, false)], NEW.(driver := Running))

  const START := FIRST + [StartListeners(0, {"m"})]

  lemma Serving()
    ensures After(SMALL, START) == SERVING
  {
    Greeted();
    AfterOne(SMALL, FIRST, StartListeners(0, {"m"}));
    var t := After(SMALL, FIRST);
    var r := t.reg;
    assert Position(r.clients, "a") == 0;
    assert [WEB][1..] == [];
    assert AddListener(r, "a", WEB, true) == SERVING.reg;
    assert AddListeners(r, "a", [WEB], {"m"}) == SERVING.reg;
    assert StartClientListeners(r, "a", {"m"}) == SERVING.reg;
    assert t.pipes[0 := NEW.(driver := Running)] == SERVING.pipes;
  }

  // ----- a failed save orphans a listener -----

  lemma ServingOrphans()
    ensures Orphans(SERVING.reg, DeleteMapping("m")) && SERVING.reg.sessions.Keys == {"a"}
  {
    assert "m" in SERVING.reg.all[SERVING.reg.sessions["a"]].listeners;
    assert TakesAway(DeleteMapping("m"), "a", "m");
  }

  lemma AllSavedSoFar()
    ensures AllSaved(START)
  {
  }

  /** Every change so far was saved; then one is not, and a listener serves a mapping that is gone. */
  lemma OrphanReachable()
    ensures AllSaved(START) && Orphans(After(SMALL, START).reg, DeleteMapping("m"))
    ensures var r := After(SMALL, START + [Manage(DeleteMapping("m"), false, {}, ["a"])]).reg;
            !ListenersSound(r, r.clients)
  {
    AllSavedSoFar();
    Serving();
    ServingOrphans();
    FirstUnsavedExactly(SMALL, START, DeleteMapping("m"), {}, ["a"]);
  }

  // ----- the limit is overshot, to the full extent of its bound -----

  const ONE := Request(0, 0, "local")
  const TWO := Request(1, 0, "local")

  const RUNNING := NEW.(driver := Running)
  const ONE_SENT := RUNNING.(queue := [ONE], enqueued := [ONE], fate := map[ONE := Queued], peak := 1)
  const BOTH_SENT := RUNNING.(queue := [ONE, TWO], enqueued := [ONE, TWO],
                                fate := map[ONE := Queued, TWO := Queued], peak := 2)
  const ONE_OPENED := BOTH_SENT.(queue := [TWO], streamed := [ONE], phases := [0],
                                   fate := map[ONE := Opened, TWO := Queued])
  const BOTH_OPENED := BOTH_SENT.(queue := [], streamed := [ONE, TWO], phases := [0, 0],
                                    fate := map[ONE := Opened, TWO := Opened])
  const BOTH_COUNTED := BOTH_OPENED.(phases := [1, 1], active := 2)

  lemma SendsOne()
    ensures Step(Step(RUNNING, Admit(ONE), 1), SendDone(0), 1) == ONE_SENT
  {
    var p := Step(RUNNING, Admit(ONE), 1);
    assert p == RUNNING.(sending := map[0 := ONE], fate := map[ONE := Sending], peak := 1);
    assert map[0 := ONE] - {0} == map[];
    assert map[ONE := Sending][ONE := Queued] == map[ONE := Queued];
  }

  lemma SendsTwo()
    ensures Step(Step(ONE_SENT, Admit(TWO), 1), SendDone(0), 1) == BOTH_SENT
  {
    assert ONE != TWO;
    var p := Step(ONE_SENT, Admit(TWO), 1);
    assert p == ONE_SENT.(sending := map[0 := TWO], fate := map[ONE := Queued, TWO := Sending], peak := 2);
    assert map[0 := TWO] - {0} == map[];
    assert map[ONE := Queued, TWO := Sending][TWO := Queued] == map[ONE := Queued, TWO := Queued];
    assert [ONE] + [TWO] == [ONE, TWO];
  }

  lemma OpensOne()
    ensures Step(Step(BOTH_SENT, Dequeue, 1), StreamOpened, 1) == ONE_OPENED
  {
    assert ONE != TWO && [ONE, TWO][1..] == [TWO];
    assert map[ONE := Queued, TWO := Queued][ONE := Held][ONE := Opened] == map[ONE := Opened, TWO := Queued];
  }

  lemma OpensTwo()
    ensures Step(Step(ONE_OPENED, Dequeue, 1), StreamOpened, 1) == BOTH_OPENED
  {
    assert ONE != TWO && [TWO][1..] == [] && [ONE] + [TWO] == [ONE, TWO] && [0] + [0] == [0, 0];
    assert map[ONE := Opened, TWO := Queued][TWO := Held][TWO := Opened] == map[ONE := Opened, TWO := Opened];
  }

  lemma CountsBoth()
    ensures Step(Step(BOTH_OPENED, ProxyStep(0), 1), ProxyStep(1), 1) == BOTH_COUNTED
  {
    assert [0, 0][0 := 1] == [1, 0] && [1, 0][1 := 1] == [1, 1];
  }

  /** The serving server with this pipe and this number of visits. */
  predicate At(t: Tunnel, p: Pipe, visits: nat) {
    t.reg == SERVING.reg && t.pipes == [p] && |t.visits| == visits && t.maxConns == 1
  }

  lemma Arrives(t: Tunnel, p: Pipe, visits: nat)
    requires At(t, p, visits) && 0 !in p.sending
    ensures At(Next(t, Arrive(0)), Step(p, Admit(Request(visits, 0, "local")), 1), visits + 1)
  {
  }

  lemma Sends(t: Tunnel, p: Pipe, visits: nat)
    requires At(t, p, visits)
    ensures At(Next(t, Sent(0)), Step(p, SendDone(0), 1), visits)
  {
  }

  lemma Opens(t: Tunnel, p: Pipe, visits: nat)
    requires At(t, p, visits)
    ensures At(Next(Next(t, Handler(0, Dequeue)), Handler(0, StreamOpened)),
               Step(Step(p, Dequeue, 1), StreamOpened, 1), visits)
  {
  }

  lemma Proxies(t: Tunnel, p: Pipe, visits: nat, i: nat)
    requires At(t, p, visits) && i < |p.phases|
    ensures At(Next(t, Proxy(0, i)), Step(p, ProxyStep(i), 1), visits)
  {
  }

  /** One visitor arrives and its request is queued. */
  lemma Queues(events: seq<Event>, p: Pipe, visits: nat) returns (more: seq<Event>)
    requires At(After(SMALL, events), p, visits) && 0 !in p.sending
    ensures At(After(SMALL, more), Step(Step(p, Admit(Request(visits, 0, "local")), 1), SendDone(0), 1), visits + 1)
  {
    AfterOne(SMALL, events, Arrive(0));
    Arrives(After(SMALL, events), p, visits);
    more := events + [Arrive(0)];
    AfterOne(SMALL, more, Sent(0));
    Sends(After(SMALL, more), Step(p, Admit(Request(visits, 0, "local")), 1), visits + 1);
    more := more + [Sent(0)];
  }

  /** The driver takes a request and opens a stream for it. */
  lemma Takes(events: seq<Event>, p: Pipe, visits: nat) returns (more: seq<Event>)
    requires At(After(SMALL, events), p, visits)
    ensures At(After(SMALL, more), Step(Step(p, Dequeue, 1), StreamOpened, 1), visits)
  {
    AfterOne(SMALL, events, Handler(0, Dequeue));
    AfterOne(SMALL, events + [Handler(0, Dequeue)], Handler(0, StreamOpened));
    Opens(After(SMALL, events), p, visits);
    more := events + [Handler(0, Dequeue)] + [Handler(0, StreamOpened)];
  }

  lemma BothQueued() returns (events: seq<Event>)
    ensures At(After(SMALL, events), BOTH_SENT, 2)
  {
    Serving();
    events := Queues(START, RUNNING, 0);
    SendsOne();
    events := Queues(events, ONE_SENT, 1);
    SendsTwo();
  }

  lemma BothOpened() returns (events: seq<Event>)
    ensures At(After(SMALL, events), BOTH_OPENED, 2)
  {
    events := BothQueued();
    events := Takes(events, BOTH_SENT, 2);
    OpensOne();
    events := Takes(events, ONE_OPENED, 2);
    OpensTwo();
  }

  /** With max_conns == 1 two connections are counted at once: both visitors were let in before either was
      counted.  The admission bound holds with equality. */
  lemma LimitOvershot() returns (events: seq<Event>)
    ensures var t := After(SMALL, events);
            && t.maxConns == 1 && |t.pipes| == 1 && t.pipes[0].active == 2
            && Count(t.pipes[0].phases, 1, 4) + Pending(t.pipes[0]) == t.maxConns - 1 + t.pipes[0].peak
  {
    events := BothOpened();
    AfterOne(SMALL, events, Proxy(0, 0));
    Proxies(After(SMALL, events), BOTH_OPENED, 2, 0);
    events := events + [Proxy(0, 0)];
    AfterOne(SMALL, events, Proxy(0, 1));
    Proxies(After(SMALL, events), Step(BOTH_OPENED, ProxyStep(0), 1), 2, 1);
    events := events + [Proxy(0, 1)];
    CountsBoth();
    BothCounted();
  }

  lemma BothCounted()
    ensures Count(BOTH_COUNTED.phases, 1, 4) == 2 && Pending(BOTH_COUNTED) == 0
  {
    assert [1, 1][..1] == [1] && [1][..0] == [];
  }

  // ----- a channel that only the handler's own sender keeps open -----

  const RECONNECTED :=
    FIRST + [StartListeners(0, {})] + [Verify("t")] + [Register(1)]

  /** A client whose port could not be bound connects again: the driver of its first session is still
      running, the session map's entry is the second session's, and no accept loop has a sender. */
  lemma OnlyOwnSender()
    ensures var t := After(SMALL, RECONNECTED);
            |t.pipes| == 2 && t.pipes[0].driver.Running? && t.pipes[0].ownSender && !OtherSenders(t, 0)
  {
    Greeted();
    AfterOne(SMALL, FIRST, StartListeners(0, {}));
    StartsNone();
    AfterOne(SMALL, FIRST + [StartListeners(0, {})], Verify("t"));
    AfterOne(SMALL, FIRST + [StartListeners(0, {})] + [Verify("t")], Register(1));
    Reconnects();
  }

  lemma StartsNone()
    ensures Next(Single(map[], [], NEW.(driver := Accepted)), StartListeners(0, {})) == Single(map[], [], RUNNING)
  {
    var r := Single(map[], [], NEW).reg;
    assert Position(r.clients, "a") == 0;
    assert [WEB][1..] == [];
    assert AddListeners(r, "a", [WEB], {}) == r;
    assert [NEW.(driver := Accepted)][0 := RUNNING] == [RUNNING];
  }

  lemma Reconnects()
    ensures var t := Next(Next(Single(map[], [], RUNNING), Verify("t")), Register(1));
            t.pipes == [RUNNING, NEW] && !OtherSenders(t, 0)
  {
    var t := Next(Single(map[], [], RUNNING), Verify("t"));
    assert VerifyToken([OWNER.(mappings := [WEB])], "t", "pepper") == Some("a");
    assert t == Single(map[], [], RUNNING).(verified := [Verified("a", true), Verified("a", false)]);
    assert |map["a" := 0 as nat]| == 1;
    var t' := Next(t, Register(1));
    assert t'.reg.sessions["a"] == 1;
    assert t'.pipes == [RUNNING] + [NEW];
  }
}
