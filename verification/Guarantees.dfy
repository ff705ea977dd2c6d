/** What holds in every run of the server: for every configuration and every sequence of events. */
module Guarantees {
  import opened Common
  import opened Store
  import opened StoreFacts
  import opened Registry
  import opened RegistryFacts
  import opened Pipe
  import opened PipeFacts
  import opened Tunnel
  import opened TunnelFacts

  /** A configuration, and the client list that was loaded. */
  datatype Setup = Setup(clients: seq<Client>, pepper: string, maxClients: nat, maxConns: nat)

  /** The list is one that the store writes: ids and ports are distinct. */
  type Config = c: Setup | GoodStore(c.clients) witness Setup([], "", 0, 0)

  function After(c: Config, events: seq<Event>): Tunnel {
    Run(Init(c.clients, c.pepper, c.maxClients, c.maxConns), events)
  }

  lemma Holds(c: Config, events: seq<Event>)
    ensures TunnelInv(After(c, events))
    ensures After(c, events).maxConns == c.maxConns && After(c, events).pepper == c.pepper
    ensures After(c, events).reg.maxClients == c.maxClients
  {
    AlwaysInv(c.clients, c.pepper, c.maxClients, c.maxConns, events);
  }

  lemma ConfigHolds(c: Config, events: seq<Event>)
    ensures After(c, events).pepper == c.pepper
  {
    Holds(c, events);
  }

  lemma CountsHold(c: Config, events: seq<Event>)
    ensures GloballyCounted(After(c, events))
  {
    Holds(c, events);
  }

  lemma OwnershipHolds(c: Config, events: seq<Event>)
    ensures Ownership(After(c, events).reg) && After(c, events).reg.maxClients == c.maxClients
  {
    Holds(c, events);
  }

  lemma PipeHolds(c: Config, events: seq<Event>, s: nat)
    requires s < |After(c, events).pipes|
    ensures Fifo(After(c, events).pipes[s]) && Placed(After(c, events).pipes[s])
    ensures Counted(After(c, events).pipes[s]) && Bounded(After(c, events).pipes[s], c.maxConns)
  {
    Holds(c, events);
    assert PipeInv(After(c, events).pipes[s], After(c, events).maxConns);
  }

  lemma AfterSnoc(c: Config, events: seq<Event>)
    requires events != []
    ensures After(c, events) == Next(After(c, events[..|events| - 1]), events[|events| - 1])
  {
  }

  lemma AfterOne(c: Config, events: seq<Event>, e: Event)
    ensures After(c, events + [e]) == Next(After(c, events), e)
  {
    assert (events + [e])[..|events|] == events;
    AfterSnoc(c, events + [e]);
  }

  // ----- routing -----

  /** The visitor of a request came to the public port of a mapping that was created for the
      session's client with exactly this port and exactly the address the request carries. */
  predicate RoutedRight(t: Tunnel, s: nat, r: Request) {
    && Genuine(t, s, r) && s < |t.reg.all|
    && t.reg.tasks[r.task].mapping in t.reg.issued
    && t.reg.issued[t.reg.tasks[r.task].mapping]
       == Origin(t.reg.all[s].client, t.visits[r.visitor].port, r.target)
  }

  /** End to end: in every run, across reconnects and hot reloads, every stream opened for a visitor
      goes over a session of the client that owns the visited port's mapping, and names that
      mapping's local address. */
  lemma Routing(c: Config, events: seq<Event>, s: nat, k: nat)
    requires s < |After(c, events).pipes| && k < |After(c, events).pipes[s].streamed|
    ensures RoutedRight(After(c, events), s, After(c, events).pipes[s].streamed[k])
  {
    var t := After(c, events);
    Holds(c, events);
    PipeHolds(c, events, s);
    var r := t.pipes[s].streamed[k];
    assert Is(t.pipes[s], r, Opened);
    assert Genuine(t, s, r);
    assert TasksGenuine(t.reg);
  }

  /** A mapping's owner, port and address are the same in all later states, and every mapping in
      the store has those it was created with. */
  lemma {:induction false} OriginsForever(c: Config, events: seq<Event>, more: seq<Event>, m: string)
    requires m in After(c, events).reg.issued
    ensures m in After(c, events + more).reg.issued
    ensures After(c, events + more).reg.issued[m] == After(c, events).reg.issued[m]
    ensures forall o, n | Owns(After(c, events + more).reg.clients, o, n) && n.id == m ::
              Origin(o, n.port, n.local) == After(c, events).reg.issued[m]
    decreases |more|
  {
    IssuedKept(c, events, more, m);
    Holds(c, events + more);
    assert OriginsKept(After(c, events + more).reg);
  }

  predicate SameOrigin(r: Reg, r': Reg, m: string) {
    m in r.issued ==> m in r'.issued && r'.issued[m] == r.issued[m]
  }

  lemma IssuedStep(t: Tunnel, e: Event, m: string)
    ensures SameOrigin(t.reg, Next(t, e).reg, m)
  {
    NextSplits(t, e);
    TablesExtend(t, e);
  }

  lemma SplitLast(events: seq<Event>, more: seq<Event>)
    requires more != []
    ensures events + more == events + more[..|more| - 1] + [more[|more| - 1]]
  {
  }

  lemma {:induction false} IssuedKept(c: Config, events: seq<Event>, more: seq<Event>, m: string)
    ensures SameOrigin(After(c, events).reg, After(c, events + more).reg, m)
    decreases |more|
  {
    if more == [] {
      assert events + more == events;
    } else {
      var prior, e := more[..|more| - 1], more[|more| - 1];
      IssuedKept(c, events, prior, m);
      SplitLast(events, more);
      AfterOne(c, events + prior, e);
      IssuedStep(After(c, events + prior), e, m);
    }
  }

  /** A public port is served by at most one running loop, so a visitor's port decides its loop. */
  lemma PortDecidesLoop(c: Config, events: seq<Event>, i: nat, j: nat)
    requires var t := After(c, events); Live(t, i) && Live(t, j) && t.reg.tasks[i].port == t.reg.tasks[j].port
    ensures i == j
  {
    Holds(c, events);
    assert PortsExclusive(After(c, events).reg);
  }

  // ----- counters -----

  lemma {:induction false} CountAllWithin(pipes: seq<Pipe>, from: nat, to: nat, from': nat, to': nat)
    requires from <= from' && to' <= to
    ensures CountAll(pipes, from', to') <= CountAll(pipes, from, to)
  {
    if pipes == [] {
    } else {
      CountAllWithin(pipes[..|pipes| - 1], from, to, from', to');
      CountWithin(pipes[|pipes| - 1].phases, from, to, from', to');
    }
  }

  /** As long as fewer than 2^64 streams were opened, the global counters are exact counts of proxy
      tasks by phase, and total is never below active. */
  lemma GlobalCounters(c: Config, events: seq<Event>)
    requires CountAll(After(c, events).pipes, 0, 6) < TWO_64
    ensures var t := After(c, events);
            && t.total == CountAll(t.pipes, 2, 6)
            && t.active == CountAll(t.pipes, 3, 5)
            && t.active <= t.total
  {
    CountsHold(c, events);
    ExactCounts(After(c, events).pipes);
  }

  lemma ExactCounts(pipes: seq<Pipe>)
    requires CountAll(pipes, 0, 6) < TWO_64
    ensures CountAll(pipes, 2, 6) < TWO_64 && CountAll(pipes, 3, 5) <= CountAll(pipes, 2, 6)
  {
    CountAllWithin(pipes, 0, 6, 2, 6);
    CountAllWithin(pipes, 2, 6, 3, 5);
  }

  /** A task about to decrement the global counter finds at least 1 in it. */
  lemma GlobalNoUnderflow(c: Config, events: seq<Event>, s: nat, i: nat)
    requires CountAll(After(c, events).pipes, 0, 6) < TWO_64
    requires s < |After(c, events).pipes| && i < |After(c, events).pipes[s].phases|
    requires After(c, events).pipes[s].phases[i] == 4
    ensures After(c, events).active >= 1
  {
    GlobalCounters(c, events);
    CountAllPositive(After(c, events).pipes, s, i, 3, 5);
  }

  /** The per-session counter is the exact count of its counted tasks, and its decrement never
      underflows. */
  lemma SessionCounter(c: Config, events: seq<Event>, s: nat)
    requires s < |After(c, events).pipes| && |After(c, events).pipes[s].phases| < TWO_64
    ensures var p := After(c, events).pipes[s];
            && p.active == Count(p.phases, 1, 4)
            && (forall i: nat | i < |p.phases| && p.phases[i] == 3 :: p.active >= 1)
  {
    var p := After(c, events).pipes[s];
    PipeHolds(c, events, s);
    CountBound(p.phases, 1, 4);
    forall i: nat | i < |p.phases| && p.phases[i] == 3
      ensures p.active >= 1
    {
      NoUnderflow(p, i);
    }
  }

  function StreamsOpened(pipes: seq<Pipe>): nat {
    if pipes == [] then 0 else StreamsOpened(pipes[..|pipes| - 1]) + |pipes[|pipes| - 1].streamed|
  }

  lemma {:induction false} AllDoneEverywhere(pipes: seq<Pipe>)
    requires forall s | 0 <= s < |pipes| ::
               |pipes[s].phases| == |pipes[s].streamed|
               && forall i | 0 <= i < |pipes[s].phases| :: pipes[s].phases[i] == 5
    ensures CountAll(pipes, 3, 5) == 0 && CountAll(pipes, 2, 6) == StreamsOpened(pipes)
  {
    if pipes == [] {
    } else {
      AllDoneEverywhere(pipes[..|pipes| - 1]);
      AllDone(pipes[|pipes| - 1].phases);
    }
  }

  lemma QuiescentSession(c: Config, events: seq<Event>, s: nat)
    requires s < |After(c, events).pipes|
    requires forall i | 0 <= i < |After(c, events).pipes[s].phases| :: After(c, events).pipes[s].phases[i] == 5
    ensures |After(c, events).pipes[s].phases| == |After(c, events).pipes[s].streamed|
    ensures After(c, events).pipes[s].active == 0
  {
    PipeHolds(c, events, s);
    AllDone(After(c, events).pipes[s].phases);
  }

  /** When every proxy task has run to its end, all active counts are back at zero and the total is
      the number of streams ever opened (modulo 2^64). */
  lemma QuiescentCounters(c: Config, events: seq<Event>)
    requires AllFinished(After(c, events).pipes)
    ensures var t := After(c, events);
            && t.active == 0 && t.total == StreamsOpened(t.pipes) % TWO_64
            && forall s | 0 <= s < |t.pipes| :: t.pipes[s].active == 0
  {
    var t := After(c, events);
    forall s | 0 <= s < |t.pipes|
      ensures |t.pipes[s].phases| == |t.pipes[s].streamed| && t.pipes[s].active == 0
    {
      QuiescentSession(c, events, s);
    }
    AllDoneEverywhere(t.pipes);
    CountsHold(c, events);
    NoneCounted(t);
  }

  lemma NoneCounted(t: Tunnel)
    requires GloballyCounted(t) && CountAll(t.pipes, 3, 5) == 0
    ensures t.active == 0
  {
  }

  /** Every proxy task has made all its updates. */
  predicate AllFinished(pipes: seq<Pipe>) {
    forall s | 0 <= s < |pipes| :: forall i | 0 <= i < |pipes[s].phases| :: pipes[s].phases[i] == 5
  }

  // ----- admission -----

  lemma {:induction false} SubsetSize(a: set<nat>, b: set<nat>)
    requires a <= b
    ensures |a| <= |b|
  {
    if a == {} {
    } else {
      var x :| x in a;
      SubsetSize(a - {x}, b - {x});
    }
  }

  /** What the check-then-act limit really gives, for max_conns >= 1: connections counted, plus those
      past the check but not yet counted, stay below max_conns plus the peak of the latter; and of
      these, no more than the running loops, the channel's 256 places and the driver's hand can
      still be on their way to the driver. */
  lemma AdmissionBound(c: Config, events: seq<Event>, s: nat)
    requires c.maxConns >= 1 && s < |After(c, events).pipes| && |After(c, events).pipes[s].phases| < TWO_64
    ensures var t := After(c, events); var p := t.pipes[s];
            && Count(p.phases, 1, 4) + Pending(p) <= c.maxConns - 1 + p.peak
            && Waiting(p) <= |LiveLoops(t, s)| + CAPACITY + 1
  {
    var t := After(c, events);
    var p := t.pipes[s];
    Holds(c, events);
    PipeHolds(c, events, s);
    SessionCounter(c, events, s);
    assert SendersLive(t);
    assert p.sending.Keys <= LiveLoops(t, s);
    SubsetSize(p.sending.Keys, LiveLoops(t, s));
    assert |p.sending.Keys| == |p.sending|;
  }

  // ----- sessions -----

  /** The map holds exactly the newest session of each client that has not been cleaned up, only a
      session's own driver cleans it up, and the map never exceeds the limit. */
  lemma SessionOwnership(c: Config, events: seq<Event>, s: nat)
    requires s < |After(c, events).reg.all|
    ensures var t := After(c, events);
            && (Registered(t.reg, s) <==> Newest(t.reg.all, s) && !t.reg.all[s].cleaned)
            && s < |t.pipes|
            && (t.reg.all[s].cleaned ==> t.pipes[s].driver.CleanedUp? || t.pipes[s].driver.Closed?)
            && |t.reg.sessions| <= c.maxClients
  {
    Holds(c, events);
    assert Ownership(After(c, events).reg) && OwnCleanup(After(c, events));
  }

  /** One step takes an entry out of the session map or replaces it only if it is that very
      session's cleanup, or a newer handshake of the same client that was let in. */
  lemma EntryLeavesOnlyByOwner(c: Config, events: seq<Event>, e: Event, client: string)
    requires client in After(c, events).reg.sessions
    ensures var r, r' := After(c, events).reg, After(c, events + [e]).reg;
            (client in r'.sessions && r'.sessions[client] == r.sessions[client])
            || e == RunCleanup(r.sessions[client])
            || (e.Register? && |r.sessions| < c.maxClients && client in r'.sessions && r'.sessions[client] == |r.all|)
  {
    OwnershipHolds(c, events);
    assert (events + [e])[..|events|] == events;
    AfterSnoc(c, events + [e]);
    NextSplits(After(c, events), e);
    EntryStays(After(c, events), e, client);
  }

  lemma EntryStays(t: Tunnel, e: Event, client: string)
    requires Ownership(t.reg) && client in t.reg.sessions
    ensures var r' := TablesAfter(t, e);
            (client in r'.sessions && r'.sessions[client] == t.reg.sessions[client])
            || e == RunCleanup(t.reg.sessions[client])
            || (e.Register? && |t.reg.sessions| < t.reg.maxClients
                && client in r'.sessions && r'.sessions[client] == |t.reg.all|)
  {
    if !e.Register? && !e.RunCleanup? {
      TablesExtend(t, e);
    }
  }

  /** A handshake refused for capacity changes nothing in the tables. */
  lemma RefusedLeavesTables(t: Tunnel, k: nat)
    requires |t.reg.sessions| >= t.reg.maxClients
    ensures Next(t, Register(k)).reg == t.reg && Next(t, Register(k)).pipes == t.pipes
  {
  }

  /** At some earlier moment the store accepted some token as this client's. */
  ghost predicate VerifiedEarlier(c: Config, events: seq<Event>, client: string) {
    exists n: nat, token :: n <= |events|
      && VerifyToken(After(c, events[..n]).reg.clients, token, c.pepper) == Some(client)
  }

  lemma VerifiedLater(c: Config, events: seq<Event>, client: string)
    requires events != [] && VerifiedEarlier(c, events[..|events| - 1], client)
    ensures VerifiedEarlier(c, events, client)
  {
    var prior := events[..|events| - 1];
    var n: nat, token :| n <= |prior| && VerifyToken(After(c, prior[..n]).reg.clients, token, c.pepper) == Some(client);
    assert prior[..n] == events[..n];
  }

  /** A step records at most one verified handshake, for the client that the store accepts the token of. */
  lemma NewVerified(t: Tunnel, e: Event)
    ensures var before, after := t.verified, Next(t, e).verified;
            && |before| <= |after| <= |before| + 1
            && (forall k | 0 <= k < |before| :: after[k].client == before[k].client)
            && (|after| > |before| ==>
                  e.Verify? && VerifyToken(t.reg.clients, e.token, t.pepper) == Some(after[|before|].client))
  {
  }

  /** A step inserts at most one session, for a verified client. */
  lemma NewSessions(t: Tunnel, e: Event)
    ensures var before, after := t.reg.all, Next(t, e).reg.all;
            && |before| <= |after| <= |before| + 1
            && (forall s | 0 <= s < |before| :: after[s].client == before[s].client)
            && (|after| > |before| ==>
                  e.Register? && e.k < |t.verified| && after[|before|].client == t.verified[e.k].client)
  {
    NextSplits(t, e);
    TablesExtend(t, e);
  }

  lemma VerifiedNow(c: Config, events: seq<Event>, token: string, client: string)
    requires events != []
    requires VerifyToken(After(c, events[..|events| - 1]).reg.clients, token, c.pepper) == Some(client)
    ensures VerifiedEarlier(c, events, client)
  {
  }

  /** Every session ever inserted is for a client id that a token was verified for before. */
  lemma {:induction false} SessionsVerified(c: Config, events: seq<Event>)
    ensures forall k | 0 <= k < |After(c, events).verified| ::
              VerifiedEarlier(c, events, After(c, events).verified[k].client)
    ensures forall s | 0 <= s < |After(c, events).reg.all| ::
              VerifiedEarlier(c, events, After(c, events).reg.all[s].client)
  {
    if events == [] {
    } else {
      var prior, e := events[..|events| - 1], events[|events| - 1];
      var t, t' := After(c, prior), After(c, events);
      SessionsVerified(c, prior);
      ConfigHolds(c, prior);
      NewVerified(t, e);
      NewSessions(t, e);
      forall k | 0 <= k < |t'.verified|
        ensures VerifiedEarlier(c, events, t'.verified[k].client)
      {
        if k < |t.verified| {
          VerifiedLater(c, events, t.verified[k].client);
        } else {
          VerifiedNow(c, events, e.token, t'.verified[k].client);
        }
      }
      forall s | 0 <= s < |t'.reg.all|
        ensures VerifiedEarlier(c, events, t'.reg.all[s].client)
      {
        VerifiedLater(c, events, t'.reg.all[s].client);
      }
    }
  }

  // ----- listeners -----

  /** Every admin change was persisted. */
  predicate AllSaved(events: seq<Event>) {
    forall i | 0 <= i < |events| :: events[i].Manage? ==> events[i].saved
  }

  lemma NextSessionsSound(t: Tunnel, e: Event)
    requires RegInv(t.reg) && ListenersSound(t.reg, t.reg.clients)
    requires (e.Register? || e.StartListeners? || e.RunCleanup?)
    ensures ListenersSound(TablesAfter(t, e), TablesAfter(t, e).clients)
  {
    if e.Register? {
      if e.k < |t.verified| {
        InsertInv(t.reg, t.verified[e.k].client);
      }
    } else if e.StartListeners? {
      if e.s < |t.reg.all| {
        StartInv(t.reg, t.reg.all[e.s].client, e.binds);
      }
    } else {
      CleanupInv(t.reg, e.s);
    }
  }

  lemma FinishedSound(t: Tunnel, e: Event)
    requires RegInv(t.reg) && ListenersSound(t.reg, t.reg.clients) && (e.Refused? || e.AbortLands? || e.AcceptError?)
    ensures ListenersSound(TablesAfter(t, e), TablesAfter(t, e).clients)
  {
    FinishInv(t.reg, e.task);
    FinishedTables(t, e);
  }

  lemma NextSound(t: Tunnel, e: Event)
    requires RegInv(t.reg) && ListenersSound(t.reg, t.reg.clients) && (e.Manage? ==> e.saved)
    ensures ListenersSound(TablesAfter(t, e), TablesAfter(t, e).clients)
  {
    if e.Register? || e.StartListeners? || e.RunCleanup? {
      NextSessionsSound(t, e);
    } else if e.Refused? || e.AbortLands? || e.AcceptError? {
      FinishedSound(t, e);
    } else if e.Manage? {
      AdminSound(t.reg, e.op, t.pepper, e.binds, e.order);
    } else {
      SameTables(t, e);
    }
  }

  lemma {:induction false} AlwaysSound(c: Config, events: seq<Event>)
    requires AllSaved(events)
    ensures ListenersSound(After(c, events).reg, After(c, events).reg.clients)
  {
    if events == [] {
      LoadedInv(c.clients, c.maxClients);
    } else {
      var prior := events[..|events| - 1];
      AlwaysSound(c, prior);
      Holds(c, prior);
      NextSound(After(c, prior), events[|events| - 1]);
      NextSplits(After(c, prior), events[|events| - 1]);
    }
  }

  /** The first failed save: in every run whose changes were all persisted so far, a change that is not
      leaves the listeners sound exactly if it orphans none. */
  lemma FirstUnsavedExactly(c: Config, events: seq<Event>, op: Op, binds: set<string>, order: seq<string>)
    requires AllSaved(events) && Drawable(After(c, events).reg, op, c.pepper) && (op.AddMapping? ==> op.port != 0)
    requires forall client | client in After(c, events).reg.sessions :: client in order
    ensures var r := After(c, events + [Manage(op, false, binds, order)]).reg;
            ListenersSound(r, r.clients) <==> !Orphans(After(c, events).reg, op)
  {
    SoundSoFar(c, events);
    AfterOne(c, events, Manage(op, false, binds, order));
    Managed(After(c, events), op, false, binds, order);
    UnsavedSoundExactly(After(c, events).reg, op, c.pepper, binds, order);
  }

  lemma SoundSoFar(c: Config, events: seq<Event>)
    requires AllSaved(events)
    ensures var t := After(c, events);
            RegInv(t.reg) && ListenersSound(t.reg, t.reg.clients) && t.pepper == c.pepper
  {
    Holds(c, events);
    AlwaysSound(c, events);
  }

  lemma Managed(t: Tunnel, op: Op, saved: bool, binds: set<string>, order: seq<string>)
    ensures Next(t, Manage(op, saved, binds, order)).reg == Admin(t.reg, op, t.pepper, saved, binds, order)
  {
  }

  /** In every run whose admin changes were persisted: a running accept loop either serves an enabled
      stored mapping of its session's client, or has its abort requested, or belongs to a session
      that is no longer registered.  So nothing deleted or disabled keeps being served for long. */
  lemma RunningLoopsJustified(c: Config, events: seq<Event>, i: nat)
    requires AllSaved(events) && Live(After(c, events), i)
    ensures var r := After(c, events).reg; var a := r.tasks[i];
            a.aborted || !Registered(r, a.session)
            || (Filed(r, i) && EnabledMapping(r.clients, r.all[a.session].client, a.mapping))
  {
    var r := After(c, events).reg;
    Holds(c, events);
    AlwaysSound(c, events);
    assert NoStrays(r);
    if !r.tasks[i].aborted && Registered(r, r.tasks[i].session) {
      assert Filed(r, i);
      assert r.all[r.tasks[i].session].client in r.sessions;
    }
  }

  /** Filing a new handle never overwrites that of a running loop: when the port of a mapping of this
      client can be bound, any handle already filed for the mapping is of a loop that has finished. */
  lemma InsertOverwritesNoLiveHandle(c: Config, events: seq<Event>, client: string, m: Mapping)
    requires var r := After(c, events).reg; client in r.sessions && r.sessions[client] < |r.all|
    requires PortFree(After(c, events).reg.tasks, m.port)
    requires m.id in After(c, events).reg.issued && After(c, events).reg.issued[m.id] == Origin(client, m.port, m.local)
    ensures var r := After(c, events).reg; var filed := r.all[r.sessions[client]].listeners;
            m.id in filed ==> filed[m.id] < |r.tasks| && r.tasks[filed[m.id]].finished
  {
    Holds(c, events);
    FiledIsFinished(After(c, events).reg, client, m);
  }

  lemma FiledIsFinished(r: Reg, client: string, m: Mapping)
    requires HandlesFiled(r) && TasksGenuine(r) && PortFree(r.tasks, m.port)
    requires client in r.sessions && r.sessions[client] < |r.all|
    requires m.id in r.issued && r.issued[m.id] == Origin(client, m.port, m.local)
    ensures var filed := r.all[r.sessions[client]].listeners;
            m.id in filed ==> filed[m.id] < |r.tasks| && r.tasks[filed[m.id]].finished
  {
  }

  /** At most one registered session holds a handle for a given mapping, so stopping at the first
      one found leaves none. */
  lemma OneHolder(c: Config, events: seq<Event>, one: string, other: string, m: string)
    requires var r := After(c, events).reg;
             && one in r.sessions && r.sessions[one] < |r.all| && m in r.all[r.sessions[one]].listeners
             && other in r.sessions && r.sessions[other] < |r.all| && m in r.all[r.sessions[other]].listeners
    ensures one == other
  {
    Holds(c, events);
    HolderUnique(After(c, events).reg, one, other, m);
  }

  // ----- visitors -----

  /** Request r, in session s, is what became of visitor v. */
  predicate Became(t: Tunnel, v: nat, s: nat, r: Request) {
    s < |t.pipes| && r in t.pipes[s].fate && r.visitor == v
  }

  /** Every visitor ever accepted has exactly one request, in exactly one session, and so one fate. */
  lemma VisitorConserved(c: Config, events: seq<Event>, v: nat)
    requires v < |After(c, events).visits|
    ensures exists s: nat, r :: Became(After(c, events), v, s, r)
    ensures forall s: nat, r, s': nat, r' ::
              Became(After(c, events), v, s, r) && Became(After(c, events), v, s', r') ==> s == s' && r == r'
  {
    var t := After(c, events);
    Holds(c, events);
    assert AllVisited(t) && AllGenuine(t);
    var i := t.visits[v].task;
    assert Became(t, v, t.reg.tasks[i].session, Request(v, i, t.reg.tasks[i].local));
    forall s: nat, r, s': nat, r' | Became(t, v, s, r) && Became(t, v, s', r')
      ensures s == s' && r == r'
    {
      assert Genuine(t, s, r) && Genuine(t, s', r');
    }
  }

  /** A request is where its fate says, and nowhere else. */
  predicate AtItsFate(p: Pipe, r: Request)
    requires r in p.fate
  {
    match p.fate[r]
    case Sending => r.task in p.sending && p.sending[r.task] == r
    case Queued => r in p.queue
    case Held => Hand(p.driver) == [r]
    case Opened => r in p.streamed
    case OpenFailed => p.failed == [r]
    case Discarded => r in p.discarded
    case _ => r !in p.enqueued && (r.task in p.sending ==> p.sending[r.task] != r)
  }

  lemma EnqueuedFate(p: Pipe, r: Request)
    requires Fifo(p) && Placed(p) && r in p.enqueued
    ensures r in p.fate
    ensures p.fate[r].Opened? || p.fate[r].OpenFailed? || p.fate[r].Held? || p.fate[r].Queued? || p.fate[r].Discarded?
  {
    var i :| 0 <= i < |p.enqueued| && p.enqueued[i] == r;
    FateAt(p, i);
  }

  lemma PlacedAtFate(p: Pipe, r: Request)
    requires Fifo(p) && Placed(p) && r in p.fate
    ensures AtItsFate(p, r)
  {
    assert Is(p, r, p.fate[r]);
    if r in p.enqueued {
      EnqueuedFate(p, r);
    }
  }

  /** First in, first out, nothing lost and nothing twice: the requests a session's loops handed over
      are, in order, those whose streams were opened, at most one whose stream failed, the one in
      hand, those still queued and those dropped with the channel, and each is where its fate says. */
  lemma FirstInFirstOut(c: Config, events: seq<Event>, s: nat)
    requires s < |After(c, events).pipes|
    ensures var p := After(c, events).pipes[s];
            && p.enqueued == p.streamed + p.failed + Hand(p.driver) + p.queue + p.discarded
            && |p.failed| <= 1 && |p.queue| <= CAPACITY
            && (p.discarded != [] ==> p.driver.Closed?)
            && NoRepeats(p.enqueued)
            && (forall r | r in p.fate :: AtItsFate(p, r))
  {
    var p := After(c, events).pipes[s];
    PipeHolds(c, events, s);
    EnqueuedOnce(p);
    forall r | r in p.fate
      ensures AtItsFate(p, r)
    {
      PlacedAtFate(p, r);
    }
  }

  /** The driver's recv never yields None: whatever became of the session map's entry and of the accept
      loops, a channel has a sender left until its handler returns, so the channel never ends while
      the driver looks. */
  lemma DriverNeverStarved(c: Config, events: seq<Event>, s: nat)
    requires s < |After(c, events).pipes|
    ensures !After(c, events).pipes[s].driver.Closed? ==>
              After(c, events).pipes[s].ownSender || OtherSenders(After(c, events), s)
    ensures Next(After(c, events), ChannelEnds(s)) == After(c, events)
  {
    var t := After(c, events);
    PipeHolds(c, events, s);
    RecvNeverEnds(t.pipes[s], OtherSenders(t, s), t.maxConns);
    assert t.pipes[s := t.pipes[s]] == t.pipes;
  }
}
