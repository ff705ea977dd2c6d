/** What a lost status reply costs.  The handler inserts its session before it tells the client so, and
    returns early when it cannot: the driver, whose end takes the entry out of the session map, never
    starts.  Everything here is about all runs after such a moment. */
module Slots {
  import opened Common
  import opened Store
  import opened Registry
  import opened RegistryFacts
  import opened Pipe
  import opened Tunnel
  import opened TunnelFacts
  import opened Guarantees

  /** The session's handler has returned, and its cleanup has not run and never will. */
  predicate Stuck(t: Tunnel, s: nat) {
    s < |t.pipes| && t.pipes[s].driver.Closed? && s < |t.reg.all| && !t.reg.all[s].cleaned
  }

  lemma ClosedStays(p: Pipe, e: PipeEvent, maxConns: nat)
    requires p.driver.Closed?
    ensures Step(p, e, maxConns).driver.Closed?
  {
  }

  lemma StuckPipe(t: Tunnel, e: Event, s: nat)
    requires s < |t.pipes| && t.pipes[s].driver.Closed?
    ensures s < |PipesAfter(t, e)| && PipesAfter(t, e)[s].driver.Closed?
  {
    if Moved(t, e).Some? && Moved(t, e).value.0 == s {
      ClosedStays(t.pipes[s], Moved(t, e).value.1, t.maxConns);
    }
  }

  lemma StuckTables(t: Tunnel, e: Event, s: nat)
    requires Stuck(t, s)
    ensures s < |TablesAfter(t, e).all| && !TablesAfter(t, e).all[s].cleaned
  {
    TablesExtend(t, e);
    assert e == RunCleanup(s) ==> TablesAfter(t, e) == t.reg;
  }

  lemma StuckStep(t: Tunnel, e: Event, s: nat)
    requires Stuck(t, s)
    ensures Stuck(Next(t, e), s)
  {
    NextSplits(t, e);
    StuckPipe(t, e, s);
    StuckTables(t, e, s);
  }

  lemma {:induction false} StuckForever(c: Config, events: seq<Event>, more: seq<Event>, s: nat)
    requires Stuck(After(c, events), s)
    ensures Stuck(After(c, events + more), s)
    decreases |more|
  {
    if more == [] {
      assert events + more == events;
    } else {
      var prior, e := more[..|more| - 1], more[|more| - 1];
      StuckForever(c, events, prior, s);
      SplitLast(events, more);
      AfterOne(c, events + prior, e);
      StuckStep(After(c, events + prior), e, s);
    }
  }

  lemma Loses(t: Tunnel, s: nat)
    requires OwnCleanup(t) && |t.pipes| == |t.reg.all| && s < |t.pipes| && t.pipes[s].driver.Inserted?
    ensures Stuck(Next(t, Handler(s, StatusReplied(false))), s)
  {
  }

  /** In every run: a session whose status reply is lost keeps its client's entry in the session map
      from then on, through whatever else happens, exactly until a newer session of the same client
      takes the entry over. */
  lemma LostReply(c: Config, events: seq<Event>, s: nat, more: seq<Event>)
    requires s < |After(c, events).pipes| && After(c, events).pipes[s].driver.Inserted?
    ensures var r := After(c, events + [Handler(s, StatusReplied(false))] + more).reg;
            s < |r.all| && (Registered(r, s) <==> Newest(r.all, s))
  {
    var lost := Handler(s, StatusReplied(false));
    Holds(c, events);
    Loses(After(c, events), s);
    AfterOne(c, events, lost);
    StuckForever(c, events + [lost], more, s);
    SessionOwnership(c, events + [lost] + more, s);
  }

  // ----- with every slot taken that way -----

  /** The session map is full, and the entries are all of sessions that are stuck. */
  predicate LockedOut(t: Tunnel) {
    && |t.reg.sessions| >= t.reg.maxClients
    && forall c | c in t.reg.sessions :: Stuck(t, t.reg.sessions[c])
  }

  lemma SessionsStay(t: Tunnel, e: Event)
    requires Ownership(t.reg) && LockedOut(t)
    ensures TablesAfter(t, e).sessions == t.reg.sessions
    ensures TablesAfter(t, e).maxClients == t.reg.maxClients
  {
    if e.RunCleanup? {
      CleanupIdle(t, e.s);
    } else {
      TablesExtend(t, e);
    }
  }

  lemma CleanupIdle(t: Tunnel, s: nat)
    requires Registered(t.reg, s) ==> Stuck(t, s)
    ensures TablesAfter(t, RunCleanup(s)).sessions == t.reg.sessions
    ensures TablesAfter(t, RunCleanup(s)).maxClients == t.reg.maxClients
  {
  }

  lemma LockedStep(t: Tunnel, e: Event)
    requires Ownership(t.reg) && LockedOut(t)
    ensures LockedOut(Next(t, e)) && Next(t, e).reg.sessions == t.reg.sessions
  {
    NextTablesSplit(t, e);
    SessionsStay(t, e);
    forall c | c in t.reg.sessions
      ensures Stuck(Next(t, e), t.reg.sessions[c])
    {
      StuckStep(t, e, t.reg.sessions[c]);
    }
  }

  /** Then no client is ever let in again, not even one of those whose entries they are: the check for
      room counts the entry that a reconnect would replace. */
  lemma {:induction false} LockedForever(c: Config, events: seq<Event>, more: seq<Event>)
    requires LockedOut(After(c, events))
    ensures LockedOut(After(c, events + more))
    ensures After(c, events + more).reg.sessions == After(c, events).reg.sessions
    decreases |more|
  {
    if more == [] {
      assert events + more == events;
    } else {
      var prior, e := more[..|more| - 1], more[|more| - 1];
      LockedForever(c, events, prior);
      SplitLast(events, more);
      AfterOne(c, events + prior, e);
      OwnershipHolds(c, events + prior);
      LockedStep(After(c, events + prior), e);
    }
  }

  /** It takes one lost reply for each slot: with room for one client, three steps. */
  lemma LockOutReachable(c: Config, token: string)
    requires c.maxClients == 1 && VerifyToken(c.clients, token, c.pepper).Some?
    ensures LockedOut(After(c, [Verify(token), Register(0), Handler(0, StatusReplied(false))]))
  {
    var client := VerifyToken(c.clients, token, c.pepper).value;
    var steps := [Verify(token), Register(0), Handler(0, StatusReplied(false))];
    AfterOne(c, [], steps[0]);
    AfterOne(c, steps[..1], steps[1]);
    AfterOne(c, steps[..2], steps[2]);
    assert [] + [steps[0]] == steps[..1] && steps[..1] + [steps[1]] == steps[..2] && steps[..2] + [steps[2]] == steps;
    Inserts(After(c, []), token, client);
    OneStuck(After(c, steps[..2]), client);
  }

  /** The first client's session, just inserted. */
  predicate Fresh(t: Tunnel, client: string) {
    && t.reg.sessions == map[client := 0] && t.reg.maxClients == 1
    && t.reg.all == [Session(client, map[], false)] && t.pipes == [NEW]
  }

  lemma Inserts(t: Tunnel, token: string, client: string)
    requires t.reg.sessions == map[] && t.reg.maxClients == 1 && t.reg.all == [] && t.pipes == [] && t.verified == []
    requires VerifyToken(t.reg.clients, token, t.pepper) == Some(client)
    ensures Fresh(Next(Next(t, Verify(token)), Register(0)), client)
  {
  }

  lemma OneStuck(t: Tunnel, client: string)
    requires Fresh(t, client)
    ensures LockedOut(Next(t, Handler(0, StatusReplied(false))))
  {
    assert |map[client := 0 as nat]| == 1;
  }
}
