/** How an accept loop begins and ends: the steps of the server that start it, ask it to stop and finish
    it, and what then becomes of its public port. */
module LoopEnds {
  import opened Common
  import opened Store
  import opened StoreFacts
  import opened Registry
  import opened RegistryFacts
  import opened Tunnel
  import opened TunnelFacts
  import opened Guarantees

  /** The step is a handler, saved, whose operation takes this loop's listener away. */
  predicate Asked(t: Tunnel, e: Event, i: nat) {
    e.Manage? && e.saved && Happens(t.reg, e.op, t.pepper, e.order) && Hit(t.reg, e.op, i)
  }

  predicate Sending(t: Tunnel, i: nat) {
    Live(t, i) && i in t.pipes[t.reg.tasks[i].session].sending
  }

  predicate ReceiverGone(t: Tunnel, i: nat) {
    Live(t, i) && t.pipes[t.reg.tasks[i].session].driver.Closed?
  }

  /** The step is the end of this loop: an abort that was asked for lands, or a send finds the session's
      receiver gone, or accepting fails. */
  predicate Ends(t: Tunnel, e: Event, i: nat) {
    || (e == AbortLands(i) && Live(t, i) && t.reg.tasks[i].aborted)
    || (e == Refused(i) && Sending(t, i) && ReceiverGone(t, i))
    || (e == AcceptError(i) && Live(t, i) && !Sending(t, i))
  }

  /** What a step makes of a running loop. */
  predicate LoopAfter(t: Tunnel, e: Event, i: nat, a: Acceptor) {
    Live(t, i) && a == t.reg.tasks[i].(aborted := t.reg.tasks[i].aborted || Asked(t, e, i), finished := Ends(t, e, i))
  }

  lemma LoopManaged(t: Tunnel, e: Event, i: nat)
    requires RegInv(t.reg) && Live(t, i) && e.Manage?
    ensures i < |TablesAfter(t, e).tasks| && LoopAfter(t, e, i, TablesAfter(t, e).tasks[i])
  {
    AdminLoop(t.reg, e.op, t.pepper, e.saved, e.binds, e.order, i);
    ManagedTables(t, e);
  }

  lemma ManagedTables(t: Tunnel, e: Event)
    requires e.Manage?
    ensures TablesAfter(t, e) == Admin(t.reg, e.op, t.pepper, e.saved, e.binds, e.order)
  {
  }

  lemma LoopFinished(t: Tunnel, e: Event, i: nat)
    requires Live(t, i) && (e.Refused? || e.AbortLands? || e.AcceptError?)
    ensures i < |TablesAfter(t, e).tasks| && LoopAfter(t, e, i, TablesAfter(t, e).tasks[i])
  {
  }

  lemma LoopUntouched(t: Tunnel, e: Event, i: nat)
    requires Live(t, i) && !e.Manage? && !e.Refused? && !e.AbortLands? && !e.AcceptError?
    ensures i < |TablesAfter(t, e).tasks| && LoopAfter(t, e, i, TablesAfter(t, e).tasks[i])
  {
    if e.StartListeners? && e.s < |t.reg.all| {
      var client := t.reg.all[e.s].client;
      if Find(t.reg.clients, client).Some? {
        AddListenersAppend(t.reg, client, Find(t.reg.clients, client).value.mappings, e.binds);
      }
    }
  }

  lemma LoopStep(t: Tunnel, e: Event, i: nat)
    requires RegInv(t.reg) && Live(t, i)
    ensures i < |Next(t, e).reg.tasks| && LoopAfter(t, e, i, Next(t, e).reg.tasks[i])
  {
    NextTablesSplit(t, e);
    if e.Manage? {
      LoopManaged(t, e, i);
    } else if e.Refused? || e.AbortLands? || e.AcceptError? {
      LoopFinished(t, e, i);
    } else {
      LoopUntouched(t, e, i);
    }
  }

  lemma FinishFrees(r: Reg, i: nat)
    requires PortsExclusive(r) && i < |r.tasks| && !r.tasks[i].finished
    ensures PortFree(Finish(r, i).tasks, r.tasks[i].port)
  {
  }

  lemma PortAfter(t: Tunnel, e: Event, i: nat)
    requires RegInv(t.reg) && Live(t, i)
    ensures PortFree(Next(t, e).reg.tasks, t.reg.tasks[i].port) <==> Ends(t, e, i)
  {
    if Ends(t, e, i) {
      EndsFinishes(t, e, i);
      FinishFrees(t.reg, i);
    } else {
      LoopStep(t, e, i);
      StillHeld(Next(t, e).reg.tasks, i);
    }
  }

  lemma EndsFinishes(t: Tunnel, e: Event, i: nat)
    requires Ends(t, e, i)
    ensures Next(t, e).reg == Finish(t.reg, i)
  {
  }

  lemma StillHeld(tasks: seq<Acceptor>, i: nat)
    requires i < |tasks| && !tasks[i].finished
    ensures !PortFree(tasks, tasks[i].port)
  {
  }

  lemma RegHolds(c: Config, events: seq<Event>)
    ensures RegInv(After(c, events).reg)
  {
    Holds(c, events);
  }

  /** In every run: a step asks a running loop to stop exactly when it is a saved handler that takes its
      listener away, it ends the loop exactly when an abort lands, a send is refused or accepting fails,
      and the public port is free afterwards exactly when the loop has ended. */
  lemma LoopEndsExactly(c: Config, events: seq<Event>, e: Event, i: nat)
    requires Live(After(c, events), i)
    ensures var t, tasks := After(c, events), After(c, events + [e]).reg.tasks;
            && i < |tasks| && LoopAfter(t, e, i, tasks[i])
            && (PortFree(tasks, tasks[i].port) <==> Ends(t, e, i))
  {
    RegHolds(c, events);
    AfterOne(c, events, e);
    LoopStep(After(c, events), e, i);
    PortAfter(After(c, events), e, i);
  }

  // ----- beginnings -----

  /** The step is the handler of session e.s, which starts the listeners of its client. */
  ghost predicate StartedByHandler(t: Tunnel, e: Event, a: Acceptor) {
    && e.StartListeners? && e.s < |t.reg.all|
    && exists m :: Owns(t.reg.clients, t.reg.all[e.s].client, m) && m.enabled
                   && Started(t.reg, t.reg.all[e.s].client, m, e.binds, a)
  }

  lemma HandlerStarts(t: Tunnel, e: Event, i: nat)
    requires RegInv(t.reg) && e.StartListeners? && |t.reg.tasks| <= i < |TablesAfter(t, e).tasks|
    ensures StartedByHandler(t, e, TablesAfter(t, e).tasks[i])
  {
    var client := t.reg.all[e.s].client;
    var k := Position(t.reg.clients, client);
    var a := TablesAfter(t, e).tasks[i];
    PositionExact(t.reg.clients, client);
    AddListenersStart(t.reg, client, t.reg.clients[k].mappings, e.binds, i);
    var m :| m in t.reg.clients[k].mappings && m.enabled && Started(t.reg, client, m, e.binds, a);
    OwnsAt(t.reg.clients, k, m);
  }

  lemma BeginStep(t: Tunnel, e: Event, i: nat)
    requires RegInv(t.reg) && |t.reg.tasks| <= i < |TablesAfter(t, e).tasks|
    ensures var a := TablesAfter(t, e).tasks[i];
            || StartedByHandler(t, e, a)
            || (e.Manage? && Wanted(t.reg, Stored(t.reg, e.op, t.pepper).clients, e.op, e.binds, a))
  {
    if e.StartListeners? {
      HandlerStarts(t, e, i);
    } else {
      AdminStartsOnly(t.reg, e.op, t.pepper, e.saved, e.binds, e.order, i);
    }
  }

  /** In every run a loop begins only for an enabled stored mapping of a connected client, on a port
      that was free, and in that client's newest session: when the session's own handler starts its
      listeners, or in an admin handler that is about this mapping or its client. */
  lemma LoopBegins(c: Config, events: seq<Event>, e: Event, i: nat)
    requires |After(c, events).reg.tasks| <= i < |After(c, events + [e]).reg.tasks|
    ensures var t, a := After(c, events), After(c, events + [e]).reg.tasks[i];
            || StartedByHandler(t, e, a)
            || (e.Manage? && Wanted(t.reg, Stored(t.reg, e.op, t.pepper).clients, e.op, e.binds, a))
  {
    RegHolds(c, events);
    AfterOne(c, events, e);
    NextTablesSplit(After(c, events), e);
    BeginStep(After(c, events), e, i);
  }
}
