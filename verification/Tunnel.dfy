/** The whole server as a step machine: handshakes, accept loops, drivers, proxy tasks and admin
    handlers interleave freely.  `Next` is total; an event that cannot happen changes nothing, so
    every sequence of events is a run. */
module Tunnel {
  import opened Common
  import opened Store
  import opened Registry
  import opened Pipe

  /** A visitor's connection: the public port it came to and the accept loop that took it. */
  datatype Visit = Visit(port: Port, task: nat)

  /** A handshake whose token was verified for `client`; `done` once it has been decided on. */
  datatype Verified = Verified(client: string, done: bool)

  /** `pipes[s]` belongs to session s.  `total` and `active` are the global connection counters. */
  datatype Tunnel = Tunnel(reg: Reg, pipes: seq<Pipe>, verified: seq<Verified>, visits: seq<Visit>,
                           total: nat, active: nat, pepper: string, maxConns: nat)

  datatype Event =
    | Verify(token: string)
    | Register(k: nat)
    | Handler(s: nat, e: PipeEvent)            // steps of the connection's own task
    | StartListeners(s: nat, binds: set<string>)
    | ChannelEnds(s: nat)
    | RunCleanup(s: nat)
    | Arrive(task: nat)
    | Sent(task: nat)
    | GaveUp(task: nat)
    | Refused(task: nat)
    | AbortLands(task: nat)
    | AcceptError(task: nat)
    | Proxy(s: nat, i: nat)
    | Manage(op: Op, saved: bool, binds: set<string>, order: seq<string>)

  function Init(clients: seq<Client>, pepper: string, maxClients: nat, maxConns: nat): Tunnel {
    Tunnel(Loaded(clients, maxClients), [], [], [], 0, 0, pepper, maxConns)
  }

  predicate Live(t: Tunnel, i: nat) {
    i < |t.reg.tasks| && !t.reg.tasks[i].finished && t.reg.tasks[i].session < |t.pipes|
  }

  /** The running accept loops of a session. */
  function LiveLoops(t: Tunnel, s: nat): set<nat> {
    set i | 0 <= i < |t.reg.tasks| && t.reg.tasks[i].session == s && !t.reg.tasks[i].finished
  }

  /** Whether the session's channel has a sending end besides the handler's own: the session map's
      entry keeps one, and so does each running accept loop. */
  predicate OtherSenders(t: Tunnel, s: nat) {
    Registered(t.reg, s) || LiveLoops(t, s) != {}
  }

  /** The step of one session's pipe. */
  function Move(t: Tunnel, s: nat, e: PipeEvent): Tunnel {
    if s < |t.pipes| then t.(pipes := t.pipes[s := Step(t.pipes[s], e, t.maxConns)]) else t
  }

  /** Events of the handler's task that touch nothing but its pipe. */
  predicate HandlerEvent(e: PipeEvent) {
    e.StatusReplied? || e.Dequeue? || e.StreamOpened? || e.StreamFailed? || e.ConnectionEnded? || e.Returned?
  }

  /** The global counters after a proxy task leaves this phase. */
  function TotalAfter(total: nat, phase: nat): nat {
    if phase == 1 then (total + 1) % TWO_64 else total
  }

  function ActiveAfter(active: nat, phase: nat): nat {
    if phase == 2 then (active + 1) % TWO_64
    else if phase == 4 then (active + TWO_64 - 1) % TWO_64
    else active
  }

  function Next(t: Tunnel, e: Event): Tunnel {
    match e
    case Verify(token) =>
      (match VerifyToken(t.reg.clients, token, t.pepper)
       case Some(client) => t.(verified := t.verified + [Verified(client, false)])
       case None => t)
    case Register(k) =>
      if k < |t.verified| && !t.verified[k].done then
        var reg := Insert(t.reg, t.verified[k].client);
        t.(verified := t.verified[k := t.verified[k].(done := true)], reg := reg,
           pipes := if |reg.all| > |t.reg.all| then t.pipes + [NEW] else t.pipes)
      else t
    case Handler(s, pe) => if HandlerEvent(pe) then Move(t, s, pe) else t
    case StartListeners(s, binds) =>
      if s < |t.pipes| && s < |t.reg.all| && t.pipes[s].driver.Accepted? then
        Move(t.(reg := StartClientListeners(t.reg, t.reg.all[s].client, binds)), s, ListenersStarted)
      else t
    case ChannelEnds(s) => Move(t, s, ChannelEnded(OtherSenders(t, s)))
    case RunCleanup(s) =>
      if s < |t.pipes| && t.pipes[s].driver.Exited? then Move(t.(reg := Cleanup(t.reg, s)), s, RanCleanup) else t
    case Arrive(i) =>
      if Live(t, i) && i !in t.pipes[t.reg.tasks[i].session].sending then
        var a := t.reg.tasks[i];
        Move(t, a.session, Admit(Request(|t.visits|, i, a.local))).(visits := t.visits + [Visit(a.port, i)])
      else t
    case Sent(i) => if Live(t, i) then Move(t, t.reg.tasks[i].session, SendDone(i)) else t
    case GaveUp(i) => if Live(t, i) then Move(t, t.reg.tasks[i].session, SendTimeout(i)) else t
    case Refused(i) =>
      if Live(t, i) && i in t.pipes[t.reg.tasks[i].session].sending
         && t.pipes[t.reg.tasks[i].session].driver.Closed? then
        Move(t, t.reg.tasks[i].session, SendRefused(i)).(reg := Finish(t.reg, i))
      else t
    case AbortLands(i) =>
      if Live(t, i) && t.reg.tasks[i].aborted then
        Move(t, t.reg.tasks[i].session, SendDropped(i)).(reg := Finish(t.reg, i))
      else t
    case AcceptError(i) =>
      if Live(t, i) && i !in t.pipes[t.reg.tasks[i].session].sending then t.(reg := Finish(t.reg, i)) else t
    case Proxy(s, i) =>
      if s < |t.pipes| && i < |t.pipes[s].phases| then
        var phase := t.pipes[s].phases[i];
        Move(t, s, ProxyStep(i)).(total := TotalAfter(t.total, phase), active := ActiveAfter(t.active, phase))
      else t
    case Manage(op, saved, binds, order) => t.(reg := Admin(t.reg, op, t.pepper, saved, binds, order))
  }

  function Run(t: Tunnel, events: seq<Event>): Tunnel {
    if events == [] then t else Next(Run(t, events[..|events| - 1]), events[|events| - 1])
  }

  // ----- invariants -----

  /** A loop that is sending is running, and sends on its own session's channel. */
  predicate SendersLive(t: Tunnel) {
    forall s | 0 <= s < |t.pipes| :: forall i | i in t.pipes[s].sending ::
      i < |t.reg.tasks| && t.reg.tasks[i].session == s && !t.reg.tasks[i].finished
  }

  /** A request names a real visit, and carries the address of the loop that took it. */
  predicate Genuine(t: Tunnel, s: nat, r: Request) {
    && r.visitor < |t.visits| && r.task < |t.reg.tasks|
    && t.visits[r.visitor] == Visit(t.reg.tasks[r.task].port, r.task)
    && t.reg.tasks[r.task].session == s
    && r.target == t.reg.tasks[r.task].local
  }

  predicate AllGenuine(t: Tunnel) {
    forall s | 0 <= s < |t.pipes| :: forall r | r in t.pipes[s].fate :: Genuine(t, s, r)
  }

  /** Every visit has its request, in the pipe of the session whose loop took it. */
  predicate AllVisited(t: Tunnel) {
    forall v: nat | v < |t.visits| ::
      && t.visits[v].task < |t.reg.tasks|
      && t.reg.tasks[t.visits[v].task].session < |t.pipes|
      && Request(v, t.visits[v].task, t.reg.tasks[t.visits[v].task].local)
         in t.pipes[t.reg.tasks[t.visits[v].task].session].fate
  }

  ghost predicate PipesInv(t: Tunnel) {
    forall s | 0 <= s < |t.pipes| :: PipeInv(t.pipes[s], t.maxConns)
  }

  /** One pipe for each session; every loop belongs to one. */
  predicate Housed(t: Tunnel) {
    |t.pipes| == |t.reg.all| && forall i | 0 <= i < |t.reg.tasks| :: t.reg.tasks[i].session < |t.reg.all|
  }

  /** A session has been cleaned up only by its own driver, after that left its loop. */
  predicate OwnCleanup(t: Tunnel) {
    forall s | 0 <= s < |t.pipes| && s < |t.reg.all| ::
      && (t.reg.all[s].cleaned ==> t.pipes[s].driver.CleanedUp? || t.pipes[s].driver.Closed?)
      && (t.pipes[s].driver.CleanedUp? ==> t.reg.all[s].cleaned)
  }

  /** Proxy tasks of all sessions whose phase is in [from, to). */
  function CountAll(pipes: seq<Pipe>, from: nat, to: nat): nat {
    if pipes == [] then 0
    else CountAll(pipes[..|pipes| - 1], from, to) + Count(pipes[|pipes| - 1].phases, from, to)
  }

  predicate GloballyCounted(t: Tunnel) {
    && t.total == CountAll(t.pipes, 2, 6) % TWO_64
    && t.active == CountAll(t.pipes, 3, 5) % TWO_64
  }

  ghost predicate TunnelInv(t: Tunnel) {
    && RegInv(t.reg)
    && Housed(t)
    && PipesInv(t)
    && SendersLive(t)
    && AllGenuine(t)
    && AllVisited(t)
    && OwnCleanup(t)
    && GloballyCounted(t)
  }
}
