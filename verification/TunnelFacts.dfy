/** What every step of the server keeps. */
module TunnelFacts {
  import opened Common
  import opened Store
  import opened StoreFacts
  import opened Registry
  import opened RegistryFacts
  import opened Pipe
  import opened PipeFacts
  import opened Tunnel

  // ----- the two halves of a step: the tables, and one session's pipe -----

  function TablesAfter(t: Tunnel, e: Event): Reg {
    match e
    case Register(k) =>
      if k < |t.verified| && !t.verified[k].done then Insert(t.reg, t.verified[k].client) else t.reg
    case StartListeners(s, binds) =>
      if s < |t.pipes| && s < |t.reg.all| && t.pipes[s].driver.Accepted?
      then StartClientListeners(t.reg, t.reg.all[s].client, binds) else t.reg
    case RunCleanup(s) => if s < |t.pipes| && t.pipes[s].driver.Exited? then Cleanup(t.reg, s) else t.reg
    case Refused(i) =>
      if Live(t, i) && i in t.pipes[t.reg.tasks[i].session].sending
         && t.pipes[t.reg.tasks[i].session].driver.Closed? then Finish(t.reg, i) else t.reg
    case AbortLands(i) => if Live(t, i) && t.reg.tasks[i].aborted then Finish(t.reg, i) else t.reg
    case AcceptError(i) =>
      if Live(t, i) && i !in t.pipes[t.reg.tasks[i].session].sending then Finish(t.reg, i) else t.reg
    case Manage(op, saved, binds, order) => Admin(t.reg, op, t.pepper, saved, binds, order)
    case _ => t.reg
  }

  /** The session whose pipe takes a step, and the step. */
  function Moved(t: Tunnel, e: Event): Option<(nat, PipeEvent)> {
    match e
    case Handler(s, pe) => if HandlerEvent(pe) && s < |t.pipes| then Some((s, pe)) else None
    case StartListeners(s, binds) =>
      if s < |t.pipes| && s < |t.reg.all| && t.pipes[s].driver.Accepted? then Some((s, ListenersStarted)) else None
    case ChannelEnds(s) => if s < |t.pipes| then Some((s, ChannelEnded(OtherSenders(t, s)))) else None
    case RunCleanup(s) => if s < |t.pipes| && t.pipes[s].driver.Exited? then Some((s, RanCleanup)) else None
    case Arrive(i) =>
      if Live(t, i) && i !in t.pipes[t.reg.tasks[i].session].sending
      then Some((t.reg.tasks[i].session, Admit(Request(|t.visits|, i, t.reg.tasks[i].local)))) else None
    case Sent(i) => if Live(t, i) then Some((t.reg.tasks[i].session, SendDone(i))) else None
    case GaveUp(i) => if Live(t, i) then Some((t.reg.tasks[i].session, SendTimeout(i))) else None
    case Refused(i) =>
      if Live(t, i) && i in t.pipes[t.reg.tasks[i].session].sending
         && t.pipes[t.reg.tasks[i].session].driver.Closed? then Some((t.reg.tasks[i].session, SendRefused(i))) else None
    case AbortLands(i) =>
      if Live(t, i) && t.reg.tasks[i].aborted then Some((t.reg.tasks[i].session, SendDropped(i))) else None
    case Proxy(s, i) => if s < |t.pipes| && i < |t.pipes[s].phases| then Some((s, ProxyStep(i))) else None
    case _ => None
  }

  function PipesAfter(t: Tunnel, e: Event): seq<Pipe> {
    match Moved(t, e)
    case Some(m) => if m.0 < |t.pipes| then t.pipes[m.0 := Step(t.pipes[m.0], m.1, t.maxConns)] else t.pipes
    case None => if |TablesAfter(t, e).all| > |t.reg.all| then t.pipes + [NEW] else t.pipes
  }

  lemma NextTablesSplit(t: Tunnel, e: Event)
    ensures Next(t, e).reg == TablesAfter(t, e)
  {
  }

  lemma NextPipesSplit(t: Tunnel, e: Event)
    requires Moved(t, e).Some? ==> |TablesAfter(t, e).all| == |t.reg.all|
    requires !e.Register? ==> |TablesAfter(t, e).all| == |t.reg.all|
    ensures Next(t, e).pipes == PipesAfter(t, e)
  {
  }

  lemma NextSplits(t: Tunnel, e: Event)
    ensures Next(t, e).reg == TablesAfter(t, e)
    ensures Next(t, e).pipes == PipesAfter(t, e)
    ensures Moved(t, e).Some? ==> Moved(t, e).value.0 < |t.pipes| && |TablesAfter(t, e).all| == |t.reg.all|
    ensures |TablesAfter(t, e).all| <= |t.reg.all| + 1
  {
    TablesExtend(t, e);
    NextTablesSplit(t, e);
    NextPipesSplit(t, e);
  }

  /** What a step may do to the tables: grow them, clean a session up, abort or finish loops. */
  ghost predicate Grows(t: Tunnel, e: Event, r: Reg) {
    && Extends(t.reg, r)
    && (|r.all| == |t.reg.all| || (e.Register? && |r.all| == |t.reg.all| + 1))
    && r.maxClients == t.reg.maxClients
    && (forall s | 0 <= s < |t.reg.all| ::
          r.all[s].cleaned == (t.reg.all[s].cleaned || (e == RunCleanup(s) && r != t.reg)))
    && (forall i: nat | i < |t.reg.tasks| && r.tasks[i].finished && !t.reg.tasks[i].finished ::
          e == Refused(i) || e == AbortLands(i) || e == AcceptError(i))
  }

  lemma HandlersReshape(t: Tunnel, e: Event)
    requires !e.Register? && !e.RunCleanup? && !e.Refused? && !e.AbortLands? && !e.AcceptError?
    ensures Reshapes(t.reg, TablesAfter(t, e))
  {
    if e.StartListeners? {
      if e.s < |t.reg.all| {
        StartReshapes(t.reg, t.reg.all[e.s].client, e.binds);
      }
    } else if e.Manage? {
      AdminReshapes(t.reg, e.op, t.pepper, e.saved, e.binds, e.order);
    }
  }

  lemma InsertGrows(t: Tunnel, k: nat)
    ensures Grows(t, Register(k), TablesAfter(t, Register(k)))
  {
  }

  lemma CleanupGrows(t: Tunnel, s: nat)
    ensures Grows(t, RunCleanup(s), TablesAfter(t, RunCleanup(s)))
  {
  }

  lemma FinishGrows(r: Reg, i: nat)
    ensures Extends(r, Finish(r, i)) && Finish(r, i).sessions == r.sessions && Finish(r, i).maxClients == r.maxClients
    ensures Finish(r, i).all == r.all
    ensures forall k: nat | k < |r.tasks| && Finish(r, i).tasks[k].finished && !r.tasks[k].finished :: k == i
  {
  }

  lemma LoopsFinish(t: Tunnel, e: Event)
    requires e.Refused? || e.AbortLands? || e.AcceptError?
    ensures Grows(t, e, TablesAfter(t, e)) && TablesAfter(t, e).sessions == t.reg.sessions
  {
    FinishGrows(t.reg, e.task);
    FinishedTables(t, e);
  }

  lemma TablesExtend(t: Tunnel, e: Event)
    ensures Grows(t, e, TablesAfter(t, e))
    ensures !e.Register? && !e.RunCleanup? ==> TablesAfter(t, e).sessions == t.reg.sessions
  {
    if e.Register? {
      InsertGrows(t, e.k);
    } else if e.RunCleanup? {
      CleanupGrows(t, e.s);
    } else if e.Refused? || e.AbortLands? || e.AcceptError? {
      LoopsFinish(t, e);
    } else {
      HandlersReshape(t, e);
    }
  }

  // ----- the tables -----

  lemma RegisteredTablesInv(t: Tunnel, k: nat)
    requires RegInv(t.reg)
    ensures RegInv(TablesAfter(t, Register(k)))
  {
    if k < |t.verified| {
      InsertInv(t.reg, t.verified[k].client);
    }
  }

  lemma StartedTablesInv(t: Tunnel, s: nat, binds: set<string>)
    requires RegInv(t.reg)
    ensures RegInv(TablesAfter(t, StartListeners(s, binds)))
  {
    if s < |t.reg.all| {
      StartInv(t.reg, t.reg.all[s].client, binds);
      StartedTables(t, s, binds);
    } else {
      IdleStart(t, s, binds);
    }
  }

  lemma SessionTablesInv(t: Tunnel, e: Event)
    requires RegInv(t.reg) && (e.Register? || e.StartListeners? || e.RunCleanup?)
    ensures RegInv(TablesAfter(t, e))
  {
    if e.Register? {
      RegisteredTablesInv(t, e.k);
    } else if e.StartListeners? {
      StartedTablesInv(t, e.s, e.binds);
    } else {
      CleanupInv(t.reg, e.s);
    }
  }

  lemma FinishedTablesInv(t: Tunnel, e: Event)
    requires RegInv(t.reg) && (e.Refused? || e.AbortLands? || e.AcceptError?)
    ensures RegInv(TablesAfter(t, e))
  {
    FinishInv(t.reg, e.task);
    FinishedTables(t, e);
  }

  lemma FinishedTables(t: Tunnel, e: Event)
    requires e.Refused? || e.AbortLands? || e.AcceptError?
    ensures TablesAfter(t, e) == t.reg || TablesAfter(t, e) == Finish(t.reg, e.task)
  {
  }

  lemma StartedTables(t: Tunnel, s: nat, binds: set<string>)
    requires s < |t.reg.all|
    ensures var r := TablesAfter(t, StartListeners(s, binds));
            r == t.reg || r == StartClientListeners(t.reg, t.reg.all[s].client, binds)
  {
  }

  lemma IdleStart(t: Tunnel, s: nat, binds: set<string>)
    requires s >= |t.reg.all|
    ensures TablesAfter(t, StartListeners(s, binds)) == t.reg
  {
  }

  lemma ManagedTablesInv(t: Tunnel, e: Event)
    requires RegInv(t.reg) && e.Manage?
    ensures RegInv(TablesAfter(t, e))
  {
    AdminInv(t.reg, e.op, t.pepper, e.saved, e.binds, e.order);
  }

  lemma SameTables(t: Tunnel, e: Event)
    requires !e.Register? && !e.StartListeners? && !e.RunCleanup? && !e.Refused? && !e.AbortLands? && !e.AcceptError?
    requires !e.Manage?
    ensures TablesAfter(t, e) == t.reg
  {
  }

  lemma TablesInv(t: Tunnel, e: Event)
    requires RegInv(t.reg)
    ensures RegInv(TablesAfter(t, e))
  {
    if e.Register? || e.StartListeners? || e.RunCleanup? {
      SessionTablesInv(t, e);
    } else if e.Refused? || e.AbortLands? || e.AcceptError? {
      FinishedTablesInv(t, e);
    } else if e.Manage? {
      ManagedTablesInv(t, e);
    } else {
      SameTables(t, e);
    }
  }

  // ----- the pipes -----

  /** One session's pipe after a step. */
  function PipeAfter(t: Tunnel, e: Event, s: nat): Pipe
    requires s < |t.pipes|
  {
    match Moved(t, e)
    case Some(m) => if m.0 == s then Step(t.pipes[s], m.1, t.maxConns) else t.pipes[s]
    case None => t.pipes[s]
  }

  lemma PipeAfterAt(t: Tunnel, e: Event, s: nat)
    requires s < |PipesAfter(t, e)|
    ensures PipesAfter(t, e)[s] == if s < |t.pipes| then PipeAfter(t, e, s) else NEW
  {
  }

  lemma PipeKept(t: Tunnel, e: Event, s: nat)
    requires s < |PipesAfter(t, e)| && (s < |t.pipes| ==> PipeInv(t.pipes[s], t.maxConns))
    ensures PipeInv(PipesAfter(t, e)[s], t.maxConns)
  {
    PipeAfterAt(t, e, s);
    if s >= |t.pipes| {
      NewInv(t.maxConns);
    } else if Moved(t, e).Some? {
      StepPipeInv(t.pipes[s], Moved(t, e).value.1, t.maxConns);
    }
  }

  // ----- the links between tables and pipes -----

  ghost predicate Linked(t: Tunnel) {
    SendersLive(t) && AllGenuine(t) && AllVisited(t)
  }

  /** Steps that take no new visitor keep the links, as long as no sending loop is finished. */
  lemma LinksKept(t: Tunnel, t': Tunnel)
    requires Linked(t) && Extends(t.reg, t'.reg) && t'.visits == t.visits && |t'.pipes| >= |t.pipes|
    requires forall s | 0 <= s < |t.pipes| :: t'.pipes[s].fate.Keys == t.pipes[s].fate.Keys
    requires forall s | 0 <= s < |t.pipes| :: forall i | i in t'.pipes[s].sending ::
               i in t.pipes[s].sending && (i < |t.reg.tasks| ==> !t'.reg.tasks[i].finished)
    requires forall s | |t.pipes| <= s < |t'.pipes| :: t'.pipes[s] == NEW
    ensures Linked(t')
  {
    forall s, r | 0 <= s < |t'.pipes| && r in t'.pipes[s].fate
      ensures Genuine(t', s, r)
    {
      assert s < |t.pipes| && r in t.pipes[s].fate.Keys;
      assert Genuine(t, s, r);
    }
    forall v: nat | v < |t'.visits|
      ensures t'.visits[v].task < |t'.reg.tasks| && t'.reg.tasks[t'.visits[v].task].session < |t'.pipes|
      ensures Request(v, t'.visits[v].task, t'.reg.tasks[t'.visits[v].task].local)
              in t'.pipes[t'.reg.tasks[t'.visits[v].task].session].fate
    {
      var i := t.visits[v].task;
      var s := t.reg.tasks[i].session;
      assert Request(v, i, t.reg.tasks[i].local) in t.pipes[s].fate.Keys;
      assert Request(v, i, t.reg.tasks[i].local) in t'.pipes[s].fate.Keys;
    }
  }

  lemma StopKeys(p: Pipe, task: nat, f: Fate)
    requires Placed(p)
    ensures StopSending(p, task, f).fate.Keys == p.fate.Keys
    ensures StopSending(p, task, f).sending.Keys <= p.sending.Keys
  {
    if task in p.sending {
      assert Is(p, p.sending[task], Sending);
    }
  }

  lemma SenderKeys(p: Pipe, e: PipeEvent, maxConns: nat)
    requires Placed(p) && (e.SendDone? || e.SendTimeout? || e.SendRefused? || e.SendDropped?)
    ensures Step(p, e, maxConns).fate.Keys == p.fate.Keys
    ensures Step(p, e, maxConns).sending.Keys <= p.sending.Keys
  {
    StopKeys(p, e.task, if e.SendDone? then Queued else if e.SendTimeout? then TimedOut
                        else if e.SendRefused? then ChannelClosed else SendAborted);
  }

  lemma DriverKeys(p: Pipe, e: PipeEvent, maxConns: nat)
    requires Placed(p) && (e.Dequeue? || e.StreamOpened? || e.StreamFailed?)
    ensures Step(p, e, maxConns).fate.Keys == p.fate.Keys
    ensures Step(p, e, maxConns).sending == p.sending
  {
    var q := Step(p, e, maxConns);
    if e.Dequeue? && q != p {
      assert Is(p, p.queue[0], Queued);
    } else if q != p {
      assert Is(p, p.driver.req, Held);
    }
  }

  lemma QuietKeys(p: Pipe, e: PipeEvent, maxConns: nat)
    requires !e.Admit? && !e.SendDone? && !e.SendTimeout? && !e.SendRefused? && !e.SendDropped?
    requires !e.Dequeue? && !e.StreamOpened? && !e.StreamFailed?
    ensures Step(p, e, maxConns).fate.Keys == p.fate.Keys
    ensures Step(p, e, maxConns).sending == p.sending
  {
  }

  /** Only a new visitor adds to fates or to the loops that are sending. */
  lemma StepKeys(p: Pipe, e: PipeEvent, maxConns: nat)
    requires !e.Admit? && Placed(p)
    ensures Step(p, e, maxConns).fate.Keys == p.fate.Keys
    ensures Step(p, e, maxConns).sending.Keys <= p.sending.Keys
  {
    if e.SendDone? || e.SendTimeout? || e.SendRefused? || e.SendDropped? {
      SenderKeys(p, e, maxConns);
    } else if e.Dequeue? || e.StreamOpened? || e.StreamFailed? {
      DriverKeys(p, e, maxConns);
    } else {
      QuietKeys(p, e, maxConns);
    }
  }

  lemma SendingGone(p: Pipe, e: PipeEvent, i: nat, maxConns: nat)
    requires e == SendDropped(i) || (e == SendRefused(i) && p.driver.Closed?)
    ensures i !in Step(p, e, maxConns).sending
  {
  }

  /** A loop that a step finishes is not sending afterwards. */
  lemma FinishedNotSending(t: Tunnel, e: Event, i: nat)
    requires i < |t.reg.tasks| && !t.reg.tasks[i].finished
    requires i < |TablesAfter(t, e).tasks| && TablesAfter(t, e).tasks[i].finished
    ensures t.reg.tasks[i].session < |PipesAfter(t, e)|
    ensures i !in PipesAfter(t, e)[t.reg.tasks[i].session].sending
  {
    TablesExtend(t, e);
    if e.Refused? || e.AbortLands? {
      var s := t.reg.tasks[i].session;
      SendingGone(t.pipes[s], Moved(t, e).value.1, i, t.maxConns);
    }
  }

  /** What a step other than an arrival does to the pipes' keys. */
  lemma PipesKeys(t: Tunnel, e: Event, s: nat)
    requires !e.Arrive? && s < |t.pipes| && Placed(t.pipes[s])
    requires e.Handler? ==> !e.e.Admit?
    ensures s < |PipesAfter(t, e)|
    ensures PipesAfter(t, e)[s].fate.Keys == t.pipes[s].fate.Keys
    ensures PipesAfter(t, e)[s].sending.Keys <= t.pipes[s].sending.Keys
  {
    if Moved(t, e).Some? && Moved(t, e).value.0 == s {
      StepKeys(t.pipes[s], Moved(t, e).value.1, t.maxConns);
    }
  }

  ghost predicate AllPlaced(t: Tunnel) {
    forall s | 0 <= s < |t.pipes| :: Placed(t.pipes[s])
  }

  /** What a step other than an arrival leaves of a session's links. */
  lemma LinkKept(t: Tunnel, e: Event, s: nat)
    requires SendersLive(t) && !e.Arrive? && (e.Handler? ==> !e.e.Admit?) && s < |t.pipes| && Placed(t.pipes[s])
    requires |TablesAfter(t, e).tasks| >= |t.reg.tasks|
    ensures s < |PipesAfter(t, e)| && PipesAfter(t, e)[s].fate.Keys == t.pipes[s].fate.Keys
    ensures forall i | i in PipesAfter(t, e)[s].sending ::
              i in t.pipes[s].sending && (i < |t.reg.tasks| ==> !TablesAfter(t, e).tasks[i].finished)
  {
    PipesKeys(t, e, s);
    forall i | i in PipesAfter(t, e)[s].sending
      ensures i in t.pipes[s].sending && (i < |t.reg.tasks| ==> !TablesAfter(t, e).tasks[i].finished)
    {
      assert i in t.pipes[s].sending.Keys;
      if TablesAfter(t, e).tasks[i].finished {
        FinishedNotSending(t, e, i);
      }
    }
  }

  lemma NewPipes(t: Tunnel, e: Event)
    ensures |PipesAfter(t, e)| >= |t.pipes|
    ensures forall s | |t.pipes| <= s < |PipesAfter(t, e)| :: PipesAfter(t, e)[s] == NEW
  {
  }

  lemma SameVisits(t: Tunnel, e: Event)
    requires !e.Arrive?
    ensures Next(t, e).visits == t.visits
  {
  }

  lemma NextLinked(t: Tunnel, e: Event)
    requires Linked(t) && AllPlaced(t) && !e.Arrive?
    ensures Linked(Next(t, e))
  {
    if e.Handler? && e.e.Admit? {
      assert Next(t, e) == t;
    } else {
      NextSplits(t, e);
      TablesExtend(t, e);
      NewPipes(t, e);
      SameVisits(t, e);
      forall s | 0 <= s < |t.pipes|
        ensures PipesAfter(t, e)[s].fate.Keys == t.pipes[s].fate.Keys
        ensures forall i | i in PipesAfter(t, e)[s].sending ::
                  i in t.pipes[s].sending && (i < |t.reg.tasks| ==> !TablesAfter(t, e).tasks[i].finished)
      {
        LinkKept(t, e, s);
      }
      LinksKept(t, Next(t, e));
    }
  }

  /** A request for the visit that is about to be recorded is not there yet. */
  lemma FreshRequest(t: Tunnel, s: nat, i: nat, target: string)
    requires AllGenuine(t) && s < |t.pipes|
    ensures Request(|t.visits|, i, target) !in t.pipes[s].fate
  {
  }

  lemma AdmitKeys(p: Pipe, req: Request, maxConns: nat)
    requires req !in p.fate && req.task !in p.sending
    ensures Step(p, Admit(req), maxConns).fate.Keys == p.fate.Keys + {req}
    ensures Step(p, Admit(req), maxConns).sending.Keys <= p.sending.Keys + {req.task}
  {
  }

  lemma ArriveLinked(t: Tunnel, i: nat)
    requires Linked(t)
    ensures Linked(Next(t, Arrive(i)))
  {
    var t' := Next(t, Arrive(i));
    if Live(t, i) && i !in t.pipes[t.reg.tasks[i].session].sending {
      var a := t.reg.tasks[i];
      var req := Request(|t.visits|, i, a.local);
      FreshRequest(t, a.session, i, a.local);
      AdmitKeys(t.pipes[a.session], req, t.maxConns);
      forall s, r | 0 <= s < |t'.pipes| && r in t'.pipes[s].fate
        ensures Genuine(t', s, r)
      {
        if r != req || s != a.session {
          assert r in t.pipes[s].fate.Keys;
          assert Genuine(t, s, r);
        }
      }
      forall s, k | 0 <= s < |t'.pipes| && k in t'.pipes[s].sending
        ensures k < |t'.reg.tasks| && t'.reg.tasks[k].session == s && !t'.reg.tasks[k].finished
      {
        assert k in t.pipes[s].sending.Keys || k == i;
      }
      ArriveVisited(t, t', i, req);
    }
  }

  lemma ArriveVisited(t: Tunnel, t': Tunnel, i: nat, req: Request)
    requires i < |t.reg.tasks| && t.reg.tasks[i].session < |t.pipes| == |t'.pipes|
    requires AllVisited(t) && t'.reg == t.reg && t'.visits == t.visits + [Visit(t.reg.tasks[i].port, i)]
    requires req == Request(|t.visits|, i, t.reg.tasks[i].local)
    requires req in t'.pipes[t.reg.tasks[i].session].fate
    requires forall s | 0 <= s < |t.pipes| :: t.pipes[s].fate.Keys <= t'.pipes[s].fate.Keys
    ensures AllVisited(t')
  {
    forall v: nat | v < |t'.visits|
      ensures t'.visits[v].task < |t'.reg.tasks| && t'.reg.tasks[t'.visits[v].task].session < |t'.pipes|
      ensures Request(v, t'.visits[v].task, t'.reg.tasks[t'.visits[v].task].local)
              in t'.pipes[t'.reg.tasks[t'.visits[v].task].session].fate
    {
      if v < |t.visits| {
        var s := t.reg.tasks[t.visits[v].task].session;
        assert Request(v, t.visits[v].task, t.reg.tasks[t.visits[v].task].local) in t.pipes[s].fate.Keys;
      }
    }
  }

  // ----- global counters -----

  lemma {:induction false} CountAllUpdate(pipes: seq<Pipe>, s: nat, p: Pipe, from: nat, to: nat)
    requires s < |pipes|
    ensures CountAll(pipes[s := p], from, to)
            == CountAll(pipes, from, to) - Count(pipes[s].phases, from, to) + Count(p.phases, from, to)
  {
    var n := |pipes| - 1;
    if s == n {
      assert pipes[s := p][..n] == pipes[..n];
    } else {
      assert pipes[s := p][..n] == pipes[..n][s := p];
      CountAllUpdate(pipes[..n], s, p, from, to);
    }
  }

  lemma CountAllNew(pipes: seq<Pipe>, from: nat, to: nat)
    ensures CountAll(pipes + [NEW], from, to) == CountAll(pipes, from, to)
  {
    assert (pipes + [NEW])[..|pipes|] == pipes;
  }

  lemma {:induction false} CountAllPositive(pipes: seq<Pipe>, s: nat, i: nat, from: nat, to: nat)
    requires s < |pipes| && i < |pipes[s].phases| && from <= pipes[s].phases[i] < to
    ensures CountAll(pipes, from, to) > 0
  {
    if s < |pipes| - 1 {
      CountAllPositive(pipes[..|pipes| - 1], s, i, from, to);
    } else {
      CountPositive(pipes[s].phases, i, from, to);
    }
  }

  /** Steps other than a proxy task's change no count: a new task starts at phase 0. */
  lemma StepCounts(p: Pipe, e: PipeEvent, maxConns: nat, from: nat, to: nat)
    requires !e.ProxyStep? && from >= 1
    ensures Count(Step(p, e, maxConns).phases, from, to) == Count(p.phases, from, to)
  {
    if e.StreamOpened? {
      CountSnoc(p.phases, 0, from, to);
    } else {
      QuietStep(p, e, maxConns);
    }
  }

  lemma MovedByOther(t: Tunnel, e: Event)
    requires !e.Proxy?
    ensures Moved(t, e).Some? ==> !Moved(t, e).value.1.ProxyStep?
  {
  }

  lemma OtherCounts(t: Tunnel, e: Event, from: nat, to: nat)
    requires !e.Proxy? && from >= 1
    ensures CountAll(PipesAfter(t, e), from, to) == CountAll(t.pipes, from, to)
  {
    MovedByOther(t, e);
    if Moved(t, e).Some? {
      var (s, pe) := Moved(t, e).value;
      if s < |t.pipes| {
        StepCounts(t.pipes[s], pe, t.maxConns, from, to);
        CountAllUpdate(t.pipes, s, Step(t.pipes[s], pe, t.maxConns), from, to);
      }
    } else {
      CountAllNew(t.pipes, from, to);
    }
  }

  /** A proxy task moves from one phase to the next. */
  lemma ProxyPhases(p: Pipe, i: nat, maxConns: nat, from: nat, to: nat)
    requires i < |p.phases| && p.phases[i] <= 5
    ensures var phase := p.phases[i];
            var phase' := if phase < 5 then phase + 1 else phase;
            Count(Step(p, ProxyStep(i), maxConns).phases, from, to) == Count(p.phases, from, to)
              - (if from <= phase < to then 1 else 0) + (if from <= phase' < to then 1 else 0)
  {
    if p.phases[i] < 5 {
      CountUpdate(p.phases, i, p.phases[i] + 1, from, to);
    }
  }

  lemma ProxyCounts(t: Tunnel, s: nat, i: nat, from: nat, to: nat)
    requires s < |t.pipes| && i < |t.pipes[s].phases| && t.pipes[s].phases[i] <= 5
    ensures var phase := t.pipes[s].phases[i];
            var phase' := if phase < 5 then phase + 1 else phase;
            CountAll(PipesAfter(t, Proxy(s, i)), from, to) == CountAll(t.pipes, from, to)
              - (if from <= phase < to then 1 else 0) + (if from <= phase' < to then 1 else 0)
    ensures from <= t.pipes[s].phases[i] < to ==> CountAll(t.pipes, from, to) > 0
  {
    var q := Step(t.pipes[s], ProxyStep(i), t.maxConns);
    assert PipesAfter(t, Proxy(s, i)) == t.pipes[s := q];
    CountAllUpdate(t.pipes, s, q, from, to);
    ProxyPhases(t.pipes[s], i, t.maxConns, from, to);
    if from <= t.pipes[s].phases[i] < to {
      CountAllPositive(t.pipes, s, i, from, to);
    }
  }

  lemma TotalFollows(total: nat, n: nat, phase: nat)
    requires total == n % TWO_64
    ensures TotalAfter(total, phase) == (n + (if phase == 1 then 1 else 0)) % TWO_64
  {
    WrappedIncrement(n);
  }

  lemma ActiveFollows(active: nat, n: nat, phase: nat)
    requires active == n % TWO_64 && (phase == 4 ==> n > 0)
    ensures ActiveAfter(active, phase)
            == (n + (if phase == 2 then 1 else 0) - (if phase == 4 then 1 else 0)) % TWO_64
  {
    WrappedIncrement(n);
    if phase == 4 {
      WrappedDecrement(n);
    }
  }

  lemma ProxyTotals(t: Tunnel, s: nat, i: nat)
    requires s < |t.pipes| && i < |t.pipes[s].phases|
    ensures Next(t, Proxy(s, i)).total == TotalAfter(t.total, t.pipes[s].phases[i])
    ensures Next(t, Proxy(s, i)).active == ActiveAfter(t.active, t.pipes[s].phases[i])
  {
  }

  lemma ProxyGlobal(t: Tunnel, s: nat, i: nat)
    requires GloballyCounted(t) && s < |t.pipes| && i < |t.pipes[s].phases| && t.pipes[s].phases[i] <= 5
    ensures GloballyCounted(Next(t, Proxy(s, i)))
  {
    ProxyTotals(t, s, i);
    ProxyCounts(t, s, i, 2, 6);
    ProxyCounts(t, s, i, 3, 5);
    TotalFollows(t.total, CountAll(t.pipes, 2, 6), t.pipes[s].phases[i]);
    ActiveFollows(t.active, CountAll(t.pipes, 3, 5), t.pipes[s].phases[i]);
  }

  lemma NextCounted(t: Tunnel, e: Event)
    requires GloballyCounted(t) && PhasesInRange(t)
    ensures GloballyCounted(Next(t, e))
  {
    if e.Proxy? {
      if e.s < |t.pipes| && e.i < |t.pipes[e.s].phases| {
        ProxyGlobal(t, e.s, e.i);
      }
    } else {
      NextSplits(t, e);
      SameTotals(t, e);
      OtherCounts(t, e, 2, 6);
      OtherCounts(t, e, 3, 5);
    }
  }

  lemma SameTotals(t: Tunnel, e: Event)
    requires !e.Proxy?
    ensures Next(t, e).total == t.total && Next(t, e).active == t.active
  {
  }

  predicate PhasesInRange(t: Tunnel) {
    forall s | 0 <= s < |t.pipes| :: forall i | 0 <= i < |t.pipes[s].phases| :: t.pipes[s].phases[i] <= 5
  }

  // ----- cleanup -----

  /** Only RanCleanup leaves Exited, and only Returned leaves CleanedUp. */
  lemma DriverOrder(p: Pipe, e: PipeEvent, maxConns: nat)
    requires Fifo(p)
    ensures var d, d' := p.driver, Step(p, e, maxConns).driver;
            && (d'.CleanedUp? ==> d.CleanedUp? || (e.RanCleanup? && d.Exited?))
            && (d.CleanedUp? || d.Closed? ==> d'.CleanedUp? || d'.Closed?)
            && (e.RanCleanup? && d.Exited? ==> d'.CleanedUp?)
  {
  }

  lemma OwnCleanupKept(t: Tunnel, s: nat)
    requires s < |t.pipes| && s < |t.reg.all| && (t.pipes[s].driver.CleanedUp? ==> t.reg.all[s].cleaned)
    requires t.reg.all[s].cleaned ==> t.pipes[s].driver.CleanedUp? || t.pipes[s].driver.Closed?
    ensures var d, r := PipeAfter(t, RunCleanup(s), s).driver, TablesAfter(t, RunCleanup(s));
            s < |r.all| && (r.all[s].cleaned ==> d.CleanedUp? || d.Closed?) && (d.CleanedUp? ==> r.all[s].cleaned)
  {
  }

  /** Steps other than a session's cleanup neither mark it cleaned up nor bring its driver there. */
  lemma OtherCleanup(t: Tunnel, e: Event, s: nat)
    requires e != RunCleanup(s) && s < |t.pipes| && s < |t.reg.all| && Fifo(t.pipes[s])
    ensures s < |TablesAfter(t, e).all| && TablesAfter(t, e).all[s].cleaned == t.reg.all[s].cleaned
    ensures var d, d' := t.pipes[s].driver, PipeAfter(t, e, s).driver;
            (d'.CleanedUp? ==> d.CleanedUp?) && (d.CleanedUp? || d.Closed? ==> d'.CleanedUp? || d'.Closed?)
  {
    TablesExtend(t, e);
    NoCleanupMoved(t, e, s);
    if Moved(t, e).Some? {
      DriverOrder(t.pipes[s], Moved(t, e).value.1, t.maxConns);
    }
  }

  lemma NoCleanupMoved(t: Tunnel, e: Event, s: nat)
    requires e != RunCleanup(s)
    ensures Moved(t, e).Some? && Moved(t, e).value.0 == s ==> !Moved(t, e).value.1.RanCleanup?
  {
  }

  lemma CleanupKept(t: Tunnel, e: Event, s: nat)
    requires s < |t.pipes| && s < |t.reg.all| && Fifo(t.pipes[s])
    requires t.reg.all[s].cleaned ==> t.pipes[s].driver.CleanedUp? || t.pipes[s].driver.Closed?
    requires t.pipes[s].driver.CleanedUp? ==> t.reg.all[s].cleaned
    ensures s < |TablesAfter(t, e).all|
    ensures var d := PipeAfter(t, e, s).driver;
            && (TablesAfter(t, e).all[s].cleaned ==> d.CleanedUp? || d.Closed?)
            && (d.CleanedUp? ==> TablesAfter(t, e).all[s].cleaned)
  {
    if e == RunCleanup(s) {
      OwnCleanupKept(t, s);
    } else {
      OtherCleanup(t, e, s);
    }
  }

  lemma NextCleanup(t: Tunnel, e: Event)
    requires OwnCleanup(t) && Housed(t) && forall s | 0 <= s < |t.pipes| :: Fifo(t.pipes[s])
    ensures OwnCleanup(Next(t, e))
  {
    NextSplits(t, e);
    NewPipes(t, e);
    forall s | 0 <= s < |PipesAfter(t, e)| && s < |TablesAfter(t, e).all|
      ensures TablesAfter(t, e).all[s].cleaned ==>
                PipesAfter(t, e)[s].driver.CleanedUp? || PipesAfter(t, e)[s].driver.Closed?
      ensures PipesAfter(t, e)[s].driver.CleanedUp? ==> TablesAfter(t, e).all[s].cleaned
    {
      PipeAfterAt(t, e, s);
      if s < |t.pipes| {
        CleanupKept(t, e, s);
      } else {
        assert e.Register?;
      }
    }
  }

  // ----- all of it -----

  lemma FromPipesInv(t: Tunnel)
    requires PipesInv(t)
    ensures AllPlaced(t) && PhasesInRange(t) && forall s | 0 <= s < |t.pipes| :: Fifo(t.pipes[s])
  {
    forall s | 0 <= s < |t.pipes|
      ensures Placed(t.pipes[s]) && Fifo(t.pipes[s]) && Counted(t.pipes[s])
    {
      assert PipeInv(t.pipes[s], t.maxConns);
    }
  }

  lemma NextTables(t: Tunnel, e: Event)
    requires RegInv(t.reg) && Housed(t)
    ensures RegInv(Next(t, e).reg) && Housed(Next(t, e))
  {
    TablesInv(t, e);
    NextTablesSplit(t, e);
    GenuineTasks(TablesAfter(t, e));
    NextHoused(t, e);
  }

  lemma GenuineTasks(r: Reg)
    requires RegInv(r)
    ensures TasksGenuine(r)
  {
  }

  lemma NextHoused(t: Tunnel, e: Event)
    requires Housed(t) && TasksGenuine(TablesAfter(t, e))
    ensures Housed(Next(t, e))
  {
    NextSplits(t, e);
    TablesExtend(t, e);
  }

  lemma NextPipes(t: Tunnel, e: Event)
    requires PipesInv(t)
    ensures PipesInv(Next(t, e))
  {
    NextSplits(t, e);
    NextConfig(t, e);
    forall s | 0 <= s < |PipesAfter(t, e)|
      ensures PipeInv(PipesAfter(t, e)[s], t.maxConns)
    {
      PipeKept(t, e, s);
    }
  }

  lemma NextRest(t: Tunnel, e: Event)
    requires PipesInv(t) && Linked(t) && OwnCleanup(t) && GloballyCounted(t) && Housed(t)
    ensures Linked(Next(t, e)) && OwnCleanup(Next(t, e)) && GloballyCounted(Next(t, e))
  {
    FromPipesInv(t);
    if e.Arrive? {
      ArriveLinked(t, e.task);
    } else {
      NextLinked(t, e);
    }
    NextCleanup(t, e);
    NextCounted(t, e);
  }

  lemma NextInv(t: Tunnel, e: Event)
    requires TunnelInv(t)
    ensures TunnelInv(Next(t, e))
  {
    NextTables(t, e);
    NextPipes(t, e);
    NextRest(t, e);
  }

  lemma NextConfig(t: Tunnel, e: Event)
    ensures Next(t, e).maxConns == t.maxConns && Next(t, e).pepper == t.pepper
    ensures Next(t, e).reg.maxClients == t.reg.maxClients
  {
    NextSplits(t, e);
    TablesExtend(t, e);
  }

  lemma InitInv(clients: seq<Client>, pepper: string, maxClients: nat, maxConns: nat)
    requires GoodStore(clients)
    ensures TunnelInv(Init(clients, pepper, maxClients, maxConns))
  {
    LoadedInv(clients, maxClients);
  }

  /** The invariant holds after every sequence of events, from every configuration and every client
      list the server may have loaded. */
  lemma {:induction false} AlwaysInv(clients: seq<Client>, pepper: string, maxClients: nat, maxConns: nat,
                                     events: seq<Event>)
    requires GoodStore(clients)
    ensures TunnelInv(Run(Init(clients, pepper, maxClients, maxConns), events))
    ensures var t := Run(Init(clients, pepper, maxClients, maxConns), events);
            t.maxConns == maxConns && t.pepper == pepper && t.reg.maxClients == maxClients
  {
    if events == [] {
      InitInv(clients, pepper, maxClients, maxConns);
    } else {
      var t := Run(Init(clients, pepper, maxClients, maxConns), events[..|events| - 1]);
      AlwaysInv(clients, pepper, maxClients, maxConns, events[..|events| - 1]);
      NextInv(t, events[|events| - 1]);
      NextConfig(t, events[|events| - 1]);
    }
  }
}
