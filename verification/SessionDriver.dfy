/** The two loops of a session in the form the program has them: the driver of
    src/tunnel/session.rs and an accept loop of src/tunnel/listener.rs, over shared state that
    other tasks change between their turns.  Each is proved to be a run of module Pipe's steps. */
module SessionDriver {
  import opened Common
  import opened Pipe
  import opened PipeFacts
  import opened Registry
  import opened Server

  function RunPipe(p: Pipe, events: seq<PipeEvent>, maxConns: nat): Pipe {
    if events == [] then p
    else Step(RunPipe(p, events[..|events| - 1], maxConns), events[|events| - 1], maxConns)
  }

  /** Steps of the accept loops and proxy tasks, which may come at any time. */
  predicate OfOthers(e: PipeEvent) {
    e.Admit? || e.SendDone? || e.SendTimeout? || e.SendRefused? || e.SendDropped? || e.ProxyStep?
  }

  /** What the driver's select finds.  For a request: what others do while the stream is being opened,
      and whether it could be. */
  datatype Poll = UnexpectedStream | YamuxError | ConnectionClosed | Requested(during: seq<PipeEvent>, openOk: bool)

  /** A turn of the driver: what others did before it, and what it finds. */
  datatype Turn = Turn(before: seq<PipeEvent>, poll: Poll)

  /** Everything that happens around the driver's turns is the doing of others. */
  predicate OthersOnly(turns: seq<Turn>) {
    forall i | 0 <= i < |turns| :: ByOthers(turns[i].before) && PollByOthers(turns[i].poll)
  }

  predicate ByOthers(events: seq<PipeEvent>) {
    forall k | 0 <= k < |events| :: OfOthers(events[k])
  }

  predicate PollByOthers(poll: Poll) {
    poll.Requested? ==> ByOthers(poll.during)
  }

  function OpenStep(p: Pipe, ok: bool, maxConns: nat): Pipe {
    Step(p, if ok then StreamOpened else StreamFailed, maxConns)
  }

  /** What a turn does once the others have had theirs.  With an empty queue `recv` waits. */
  function TurnStep(p: Pipe, poll: Poll, maxConns: nat): Pipe {
    match poll
    case UnexpectedStream => p
    case YamuxError => Step(p, ConnectionEnded, maxConns)
    case ConnectionClosed => Step(p, ConnectionEnded, maxConns)
    case Requested(during, ok) => OpenStep(RunPipe(Step(p, Dequeue, maxConns), during, maxConns), ok, maxConns)
  }

  /** The driver's loop up to where it leaves it or the turns are used up. */
  function DriverLoop(p: Pipe, turns: seq<Turn>, maxConns: nat): Pipe
    decreases |turns|
  {
    if turns == [] || !p.driver.Running? then p
    else DriverLoop(TurnStep(RunPipe(p, turns[0].before, maxConns), turns[0].poll, maxConns), turns[1..], maxConns)
  }

  /** ... and the cleanup and return that follow leaving it. */
  function DriverRun(p: Pipe, turns: seq<Turn>, maxConns: nat): Pipe {
    Step(Step(DriverLoop(p, turns, maxConns), RanCleanup, maxConns), Returned, maxConns)
  }

  /** The session's state when the driver polls for turn i. */
  function Polled(p: Pipe, turns: seq<Turn>, i: nat, maxConns: nat): Pipe
    requires i < |turns|
  {
    RunPipe(DriverLoop(p, turns[..i], maxConns), turns[i].before, maxConns)
  }

  /** What makes the driver leave its loop: the connection ended, or no stream could be opened for a
      request. */
  predicate Fatal(q: Pipe, poll: Poll) {
    poll.ConnectionClosed? || poll.YamuxError? || (poll.Requested? && !poll.openOk && q.queue != [])
  }

  /** The driver gets to turn i, and that turn is its last. */
  predicate LeavesAt(p: Pipe, turns: seq<Turn>, i: nat, maxConns: nat) {
    && i < |turns| && DriverLoop(p, turns[..i], maxConns).driver.Running?
    && Fatal(Polled(p, turns, i, maxConns), turns[i].poll)
  }

  /** A visitor at an accept loop: what others did before it came and while its request waited for
      room, and whether room showed up within the 200 ms. */
  datatype Arrival = Arrival(visitor: nat, before: seq<PipeEvent>, waiting: seq<PipeEvent>, inTime: bool)

  /** A step of any other task than the given accept loop. */
  predicate NotOfLoop(e: PipeEvent, task: nat) {
    match e
    case Admit(req) => req.task != task
    case SendDone(t) => t != task
    case SendTimeout(t) => t != task
    case SendRefused(t) => t != task
    case SendDropped(t) => t != task
    case _ => true
  }

  /** The accept loop's own event at the end of a wait. */
  function Outcome(p: Pipe, task: nat, inTime: bool): PipeEvent {
    if p.driver.Closed? then SendRefused(task)
    else if inTime && |p.queue| < CAPACITY then SendDone(task)
    else SendTimeout(task)
  }

  /** A visitor arrives: the others' steps before it, then the limit check. */
  function Asked(p: Pipe, task: nat, local: string, a: Arrival, maxConns: nat): Pipe {
    Step(RunPipe(p, a.before, maxConns), Admit(Request(a.visitor, task, local)), maxConns)
  }

  /** A request that passed the check waits, and its wait ends. */
  function Waited(p: Pipe, task: nat, a: Arrival, maxConns: nat): Pipe {
    var q := RunPipe(p, a.waiting, maxConns);
    Step(q, Outcome(q, task, a.inTime), maxConns)
  }

  /** What comes of an arrival, and whether its send was refused. */
  function Served(p: Pipe, task: nat, local: string, a: Arrival, maxConns: nat): (Pipe, bool) {
    var q := Asked(p, task, local, a, maxConns);
    if task !in q.sending then (q, false)
    else
      var w := Waited(q, task, a, maxConns);
      (w, w.driver.Closed?)
  }

  /** The accept loop: over the limit it takes the next visitor; a refused send ends it. */
  function AcceptLoop(p: Pipe, task: nat, local: string, arrivals: seq<Arrival>, maxConns: nat): Pipe
    decreases |arrivals|
  {
    if arrivals == [] then p
    else
      var (q, refused) := Served(p, task, local, arrivals[0], maxConns);
      if refused then q else AcceptLoop(q, task, local, arrivals[1..], maxConns)
  }

  /** The request of this arrival passes the limit check, and finds the receiver gone after its wait. */
  predicate Refuses(p: Pipe, task: nat, local: string, a: Arrival, maxConns: nat) {
    var q := Asked(p, task, local, a, maxConns);
    task in q.sending && RunPipe(q, a.waiting, maxConns).driver.Closed?
  }

  /** ... as arrival i of a loop. */
  predicate RefusedAt(p: Pipe, task: nat, local: string, arrivals: seq<Arrival>, i: nat, maxConns: nat) {
    i < |arrivals| && Refuses(AcceptLoop(p, task, local, arrivals[..i], maxConns), task, local, arrivals[i], maxConns)
  }

  /** Where a loop stops: at the first arrival whose send is refused, and nowhere if none is. */
  ghost predicate StopsAt(p: Pipe, task: nat, local: string, arrivals: seq<Arrival>, stopped: Option<nat>,
                          maxConns: nat)
  {
    match stopped
    case Some(i) =>
      RefusedAt(p, task, local, arrivals, i, maxConns)
      && forall j: nat | j < i :: !RefusedAt(p, task, local, arrivals, j, maxConns)
    case None => forall j: nat :: !RefusedAt(p, task, local, arrivals, j, maxConns)
  }

  /** The arrivals that it gets to. */
  function GotTo(arrivals: seq<Arrival>, stopped: Option<nat>): seq<Arrival> {
    if stopped.Some? && stopped.value < |arrivals| then arrivals[..stopped.value + 1] else arrivals
  }

  /** None of the first n sends was refused. */
  ghost predicate NoneRefused(p: Pipe, task: nat, local: string, arrivals: seq<Arrival>, n: nat, maxConns: nat) {
    forall j: nat | j < n :: !RefusedAt(p, task, local, arrivals, j, maxConns)
  }

  /** The state that a session's tasks share. */
  class VisitorPath {
    const maxConns: nat
    var driver: Driver
    var queue: seq<Request>
    var sending: map<nat, Request>
    var active: nat
    var phases: seq<nat>
    var ownSender: bool
    ghost var enqueued: seq<Request>
    ghost var streamed: seq<Request>
    ghost var failed: seq<Request>
    ghost var discarded: seq<Request>
    var fate: map<Request, Fate>
    ghost var peak: nat

    ghost function State(): Pipe
      reads this
    {
      Pipe(driver, queue, sending, active, phases, enqueued, streamed, failed, discarded, fate, peak, ownSender)
    }

    constructor (maxConns: nat)
      ensures State() == NEW && this.maxConns == maxConns
    {
      this.maxConns := maxConns;
      driver, queue, sending, active, phases, ownSender := Inserted, [], map[], 0, [], true;
      enqueued, streamed, failed, discarded, fate, peak := [], [], [], [], map[], 0;
    }

    /** The limit check of an accept loop: the counter is read once. */
    method AdmitVisitor(req: Request) returns (goesOn: bool)
      modifies this
      ensures State() == Step(old(State()), Admit(req), maxConns)
      ensures goesOn <==> req !in old(fate) && req.task !in old(sending) && (maxConns == 0 || active < maxConns)
      ensures goesOn ==> req.task in sending && sending[req.task] == req
    {
      if req in fate || req.task in sending {
        return false;
      }
      if maxConns != 0 && active >= maxConns {
        fate := fate[req := OverLimit];
        return false;
      }
      sending := sending[req.task := req];
      fate := fate[req := Sending];
      peak := Max(peak, Pending(State()));
      goesOn := true;
    }

    /** A send that finds room. */
    method Send(task: nat) returns (ok: bool)
      modifies this
      ensures State() == Step(old(State()), SendDone(task), maxConns)
      ensures ok <==> task in old(sending) && !driver.Closed? && |old(queue)| < CAPACITY
    {
      if task !in sending || driver.Closed? || |queue| >= CAPACITY {
        return false;
      }
      var req := sending[task];
      queue := queue + [req];
      sending := sending - {task};
      enqueued := enqueued + [req];
      fate := fate[req := Queued];
      ok := true;
    }

    method StopSend(task: nat, f: Fate)
      modifies this
      ensures State() == StopSending(old(State()), task, f)
    {
      if task in sending {
        fate := fate[sending[task] := f];
        sending := sending - {task};
      }
    }

    /** `recv`: the request at the head of the queue goes into the driver's hand. */
    method Recv() returns (req: Option<Request>)
      modifies this
      ensures State() == Step(old(State()), Dequeue, maxConns)
      ensures req == if old(driver).Running? && old(queue) != [] then Some(old(queue)[0]) else None
      ensures req.Some? ==> driver == InHand(req.value)
      ensures req.None? ==> State() == old(State())
    {
      if !driver.Running? || queue == [] {
        return None;
      }
      var head := queue[0];
      req := Some(head);
      driver := InHand(head);
      queue := queue[1..];
      fate := fate[head := Held];
    }

    /** Opening the stream: spawns the proxy task, or gives up and leaves the loop. */
    method OpenStream(req: Request, ok: bool)
      requires driver == InHand(req)
      modifies this
      ensures State() == OpenStep(old(State()), ok, maxConns)
    {
      if ok {
        phases := phases + [0];
        streamed := streamed + [req];
        fate := fate[req := Opened];
        driver := Running;
      } else {
        failed := failed + [req];
        fate := fate[req := OpenFailed];
        driver := Exited;
      }
    }

    /** The next atomic update of a proxy task, in the order of the source. */
    method AdvanceProxy(i: nat)
      modifies this
      ensures State() == Step(old(State()), ProxyStep(i), maxConns)
    {
      if i < |phases| && phases[i] < 5 {
        if phases[i] == 0 {
          active := (active + 1) % TWO_64;
        } else if phases[i] == 3 {
          active := (active + TWO_64 - 1) % TWO_64;
        }
        phases := phases[i := phases[i] + 1];
      }
    }

    /** The handler returns, and with it the receiver, the queue and its own sender go. */
    method DropReceiver()
      requires driver.CleanedUp?
      modifies this
      ensures State() == Drained(old(State()))
    {
      discarded, fate := discarded + queue, Discard(fate, queue);
      driver, queue, ownSender := Closed, [], false;
    }

    /** One step of another task. */
    method Other(e: PipeEvent)
      modifies this
      ensures State() == Step(old(State()), e, maxConns)
    {
      if e.Admit? {
        var _ := AdmitVisitor(e.req);
      } else if e.SendDone? {
        var _ := Send(e.task);
      } else if e.SendTimeout? {
        StopSend(e.task, TimedOut);
      } else if e.SendRefused? {
        if driver.Closed? {
          StopSend(e.task, ChannelClosed);
        }
      } else if e.SendDropped? {
        StopSend(e.task, SendAborted);
      } else if e.ProxyStep? {
        AdvanceProxy(e.i);
      } else {
        HandlerStep(e);
      }
    }

    /** The steps with which the handler may drop the receiver. */
    method ReplyOrReturn(e: PipeEvent)
      requires e.Returned? || e.StatusReplied?
      modifies this
      ensures State() == Step(old(State()), e, maxConns)
    {
      if e.Returned? {
        if driver.CleanedUp? {
          DropReceiver();
        }
      } else if driver.Inserted? {
        if e.ok {
          driver := Accepted;
        } else {
          driver := CleanedUp;
          DropReceiver();
        }
      }
    }

    /** A step of the handler's own task. */
    method HandlerStep(e: PipeEvent)
      requires e.StatusReplied? || e.ListenersStarted? || e.Dequeue? || e.StreamOpened? || e.StreamFailed?
               || e.ConnectionEnded? || e.ChannelEnded? || e.RanCleanup? || e.Returned?
      modifies this
      ensures State() == Step(old(State()), e, maxConns)
    {
      if e.Dequeue? {
        var _ := Recv();
      } else if e.StreamOpened? || e.StreamFailed? {
        if driver.InHand? {
          OpenStream(driver.req, e.StreamOpened?);
        }
      } else if e.Returned? || e.StatusReplied? {
        ReplyOrReturn(e);
      } else if e.ListenersStarted? {
        if driver.Accepted? {
          driver := Running;
        }
      } else if e.RanCleanup? {
        if driver.Exited? {
          driver := CleanedUp;
        }
      } else if driver.Running? && (e.ConnectionEnded? || (queue == [] && !e.others && !ownSender)) {
        driver := Exited;
      }
    }

    /** What other tasks do before a turn. */
    method Others(events: seq<PipeEvent>)
      modifies this
      ensures State() == RunPipe(old(State()), events, maxConns)
    {
      var k := 0;
      while k < |events|
        invariant 0 <= k <= |events|
        invariant State() == RunPipe(old(State()), events[..k], maxConns)
      {
        assert events[..k + 1][..k] == events[..k];
        Other(events[k]);
        k := k + 1;
      }
      assert events[..k] == events;
    }

    /** The end of an accept loop's wait. */
    method EndWait(task: nat, inTime: bool) returns (refused: bool)
      modifies this
      ensures State() == Step(old(State()), Outcome(old(State()), task, inTime), maxConns)
      ensures refused <==> driver.Closed?
      ensures task !in sending
    {
      if driver.Closed? {
        StopSend(task, ChannelClosed);
        return true;
      }
      if inTime && |queue| < CAPACITY {
        var _ := Send(task);
      } else {
        StopSend(task, TimedOut);
      }
      refused := false;
    }

    /** One visitor of an accept loop: check the limit, hand the request over or give up after 200 ms. */
    method ServeVisitor(task: nat, local: string, a: Arrival) returns (refused: bool)
      requires task !in sending
      requires forall k | 0 <= k < |a.before| :: NotOfLoop(a.before[k], task)
      modifies this
      ensures (State(), refused) == Served(old(State()), task, local, a, maxConns)
      ensures task !in sending
    {
      OthersKeepIdle(State(), a.before, task, maxConns);
      Others(a.before);
      var goesOn := AdmitVisitor(Request(a.visitor, task, local));
      if !goesOn {
        return false;
      }
      Others(a.waiting);
      refused := EndWait(task, a.inTime);
    }

    /** public_accept_loop: serve one visitor after the other, until accepting fails or the session's
        receiver is gone: it stops at the first send that is refused, if there is one, and otherwise
        goes on to the last visitor. */
    method PublicAcceptLoop(task: nat, local: string, arrivals: seq<Arrival>) returns (stopped: Option<nat>)
      requires task !in sending
      requires forall i | 0 <= i < |arrivals| :: forall k | 0 <= k < |arrivals[i].before| ::
                 NotOfLoop(arrivals[i].before[k], task)
      modifies this
      ensures State() == AcceptLoop(old(State()), task, local, arrivals, maxConns)
      ensures StopsAt(old(State()), task, local, arrivals, stopped, maxConns)
      ensures State() == AcceptLoop(old(State()), task, local, GotTo(arrivals, stopped), maxConns)
    {
      ghost var p := State();
      var i: nat := 0;
      while i < |arrivals|
        invariant i <= |arrivals| && task !in sending
        invariant State() == AcceptLoop(p, task, local, arrivals[..i], maxConns)
        invariant NoneRefused(p, task, local, arrivals, i, maxConns)
      {
        ghost var q := State();
        var refused := ServeVisitor(task, local, arrivals[i]);
        OneMoreArrival(p, task, local, arrivals, i, maxConns);
        if refused {
          return Some(i);
        }
        i := i + 1;
      }
      assert arrivals[..i] == arrivals;
      stopped := None;
    }

    /** A request is taken from the queue and a stream opened for it, while others go on. */
    method ServeRequest(during: seq<PipeEvent>, openOk: bool)
      requires driver.Running? && ByOthers(during)
      modifies this
      ensures State() == TurnStep(old(State()), Requested(during, openOk), maxConns)
      ensures driver.Running? || driver.Exited?
    {
      ghost var p := State();
      var req := Recv();
      ghost var q := State();
      OthersKeepDriver(q, during, maxConns);
      Others(during);
      if req.Some? {
        OpenStream(req.value, openOk);
      } else {
        IdleOpen(State(), openOk, maxConns);
      }
    }

    /** Past the loop: the handler has cleaned up, and returns. */
    method Leave()
      requires driver.Running? || driver.Exited?
      modifies this
      ensures State() == Step(Step(old(State()), RanCleanup, maxConns), Returned, maxConns)
      ensures driver.Running? || driver.Closed?
      ensures driver.Closed? <==> old(driver).Exited?
    {
      if driver.Exited? {
        driver := CleanedUp;
        DropReceiver();
      }
    }

    /** What the driver does with what its select found. */
    method TakeTurn(poll: Poll)
      requires driver.Running? && PollByOthers(poll)
      modifies this
      ensures State() == TurnStep(old(State()), poll, maxConns)
      ensures driver.Running? || driver.Exited?
    {
      match poll {
        case UnexpectedStream =>
        case YamuxError =>
          driver := Exited;
        case ConnectionClosed =>
          driver := Exited;
        case Requested(during, openOk) =>
          ServeRequest(during, openOk);
      }
    }

    /** The driver's loop: poll for the end of the connection first, then for a request; open a stream
        for each. */
    method Drive(turns: seq<Turn>)
      requires driver.Running? && OthersOnly(turns)
      modifies this
      ensures State() == DriverLoop(old(State()), turns, maxConns)
      ensures driver.Running? || driver.Exited?
    {
      var i := 0;
      while i < |turns|
        invariant 0 <= i <= |turns| && (driver.Running? || driver.Exited?)
        invariant DriverLoop(State(), turns[i..], maxConns) == DriverLoop(old(State()), turns, maxConns)
      {
        if !driver.Running? {
          return;
        }
        assert turns[i..][0] == turns[i] && turns[i..][1..] == turns[i + 1..];
        OthersKeepDriver(State(), turns[i].before, maxConns);
        Others(turns[i].before);
        TakeTurn(turns[i].poll);
        i := i + 1;
      }
    }

    /** drive_server: the loop; once it is left, the session's own entry is removed from the session map,
        and the handler returns. */
    method DriveServer(turns: seq<Turn>, server: TunnelServer, s: nat)
      requires driver.Running? && OthersOnly(turns)
      requires server.Valid() && s < |server.all|
      modifies this, server
      ensures State() == DriverRun(old(State()), turns, maxConns)
      ensures server.Valid()
      ensures server.State() == if driver.Closed? then Cleanup(old(server.State()), s) else old(server.State())
      ensures driver.Closed? <==> exists i: nat :: LeavesAt(old(State()), turns, i, maxConns)
      ensures driver.Closed? ==> !Registered(server.State(), s)
    {
      ghost var before := server.State();
      DriverEndsExactly(State(), turns, maxConns);
      CleanupRemoves(before, s);
      Drive(turns);
      assert server.State() == before;
      if driver.Exited? {
        server.CleanupSession(s);
      }
      Leave();
    }
  }

  lemma IdleOpen(p: Pipe, ok: bool, maxConns: nat)
    requires !p.driver.InHand?
    ensures OpenStep(p, ok, maxConns) == p
  {
  }

  lemma OtherKeepsIdle(p: Pipe, e: PipeEvent, task: nat, maxConns: nat)
    requires NotOfLoop(e, task) && task !in p.sending
    ensures task !in Step(p, e, maxConns).sending
  {
  }

  /** The other tasks do not send for this loop. */
  lemma {:induction false} OthersKeepIdle(p: Pipe, events: seq<PipeEvent>, task: nat, maxConns: nat)
    requires task !in p.sending && forall i | 0 <= i < |events| :: NotOfLoop(events[i], task)
    ensures task !in RunPipe(p, events, maxConns).sending
  {
    if events == [] {
    } else {
      var n := |events| - 1;
      OthersKeepIdle(p, events[..n], task, maxConns);
      OtherKeepsIdle(RunPipe(p, events[..n], maxConns), events[n], task, maxConns);
    }
  }

  lemma OtherKeepsDriver(p: Pipe, e: PipeEvent, maxConns: nat)
    requires OfOthers(e)
    ensures Step(p, e, maxConns).driver == p.driver
  {
  }

  /** The other tasks leave the driver where it is. */
  lemma {:induction false} OthersKeepDriver(p: Pipe, events: seq<PipeEvent>, maxConns: nat)
    requires ByOthers(events)
    ensures RunPipe(p, events, maxConns).driver == p.driver
  {
    if events == [] {
    } else {
      var n := |events| - 1;
      OthersKeepDriver(p, events[..n], maxConns);
      OtherKeepsDriver(RunPipe(p, events[..n], maxConns), events[n], maxConns);
    }
  }

  // ----- the loops keep a session's invariant -----

  lemma {:induction false} RunPipeInv(p: Pipe, events: seq<PipeEvent>, maxConns: nat)
    requires PipeInv(p, maxConns)
    ensures PipeInv(RunPipe(p, events, maxConns), maxConns)
  {
    if events == [] {
    } else {
      RunPipeInv(p, events[..|events| - 1], maxConns);
      StepPipeInv(RunPipe(p, events[..|events| - 1], maxConns), events[|events| - 1], maxConns);
    }
  }

  lemma RequestInv(p: Pipe, during: seq<PipeEvent>, ok: bool, maxConns: nat)
    requires PipeInv(p, maxConns)
    ensures PipeInv(TurnStep(p, Requested(during, ok), maxConns), maxConns)
  {
    var q := Step(p, Dequeue, maxConns);
    StepPipeInv(p, Dequeue, maxConns);
    RunPipeInv(q, during, maxConns);
    StepPipeInv(RunPipe(q, during, maxConns), if ok then StreamOpened else StreamFailed, maxConns);
  }

  lemma TurnInv(p: Pipe, poll: Poll, maxConns: nat)
    requires PipeInv(p, maxConns)
    ensures PipeInv(TurnStep(p, poll, maxConns), maxConns)
  {
    if poll.Requested? {
      RequestInv(p, poll.during, poll.openOk, maxConns);
    } else if !poll.UnexpectedStream? {
      StepPipeInv(p, ConnectionEnded, maxConns);
    }
  }

  lemma TurnDriver(p: Pipe, poll: Poll, maxConns: nat)
    requires p.driver.Running? && PollByOthers(poll)
    ensures TurnStep(p, poll, maxConns).driver.Running? || TurnStep(p, poll, maxConns).driver.Exited?
  {
    if poll.Requested? {
      var q := Step(p, Dequeue, maxConns);
      TakenDriver(p, maxConns);
      OthersKeepDriver(q, poll.during, maxConns);
      OpenedDriver(RunPipe(q, poll.during, maxConns), poll.openOk, maxConns);
    }
  }

  lemma TakenDriver(p: Pipe, maxConns: nat)
    requires p.driver.Running?
    ensures Step(p, Dequeue, maxConns).driver.Running? || Step(p, Dequeue, maxConns).driver.InHand?
  {
  }

  lemma OpenedDriver(p: Pipe, ok: bool, maxConns: nat)
    requires p.driver.Running? || p.driver.InHand?
    ensures OpenStep(p, ok, maxConns).driver.Running? || OpenStep(p, ok, maxConns).driver.Exited?
  {
  }

  lemma {:induction false} DriverLoopInv(p: Pipe, turns: seq<Turn>, maxConns: nat)
    requires PipeInv(p, maxConns) && (p.driver.Running? || p.driver.Exited?)
    requires OthersOnly(turns)
    ensures var q := DriverLoop(p, turns, maxConns);
            PipeInv(q, maxConns) && (q.driver.Running? || q.driver.Exited?)
    decreases |turns|
  {
    if turns != [] && p.driver.Running? {
      RunPipeInv(p, turns[0].before, maxConns);
      OthersKeepDriver(p, turns[0].before, maxConns);
      var q := RunPipe(p, turns[0].before, maxConns);
      TurnInv(q, turns[0].poll, maxConns);
      TurnDriver(q, turns[0].poll, maxConns);
      DriverLoopInv(TurnStep(q, turns[0].poll, maxConns), turns[1..], maxConns);
    }
  }

  lemma ExitDriver(p: Pipe, maxConns: nat)
    requires p.driver.Running? || p.driver.Exited?
    ensures Step(Step(p, RanCleanup, maxConns), Returned, maxConns).driver
            == if p.driver.Exited? then Closed else p.driver
  {
  }

  /** Leaving the loop, cleaning up and returning. */
  lemma ExitInv(p: Pipe, maxConns: nat)
    requires PipeInv(p, maxConns) && (p.driver.Running? || p.driver.Exited?)
    ensures var q := Step(Step(p, RanCleanup, maxConns), Returned, maxConns);
            PipeInv(q, maxConns) && q.driver == (if p.driver.Exited? then Closed else p.driver)
  {
    ExitDriver(p, maxConns);
    StepPipeInv(p, RanCleanup, maxConns);
    StepPipeInv(Step(p, RanCleanup, maxConns), Returned, maxConns);
  }

  lemma NothingLeft(q: Pipe, maxConns: nat)
    requires PipeInv(q, maxConns)
    ensures q.driver.Closed? ==> q.enqueued == q.streamed + q.failed + q.discarded
  {
  }

  /** The driver keeps the session's invariant, and once it leaves its loop it returns: its channel is
      closed and empty, and every request it was handed has been opened, failed or discarded. */
  lemma DriverRunInv(p: Pipe, turns: seq<Turn>, maxConns: nat)
    requires PipeInv(p, maxConns) && p.driver.Running?
    requires OthersOnly(turns)
    ensures var q := DriverRun(p, turns, maxConns);
            && PipeInv(q, maxConns)
            && (q.driver.Running? || (q.driver.Closed? && q.enqueued == q.streamed + q.failed + q.discarded))
  {
    DriverLoopInv(p, turns, maxConns);
    ExitInv(DriverLoop(p, turns, maxConns), maxConns);
    NothingLeft(DriverRun(p, turns, maxConns), maxConns);
  }

  lemma ServedInv(p: Pipe, task: nat, local: string, a: Arrival, maxConns: nat)
    requires PipeInv(p, maxConns)
    ensures PipeInv(Served(p, task, local, a, maxConns).0, maxConns)
  {
    var q := Asked(p, task, local, a, maxConns);
    RunPipeInv(p, a.before, maxConns);
    StepPipeInv(RunPipe(p, a.before, maxConns), Admit(Request(a.visitor, task, local)), maxConns);
    if task in q.sending {
      var w := RunPipe(q, a.waiting, maxConns);
      RunPipeInv(q, a.waiting, maxConns);
      StepPipeInv(w, Outcome(w, task, a.inTime), maxConns);
    }
  }

  /** An accept loop keeps the session's invariant. */
  lemma {:induction false} AcceptLoopInv(p: Pipe, task: nat, local: string, arrivals: seq<Arrival>, maxConns: nat)
    requires PipeInv(p, maxConns)
    ensures PipeInv(AcceptLoop(p, task, local, arrivals, maxConns), maxConns)
    decreases |arrivals|
  {
    if arrivals == [] {
    } else {
      ServedInv(p, task, local, arrivals[0], maxConns);
      AcceptLoopInv(Served(p, task, local, arrivals[0], maxConns).0, task, local, arrivals[1..], maxConns);
    }
  }

  /** Nobody is forgotten, and a closed channel stays closed. */
  lemma StepGrows(p: Pipe, e: PipeEvent, maxConns: nat)
    ensures p.fate.Keys <= Step(p, e, maxConns).fate.Keys
    ensures p.driver.Closed? ==> Step(p, e, maxConns).driver.Closed?
  {
  }

  lemma {:induction false} RunPipeGrows(p: Pipe, events: seq<PipeEvent>, maxConns: nat)
    ensures p.fate.Keys <= RunPipe(p, events, maxConns).fate.Keys
    ensures p.driver.Closed? ==> RunPipe(p, events, maxConns).driver.Closed?
  {
    if events == [] {
    } else {
      var n := |events| - 1;
      RunPipeGrows(p, events[..n], maxConns);
      StepGrows(RunPipe(p, events[..n], maxConns), events[n], maxConns);
    }
  }

  lemma AskedFate(p: Pipe, task: nat, local: string, a: Arrival, maxConns: nat)
    requires task !in p.sending && forall k | 0 <= k < |a.before| :: NotOfLoop(a.before[k], task)
    ensures Request(a.visitor, task, local) in Asked(p, task, local, a, maxConns).fate
    ensures p.fate.Keys <= Asked(p, task, local, a, maxConns).fate.Keys
  {
    OthersKeepIdle(p, a.before, task, maxConns);
    RunPipeGrows(p, a.before, maxConns);
    StepGrows(RunPipe(p, a.before, maxConns), Admit(Request(a.visitor, task, local)), maxConns);
  }

  lemma OutcomeStops(p: Pipe, task: nat, inTime: bool, maxConns: nat)
    ensures task !in Step(p, Outcome(p, task, inTime), maxConns).sending
  {
  }

  lemma ServedFate(p: Pipe, task: nat, local: string, a: Arrival, maxConns: nat)
    requires task !in p.sending && forall k | 0 <= k < |a.before| :: NotOfLoop(a.before[k], task)
    ensures var (q, refused) := Served(p, task, local, a, maxConns);
            Request(a.visitor, task, local) in q.fate && p.fate.Keys <= q.fate.Keys
            && task !in q.sending && (refused ==> q.driver.Closed?)
  {
    var q := Asked(p, task, local, a, maxConns);
    AskedFate(p, task, local, a, maxConns);
    if task in q.sending {
      var w := RunPipe(q, a.waiting, maxConns);
      RunPipeGrows(q, a.waiting, maxConns);
      StepGrows(w, Outcome(w, task, a.inTime), maxConns);
      OutcomeStops(w, task, a.inTime, maxConns);
    }
  }

  /** As long as the session's receiver exists, an accept loop goes on to every visitor that comes: each
      is admitted or turned away, whatever became of those before it. */
  lemma {:induction false} AcceptLoopServesAll(p: Pipe, task: nat, local: string, arrivals: seq<Arrival>, maxConns: nat)
    requires task !in p.sending
    requires forall i | 0 <= i < |arrivals| :: forall k | 0 <= k < |arrivals[i].before| ::
               NotOfLoop(arrivals[i].before[k], task)
    ensures var q := AcceptLoop(p, task, local, arrivals, maxConns);
            && p.fate.Keys <= q.fate.Keys
            && (!q.driver.Closed? ==>
                  forall i | 0 <= i < |arrivals| :: Request(arrivals[i].visitor, task, local) in q.fate)
    decreases |arrivals|
  {
    if arrivals == [] {
    } else {
      var (q, refused) := Served(p, task, local, arrivals[0], maxConns);
      ServedFate(p, task, local, arrivals[0], maxConns);
      if !refused {
        AcceptLoopServesAll(q, task, local, arrivals[1..], maxConns);
        var r := AcceptLoop(q, task, local, arrivals[1..], maxConns);
        assert Request(arrivals[0].visitor, task, local) in r.fate.Keys;
        assert forall i | 0 < i < |arrivals| :: arrivals[i] == arrivals[1..][i - 1];
      }
    }
  }

  // ----- what ends the driver's loop, and what does not -----

  lemma CleanupRemoves(r: Reg, s: nat)
    requires s < |r.all|
    ensures !Registered(Cleanup(r, s), s)
  {
  }

  /** A turn is the last exactly if what it finds is fatal. */
  lemma TurnEnds(q: Pipe, poll: Poll, maxConns: nat)
    requires q.driver.Running? && PollByOthers(poll)
    ensures TurnStep(q, poll, maxConns).driver.Exited? <==> Fatal(q, poll)
    ensures TurnStep(q, poll, maxConns).driver.Running? <==> !Fatal(q, poll)
  {
    if poll.Requested? {
      RequestEnds(q, poll.during, poll.openOk, maxConns);
    }
  }

  lemma RequestEnds(q: Pipe, during: seq<PipeEvent>, openOk: bool, maxConns: nat)
    requires q.driver.Running? && ByOthers(during)
    ensures TurnStep(q, Requested(during, openOk), maxConns).driver.Exited? <==> !openOk && q.queue != []
    ensures TurnStep(q, Requested(during, openOk), maxConns).driver.Running? <==> openOk || q.queue == []
  {
    var taken := Step(q, Dequeue, maxConns);
    OthersKeepDriver(taken, during, maxConns);
    OpensFor(RunPipe(taken, during, maxConns), openOk, maxConns);
  }

  lemma OpensFor(p: Pipe, ok: bool, maxConns: nat)
    ensures p.driver.InHand? ==> OpenStep(p, ok, maxConns).driver == if ok then Running else Exited
    ensures p.driver.Running? ==> OpenStep(p, ok, maxConns).driver.Running?
  {
  }

  /** One more turn. */
  lemma {:induction false} DriverLoopMore(p: Pipe, turns: seq<Turn>, t: Turn, maxConns: nat)
    ensures var q := DriverLoop(p, turns, maxConns);
            DriverLoop(p, turns + [t], maxConns)
            == if q.driver.Running? then TurnStep(RunPipe(q, t.before, maxConns), t.poll, maxConns) else q
    decreases |turns|
  {
    if turns == [] {
      assert [t][1..] == [];
    } else if p.driver.Running? {
      var q := TurnStep(RunPipe(p, turns[0].before, maxConns), turns[0].poll, maxConns);
      DriverLoopMore(q, turns[1..], t, maxConns);
      assert (turns + [t])[0] == turns[0] && (turns + [t])[1..] == turns[1..] + [t];
    }
  }

  lemma DriverLoopNext(p: Pipe, turns: seq<Turn>, i: nat, maxConns: nat)
    requires i < |turns|
    ensures DriverLoop(p, turns[..i + 1], maxConns)
            == if DriverLoop(p, turns[..i], maxConns).driver.Running?
               then TurnStep(Polled(p, turns, i, maxConns), turns[i].poll, maxConns)
               else DriverLoop(p, turns[..i], maxConns)
  {
    assert turns[..i + 1] == turns[..i] + [turns[i]];
    DriverLoopMore(p, turns[..i], turns[i], maxConns);
  }

  lemma PolledRunning(p: Pipe, turns: seq<Turn>, i: nat, maxConns: nat)
    requires i < |turns| && OthersOnly(turns) && DriverLoop(p, turns[..i], maxConns).driver.Running?
    ensures Polled(p, turns, i, maxConns).driver.Running? && PollByOthers(turns[i].poll)
  {
    OthersKeepDriver(DriverLoop(p, turns[..i], maxConns), turns[i].before, maxConns);
  }

  /** One of the first n turns was the last. */
  ghost predicate LeftBy(p: Pipe, turns: seq<Turn>, n: nat, maxConns: nat) {
    exists i: nat :: i < n && LeavesAt(p, turns, i, maxConns)
  }

  lemma LeftByNext(p: Pipe, turns: seq<Turn>, n: nat, maxConns: nat)
    ensures LeftBy(p, turns, n + 1, maxConns) <==> LeftBy(p, turns, n, maxConns) || LeavesAt(p, turns, n, maxConns)
  {
    if i: nat :| i < n && LeavesAt(p, turns, i, maxConns) {
      assert i < n + 1;
    }
  }

  /** The driver after one more turn. */
  lemma NextTurn(p: Pipe, turns: seq<Turn>, n: nat, maxConns: nat)
    requires n < |turns| && OthersOnly(turns)
    ensures var d, d' := DriverLoop(p, turns[..n], maxConns).driver, DriverLoop(p, turns[..n + 1], maxConns).driver;
            && (d.Running? ==> d'.Running? || d'.Exited?)
            && (d.Running? ==> (d'.Exited? <==> LeavesAt(p, turns, n, maxConns)))
            && (d.Exited? ==> d'.Exited? && !LeavesAt(p, turns, n, maxConns))
  {
    DriverLoopNext(p, turns, n, maxConns);
    if DriverLoop(p, turns[..n], maxConns).driver.Running? {
      PolledRunning(p, turns, n, maxConns);
      TurnEnds(Polled(p, turns, n, maxConns), turns[n].poll, maxConns);
    }
  }

  lemma {:induction false} LeftExactly(p: Pipe, turns: seq<Turn>, n: nat, maxConns: nat)
    requires n <= |turns| && p.driver.Running? && OthersOnly(turns)
    ensures var d := DriverLoop(p, turns[..n], maxConns).driver;
            (d.Running? || d.Exited?) && (d.Exited? <==> LeftBy(p, turns, n, maxConns))
  {
    if n == 0 {
      assert turns[..0] == [];
    } else {
      LeftExactly(p, turns, n - 1, maxConns);
      NextTurn(p, turns, n - 1, maxConns);
      LeftByNext(p, turns, n - 1, maxConns);
    }
  }

  /** The driver returns, with its channel closed, if and only if some turn that it gets to finds the
      connection ended or cannot open a stream for a request; otherwise it is still running. */
  lemma DriverEndsExactly(p: Pipe, turns: seq<Turn>, maxConns: nat)
    requires p.driver.Running? && OthersOnly(turns)
    ensures DriverRun(p, turns, maxConns).driver.Closed? <==> exists i: nat :: LeavesAt(p, turns, i, maxConns)
    ensures DriverRun(p, turns, maxConns).driver.Closed? || DriverRun(p, turns, maxConns).driver.Running?
  {
    LeftExactly(p, turns, |turns|, maxConns);
    assert turns[..|turns|] == turns;
    ExitDriver(DriverLoop(p, turns, maxConns), maxConns);
    if i: nat :| LeavesAt(p, turns, i, maxConns) {
      assert i < |turns|;
    }
  }

  /** Whatever came before it: the end of the connection ends the driver. */
  lemma EndedConnectionEnds(p: Pipe, turns: seq<Turn>, i: nat, maxConns: nat)
    requires p.driver.Running? && OthersOnly(turns) && i < |turns|
    requires turns[i].poll.ConnectionClosed? || turns[i].poll.YamuxError?
    ensures DriverRun(p, turns, maxConns).driver.Closed?
  {
    DriverEndsExactly(p, turns, maxConns);
    LeftExactly(p, turns, i, maxConns);
    if DriverLoop(p, turns[..i], maxConns).driver.Running? {
      assert LeavesAt(p, turns, i, maxConns);
    }
  }

  /** Nothing but that: without an end of the connection or a failure to open, the driver goes on. */
  lemma HarmlessTurnsGoOn(p: Pipe, turns: seq<Turn>, maxConns: nat)
    requires p.driver.Running? && OthersOnly(turns)
    requires forall i | 0 <= i < |turns| ::
               turns[i].poll.UnexpectedStream? || (turns[i].poll.Requested? && turns[i].poll.openOk)
    ensures DriverRun(p, turns, maxConns).driver.Running?
  {
    DriverEndsExactly(p, turns, maxConns);
  }

  lemma OtherKeepsStreams(p: Pipe, e: PipeEvent, maxConns: nat)
    requires OfOthers(e)
    ensures Step(p, e, maxConns).streamed == p.streamed && Step(p, e, maxConns).failed == p.failed
  {
  }

  /** The other tasks open no streams. */
  lemma {:induction false} OthersKeepStreams(p: Pipe, events: seq<PipeEvent>, maxConns: nat)
    requires ByOthers(events)
    ensures RunPipe(p, events, maxConns).streamed == p.streamed && RunPipe(p, events, maxConns).failed == p.failed
  {
    if events == [] {
    } else {
      var n := |events| - 1;
      OthersKeepStreams(p, events[..n], maxConns);
      OtherKeepsStreams(RunPipe(p, events[..n], maxConns), events[n], maxConns);
    }
  }

  /** The request that a turn takes, if there is one. */
  function TakenBy(q: Pipe, poll: Poll): seq<Request> {
    if poll.Requested? && q.queue != [] then [q.queue[0]] else []
  }

  lemma TakesHead(q: Pipe, maxConns: nat)
    requires q.driver.Running?
    ensures var d := Step(q, Dequeue, maxConns);
            d.streamed == q.streamed && d.failed == q.failed
            && d.driver == if q.queue == [] then Running else InHand(q.queue[0])
  {
  }

  lemma OpensHeld(d: Pipe, openOk: bool, maxConns: nat)
    ensures d.driver.InHand? ==>
              var r := OpenStep(d, openOk, maxConns);
              r.streamed == d.streamed + (if openOk then [d.driver.req] else [])
              && r.failed == d.failed + (if openOk then [] else [d.driver.req])
    ensures d.driver.Running? ==> OpenStep(d, openOk, maxConns) == d
  {
  }

  lemma RequestOpens(q: Pipe, during: seq<PipeEvent>, openOk: bool, maxConns: nat)
    requires q.driver.Running? && ByOthers(during)
    ensures var taken, r := TakenBy(q, Requested(during, openOk)), TurnStep(q, Requested(during, openOk), maxConns);
            && r.streamed == q.streamed + (if openOk then taken else [])
            && r.failed == q.failed + (if openOk then [] else taken)
  {
    var d := Step(q, Dequeue, maxConns);
    TakesHead(q, maxConns);
    OthersKeepDriver(d, during, maxConns);
    OthersKeepStreams(d, during, maxConns);
    OpensHeld(RunPipe(d, during, maxConns), openOk, maxConns);
  }

  lemma TurnOpens(q: Pipe, poll: Poll, maxConns: nat)
    requires q.driver.Running? && PollByOthers(poll)
    ensures var r, taken := TurnStep(q, poll, maxConns), TakenBy(q, poll);
            && r.streamed == q.streamed + (if poll.Requested? && poll.openOk then taken else [])
            && r.failed == q.failed + (if poll.Requested? && !poll.openOk then taken else [])
  {
    if poll.Requested? {
      RequestOpens(q, poll.during, poll.openOk, maxConns);
    }
  }

  /** Each turn takes the request at the head of the queue, if it is asked to and there is one, and
      opens a stream for exactly that one, or records that it could not. */
  lemma TurnOpensExactly(p: Pipe, turns: seq<Turn>, i: nat, maxConns: nat)
    requires i < |turns| && OthersOnly(turns) && DriverLoop(p, turns[..i], maxConns).driver.Running?
    ensures var before, after := DriverLoop(p, turns[..i], maxConns), DriverLoop(p, turns[..i + 1], maxConns);
            var poll, taken := turns[i].poll, TakenBy(Polled(p, turns, i, maxConns), turns[i].poll);
            && after.streamed == before.streamed + (if poll.Requested? && poll.openOk then taken else [])
            && after.failed == before.failed + (if poll.Requested? && !poll.openOk then taken else [])
  {
    DriverLoopNext(p, turns, i, maxConns);
    PolledRunning(p, turns, i, maxConns);
    OthersKeepStreams(DriverLoop(p, turns[..i], maxConns), turns[i].before, maxConns);
    TurnOpens(Polled(p, turns, i, maxConns), turns[i].poll, maxConns);
  }

  // ----- what ends an accept loop -----

  lemma OutcomeKeepsDriver(p: Pipe, task: nat, inTime: bool, maxConns: nat)
    ensures Step(p, Outcome(p, task, inTime), maxConns).driver == p.driver
  {
  }

  lemma ServedRefuses(p: Pipe, task: nat, local: string, a: Arrival, maxConns: nat)
    ensures Served(p, task, local, a, maxConns).1 <==> Refuses(p, task, local, a, maxConns)
  {
    var q := Asked(p, task, local, a, maxConns);
    OutcomeKeepsDriver(RunPipe(q, a.waiting, maxConns), task, a.inTime, maxConns);
  }

  /** One more visitor, if none before was refused. */
  lemma {:induction false} AcceptMore(p: Pipe, task: nat, local: string, arrivals: seq<Arrival>, a: Arrival,
                                      maxConns: nat)
    requires forall j: nat | j < |arrivals| :: !RefusedAt(p, task, local, arrivals, j, maxConns)
    ensures AcceptLoop(p, task, local, arrivals + [a], maxConns)
            == Served(AcceptLoop(p, task, local, arrivals, maxConns), task, local, a, maxConns).0
    decreases |arrivals|
  {
    if arrivals == [] {
      assert [a][1..] == [];
    } else {
      var q := Served(p, task, local, arrivals[0], maxConns).0;
      FirstServed(p, task, local, arrivals, maxConns);
      forall j: nat | j < |arrivals[1..]|
        ensures !RefusedAt(q, task, local, arrivals[1..], j, maxConns)
      {
        RefusedLater(p, task, local, arrivals, j + 1, maxConns);
      }
      AcceptMore(q, task, local, arrivals[1..], a, maxConns);
      assert (arrivals + [a])[0] == arrivals[0] && (arrivals + [a])[1..] == arrivals[1..] + [a];
    }
  }

  lemma FirstServed(p: Pipe, task: nat, local: string, arrivals: seq<Arrival>, maxConns: nat)
    requires arrivals != []
    ensures RefusedAt(p, task, local, arrivals, 0, maxConns) <==> Served(p, task, local, arrivals[0], maxConns).1
  {
    assert arrivals[..0] == [];
    ServedRefuses(p, task, local, arrivals[0], maxConns);
  }

  /** A later arrival's refusal, seen from after the first one. */
  lemma RefusedLater(p: Pipe, task: nat, local: string, arrivals: seq<Arrival>, i: nat, maxConns: nat)
    requires 0 < i < |arrivals| && !Served(p, task, local, arrivals[0], maxConns).1
    ensures var q := Served(p, task, local, arrivals[0], maxConns).0;
            RefusedAt(p, task, local, arrivals, i, maxConns)
            <==> RefusedAt(q, task, local, arrivals[1..], i - 1, maxConns)
  {
    assert arrivals[..i][0] == arrivals[0] && arrivals[..i][1..] == arrivals[1..][..i - 1];
  }

  lemma AcceptNext(p: Pipe, task: nat, local: string, arrivals: seq<Arrival>, i: nat, maxConns: nat)
    requires i < |arrivals| && forall j: nat | j < i :: !RefusedAt(p, task, local, arrivals, j, maxConns)
    ensures AcceptLoop(p, task, local, arrivals[..i + 1], maxConns)
            == Served(AcceptLoop(p, task, local, arrivals[..i], maxConns), task, local, arrivals[i], maxConns).0
  {
    forall j: nat | j < i
      ensures !RefusedAt(p, task, local, arrivals[..i], j, maxConns)
    {
      assert arrivals[..i][..j] == arrivals[..j];
      assert !RefusedAt(p, task, local, arrivals, j, maxConns);
    }
    assert arrivals[..i + 1] == arrivals[..i] + [arrivals[i]];
    AcceptMore(p, task, local, arrivals[..i], arrivals[i], maxConns);
  }

  /** What the loop knows after it has served arrival i. */
  lemma OneMoreArrival(p: Pipe, task: nat, local: string, arrivals: seq<Arrival>, i: nat, maxConns: nat)
    requires i < |arrivals| && NoneRefused(p, task, local, arrivals, i, maxConns)
    ensures var before := AcceptLoop(p, task, local, arrivals[..i], maxConns);
            var served := Served(before, task, local, arrivals[i], maxConns);
            var q, refused := served.0, served.1;
            && AcceptLoop(p, task, local, arrivals[..i + 1], maxConns) == q
            && (refused ==> AcceptLoop(p, task, local, arrivals, maxConns) == q
                            && StopsAt(p, task, local, arrivals, Some(i), maxConns))
            && (!refused ==> NoneRefused(p, task, local, arrivals, i + 1, maxConns))
  {
    ServedRefuses(AcceptLoop(p, task, local, arrivals[..i], maxConns), task, local, arrivals[i], maxConns);
    AcceptNext(p, task, local, arrivals, i, maxConns);
    if RefusedAt(p, task, local, arrivals, i, maxConns) {
      StopsThere(p, task, local, arrivals, i, maxConns);
    }
  }

  /** A refused send ends the loop: no later visitor makes any difference. */
  lemma {:induction false} StopsThere(p: Pipe, task: nat, local: string, arrivals: seq<Arrival>, i: nat, maxConns: nat)
    requires RefusedAt(p, task, local, arrivals, i, maxConns)
    ensures AcceptLoop(p, task, local, arrivals, maxConns) == AcceptLoop(p, task, local, arrivals[..i + 1], maxConns)
    decreases |arrivals|
  {
    FirstServed(p, task, local, arrivals, maxConns);
    assert arrivals[..i + 1][0] == arrivals[0];
    if !Served(p, task, local, arrivals[0], maxConns).1 {
      assert arrivals[..i + 1][1..] == arrivals[1..][..i];
      RefusedLater(p, task, local, arrivals, i, maxConns);
      StopsThere(Served(p, task, local, arrivals[0], maxConns).0, task, local, arrivals[1..], i - 1, maxConns);
    }
  }

  // ----- what becomes of a visitor -----

  /** The limit check, by its effect: a fresh visitor goes on to send exactly if there is no limit or the
      counter is below it, and is otherwise dropped at once. */
  lemma AskedExactly(p: Pipe, req: Request, maxConns: nat)
    requires req !in p.fate && req.task !in p.sending
    ensures var q := Step(p, Admit(req), maxConns);
            && q.queue == p.queue && q.driver == p.driver && q.active == p.active
            && (if maxConns == 0 || p.active < maxConns
                then q.sending == p.sending[req.task := req] && q.fate == p.fate[req := Sending]
                else q.sending == p.sending && q.fate == p.fate[req := OverLimit])
  {
  }

  /** The end of a wait, by its effect: refused if the receiver is gone, queued behind the others if there
      is room in time, and given up otherwise. */
  lemma WaitEnds(p: Pipe, task: nat, inTime: bool, maxConns: nat)
    requires task in p.sending
    ensures var q, req := Step(p, Outcome(p, task, inTime), maxConns), p.sending[task];
            && q.sending == p.sending - {task} && q.driver == p.driver
            && (if p.driver.Closed? then q.queue == p.queue && q.fate == p.fate[req := ChannelClosed]
                else if inTime && |p.queue| < 256 then q.queue == p.queue + [req] && q.fate == p.fate[req := Queued]
                else q.queue == p.queue && q.fate == p.fate[req := TimedOut])
  {
  }

  /** The requests that these steps admit. */
  function AdmittedIn(events: seq<PipeEvent>): set<Request> {
    set e | e in events && e.Admit? :: e.req
  }

  lemma StepAdmits(p: Pipe, e: PipeEvent, maxConns: nat)
    requires Placed(p)
    ensures Step(p, e, maxConns).fate.Keys <= p.fate.Keys + (if e.Admit? then {e.req} else {})
  {
    if e.SendDone? || e.SendTimeout? || e.SendRefused? || e.SendDropped? {
      if e.task in p.sending {
        assert Is(p, p.sending[e.task], Sending);
      }
    } else if e.Dequeue? {
      if p.queue != [] {
        assert Is(p, p.queue[0], Queued);
      }
    } else if e.StreamOpened? || e.StreamFailed? {
      if p.driver.InHand? {
        assert Is(p, p.driver.req, Held);
      }
    }
  }

  /** No request comes from nowhere. */
  lemma {:induction false} RunPipeAdmits(p: Pipe, events: seq<PipeEvent>, maxConns: nat)
    requires PipeInv(p, maxConns)
    ensures RunPipe(p, events, maxConns).fate.Keys <= p.fate.Keys + AdmittedIn(events)
  {
    if events == [] {
    } else {
      var n := |events| - 1;
      RunPipeAdmits(p, events[..n], maxConns);
      RunPipeInv(p, events[..n], maxConns);
      StepAdmits(RunPipe(p, events[..n], maxConns), events[n], maxConns);
      assert events[n] in events && forall e | e in events[..n] :: e in events;
    }
  }

  /** The first refused send is the loop's last: its visitor's fate is ChannelClosed, and the loop takes
      in no request after it.  Whatever request is known at the end was known before that arrival, was
      admitted by others around it, or is its own. */
  lemma RefusedIsLast(p: Pipe, task: nat, local: string, arrivals: seq<Arrival>, i: nat, maxConns: nat)
    requires PipeInv(p, maxConns) && RefusedAt(p, task, local, arrivals, i, maxConns)
    requires forall j: nat | j < i :: !RefusedAt(p, task, local, arrivals, j, maxConns)
    ensures var before := AcceptLoop(p, task, local, arrivals[..i], maxConns);
            var final := AcceptLoop(p, task, local, arrivals, maxConns);
            && final == Served(before, task, local, arrivals[i], maxConns).0
            && final.driver.Closed?
            && final.fate.Keys <= before.fate.Keys + AdmittedIn(arrivals[i].before) + AdmittedIn(arrivals[i].waiting)
                                  + {Request(arrivals[i].visitor, task, local)}
  {
    var before, a := AcceptLoop(p, task, local, arrivals[..i], maxConns), arrivals[i];
    StopsThere(p, task, local, arrivals, i, maxConns);
    AcceptNext(p, task, local, arrivals, i, maxConns);
    ServedRefuses(before, task, local, a, maxConns);
    AcceptLoopInv(p, task, local, arrivals[..i], maxConns);
    ServedAdmits(before, task, local, a, maxConns);
  }

  lemma AskedAdmits(p: Pipe, task: nat, local: string, a: Arrival, maxConns: nat)
    requires PipeInv(p, maxConns)
    ensures PipeInv(Asked(p, task, local, a, maxConns), maxConns)
    ensures Asked(p, task, local, a, maxConns).fate.Keys
            <= p.fate.Keys + AdmittedIn(a.before) + {Request(a.visitor, task, local)}
  {
    var q := RunPipe(p, a.before, maxConns);
    RunPipeAdmits(p, a.before, maxConns);
    RunPipeInv(p, a.before, maxConns);
    StepAdmits(q, Admit(Request(a.visitor, task, local)), maxConns);
    StepPipeInv(q, Admit(Request(a.visitor, task, local)), maxConns);
  }

  lemma WaitedAdmits(p: Pipe, task: nat, a: Arrival, maxConns: nat)
    requires PipeInv(p, maxConns)
    ensures Waited(p, task, a, maxConns).fate.Keys <= p.fate.Keys + AdmittedIn(a.waiting)
  {
    var w := RunPipe(p, a.waiting, maxConns);
    RunPipeAdmits(p, a.waiting, maxConns);
    RunPipeInv(p, a.waiting, maxConns);
    StepAdmits(w, Outcome(w, task, a.inTime), maxConns);
  }

  lemma ServedAdmits(p: Pipe, task: nat, local: string, a: Arrival, maxConns: nat)
    requires PipeInv(p, maxConns)
    ensures Served(p, task, local, a, maxConns).0.fate.Keys
            <= p.fate.Keys + AdmittedIn(a.before) + AdmittedIn(a.waiting) + {Request(a.visitor, task, local)}
  {
    AskedAdmits(p, task, local, a, maxConns);
    WaitedAdmits(Asked(p, task, local, a, maxConns), task, a, maxConns);
  }

  lemma {:induction false} OthersKeepSending(p: Pipe, events: seq<PipeEvent>, task: nat, maxConns: nat)
    requires task in p.sending && forall k | 0 <= k < |events| :: NotOfLoop(events[k], task)
    ensures var q := RunPipe(p, events, maxConns);
            task in q.sending && q.sending[task] == p.sending[task]
  {
    if events == [] {
    } else {
      var n := |events| - 1;
      OthersKeepSending(p, events[..n], task, maxConns);
      OtherKeepsSending(RunPipe(p, events[..n], maxConns), events[n], task, maxConns);
    }
  }

  lemma OtherKeepsSending(p: Pipe, e: PipeEvent, task: nat, maxConns: nat)
    requires task in p.sending && NotOfLoop(e, task)
    ensures task in Step(p, e, maxConns).sending && Step(p, e, maxConns).sending[task] == p.sending[task]
  {
  }

  /** From arrival to fate: what becomes of a fresh visitor, by the counter when it is asked, the receiver
      and the room when its wait ends. */
  lemma ServedExactly(p: Pipe, task: nat, local: string, a: Arrival, maxConns: nat)
    requires task !in p.sending && forall k | 0 <= k < |a.before| :: NotOfLoop(a.before[k], task)
    requires forall k | 0 <= k < |a.waiting| :: NotOfLoop(a.waiting[k], task)
    requires Request(a.visitor, task, local) !in RunPipe(p, a.before, maxConns).fate
    ensures var req := Request(a.visitor, task, local);
            var asked, q := RunPipe(p, a.before, maxConns), Asked(p, task, local, a, maxConns);
            var w, r := RunPipe(q, a.waiting, maxConns), Served(p, task, local, a, maxConns).0;
            req in r.fate && r.fate[req] ==
              if maxConns != 0 && asked.active >= maxConns then OverLimit
              else if w.driver.Closed? then ChannelClosed
              else if a.inTime && |w.queue| < 256 then Queued
              else TimedOut
  {
    var req := Request(a.visitor, task, local);
    OthersKeepIdle(p, a.before, task, maxConns);
    AskedExactly(RunPipe(p, a.before, maxConns), req, maxConns);
    var q := Asked(p, task, local, a, maxConns);
    if task in q.sending {
      OthersKeepSending(q, a.waiting, task, maxConns);
      WaitEnds(RunPipe(q, a.waiting, maxConns), task, a.inTime, maxConns);
    }
  }
}
