/** One session's path for visitors: accept loops send requests into a bounded channel, the driver
    (src/tunnel/session.rs) turns them into streams, proxy tasks count themselves in and out. */
module Pipe {
  import opened Common

  const CAPACITY := 256

  /** A ProxyRequest: the visitor's connection, the accept loop it came through, and the address
      the client is to dial. */
  datatype Request = Request(visitor: nat, task: nat, target: string)

  /** Where the connection's handler is: before the status reply, before the listeners are started,
      in the driver loop (perhaps with a request in hand), past the loop, past its cleanup, or
      returned (which drops the receiving end of the channel). */
  datatype Driver = Inserted | Accepted | Running | InHand(req: Request) | Exited | CleanedUp | Closed

  /** What has become of an accepted visitor. */
  datatype Fate = OverLimit | Sending | TimedOut | ChannelClosed | SendAborted
                | Queued | Held | Opened | OpenFailed | Discarded

  /** `phases` are the proxy tasks, one for each opened stream: 0 spawned, 1 to 3 after the three
      increments (3 is the proxying itself), 4 and 5 after the two decrements.  `active` is the
      session's shared counter; `ownSender` is the sending end that the handler keeps for
      itself until it returns.  The sequences from `enqueued` on, `fate` and `peak` are history. */
  datatype Pipe = Pipe(driver: Driver, queue: seq<Request>, sending: map<nat, Request>, active: nat, phases: seq<nat>,
                       enqueued: seq<Request>, streamed: seq<Request>, failed: seq<Request>, discarded: seq<Request>,
                       fate: map<Request, Fate>, peak: nat, ownSender: bool)

  const NEW := Pipe(Inserted, [], map[], 0, [], [], [], [], [], map[], 0, true)

  datatype PipeEvent =
    | Admit(req: Request)      // accept, read the counter, and go on to send or drop
    | SendDone(task: nat)      // the channel had room
    | SendTimeout(task: nat)   // 200 ms without room
    | SendRefused(task: nat)   // the receiver is gone
    | SendDropped(task: nat)   // the accept loop was aborted while waiting
    | StatusReplied(ok: bool)
    | ListenersStarted
    | Dequeue
    | StreamOpened
    | StreamFailed
    | ConnectionEnded
    | ChannelEnded(others: bool) // recv yields nothing: queue empty and no sender left
    | RanCleanup
    | Returned
    | ProxyStep(i: nat)

  // ----- counting proxy tasks by phase -----

  /** How many tasks have a phase in [from, to). */
  function Count(phases: seq<nat>, from: nat, to: nat): nat {
    if phases == [] then 0
    else Count(phases[..|phases| - 1], from, to) + (if from <= phases[|phases| - 1] < to then 1 else 0)
  }

  function Hand(d: Driver): seq<Request> {
    if d.InHand? then [d.req] else []
  }

  /** Requests on their way to the driver, or in its hand. */
  function Waiting(p: Pipe): nat {
    |p.sending| + |p.queue| + |Hand(p.driver)|
  }

  /** Requests past the limit check whose proxy task has not counted itself yet. */
  function Pending(p: Pipe): nat {
    Waiting(p) + Count(p.phases, 0, 1)
  }

  function Max(a: nat, b: nat): nat {
    if a >= b then a else b
  }

  /** A sender stops sending, with this fate for its request. */
  function StopSending(p: Pipe, task: nat, f: Fate): Pipe {
    if task in p.sending then
      p.(sending := p.sending - {task}, fate := p.fate[p.sending[task] := f])
    else p
  }

  function Discard(fate: map<Request, Fate>, dropped: seq<Request>): map<Request, Fate> {
    map r | r in fate :: if r in dropped then Discarded else fate[r]
  }

  /** The per-session counter after a proxy task leaves this phase. */
  function Counter(active: nat, phase: nat): nat {
    if phase == 0 then (active + 1) % TWO_64
    else if phase == 3 then (active + TWO_64 - 1) % TWO_64
    else active
  }

  /** One step; an event that cannot happen in this state leaves it as it is. */
  function Step(p: Pipe, e: PipeEvent, maxConns: nat): Pipe {
    match e
    case Admit(req) =>
      if req in p.fate || req.task in p.sending then p
      else if maxConns != 0 && p.active >= maxConns then p.(fate := p.fate[req := OverLimit])
      else
        var q := p.(sending := p.sending[req.task := req], fate := p.fate[req := Sending]);
        q.(peak := Max(p.peak, Pending(q)))
    case SendDone(task) =>
      if task in p.sending && !p.driver.Closed? && |p.queue| < CAPACITY then
        var req := p.sending[task];
        StopSending(p, task, Queued).(queue := p.queue + [req], enqueued := p.enqueued + [req])
      else p
    case SendTimeout(task) => StopSending(p, task, TimedOut)
    case SendRefused(task) => if p.driver.Closed? then StopSending(p, task, ChannelClosed) else p
    case SendDropped(task) => StopSending(p, task, SendAborted)
    case StatusReplied(ok) =>
      if !p.driver.Inserted? then p
      else if ok then p.(driver := Accepted)
      else Drained(p)
    case ListenersStarted => if p.driver.Accepted? then p.(driver := Running) else p
    case Dequeue =>
      if p.driver.Running? && p.queue != [] then
        p.(driver := InHand(p.queue[0]), queue := p.queue[1..], fate := p.fate[p.queue[0] := Held])
      else p
    case StreamOpened =>
      if p.driver.InHand? then
        p.(driver := Running, streamed := p.streamed + [p.driver.req], phases := p.phases + [0],
           fate := p.fate[p.driver.req := Opened])
      else p
    case StreamFailed =>
      if p.driver.InHand? then
        p.(driver := Exited, failed := p.failed + [p.driver.req], fate := p.fate[p.driver.req := OpenFailed])
      else p
    case ConnectionEnded => if p.driver.Running? then p.(driver := Exited) else p
    case ChannelEnded(others) =>
      if p.driver.Running? && p.queue == [] && !others && !p.ownSender then p.(driver := Exited) else p
    case RanCleanup => if p.driver.Exited? then p.(driver := CleanedUp) else p
    case Returned => if p.driver.CleanedUp? then Drained(p) else p
    case ProxyStep(i) =>
      if i < |p.phases| && p.phases[i] < 5 then
        p.(phases := p.phases[i := p.phases[i] + 1], active := Counter(p.active, p.phases[i]))
      else p
  }

  /** The receiver is dropped with whatever is still queued. */
  function Drained(p: Pipe): Pipe {
    p.(driver := Closed, queue := [], discarded := p.discarded + p.queue, fate := Discard(p.fate, p.queue),
       ownSender := false)
  }

  // ----- invariants -----

  /** First in, first out: what was enqueued is, in order, what was opened, at most one whose
      stream could not be opened, the one in hand, and what is still queued or was dropped with
      the channel. */
  predicate Fifo(p: Pipe) {
    && p.enqueued == p.streamed + p.failed + Hand(p.driver) + p.queue + p.discarded
    && |p.queue| <= CAPACITY
    && |p.phases| == |p.streamed|
    && |p.failed| <= 1
    && (p.failed != [] ==> p.driver.Exited? || p.driver.CleanedUp? || p.driver.Closed?)
    && (p.discarded != [] ==> p.driver.Closed?)
    && (p.driver.Closed? ==> p.queue == [])
    && (p.ownSender <==> !p.driver.Closed?)
    && (p.driver.Inserted? || p.driver.Accepted? ==> p.streamed == [])
  }

  predicate NoRepeats(s: seq<Request>) {
    forall i, j | 0 <= i < j < |s| :: s[i] != s[j]
  }

  ghost predicate Is(p: Pipe, r: Request, f: Fate) {
    r in p.fate && p.fate[r] == f
  }

  /** Each accepted visitor is in exactly the place its fate names. */
  ghost predicate Placed(p: Pipe) {
    && (forall r :: Is(p, r, Queued) <==> r in p.queue)
    && (forall r :: Is(p, r, Held) <==> p.driver == InHand(r))
    && (forall r :: Is(p, r, Opened) <==> r in p.streamed)
    && (forall r :: Is(p, r, OpenFailed) <==> r in p.failed)
    && (forall r :: Is(p, r, Discarded) <==> r in p.discarded)
    && (forall r :: Is(p, r, Sending) <==> r.task in p.sending && p.sending[r.task] == r)
    && (forall t | t in p.sending :: p.sending[t].task == t)
    && NoRepeats(p.queue)
    && NoRepeats(p.streamed)
    && NoRepeats(p.discarded)
  }

  /** The session's counter is the number of its proxy tasks between their increment and their
      decrement. */
  predicate Counted(p: Pipe) {
    && p.active == Count(p.phases, 1, 4) % TWO_64
    && (forall i | 0 <= i < |p.phases| :: p.phases[i] <= 5)
  }

  /** The bound the check really gives, as long as the counter has not wrapped. */
  predicate Bounded(p: Pipe, maxConns: nat) {
    && Pending(p) <= p.peak
    && (maxConns >= 1 && |p.phases| < TWO_64 ==> p.active + Pending(p) <= maxConns - 1 + p.peak)
  }

  ghost predicate PipeInv(p: Pipe, maxConns: nat) {
    Fifo(p) && Placed(p) && Counted(p) && Bounded(p, maxConns)
  }
}
