/** What every step of a session's visitor path keeps. */
module PipeFacts {
  import opened Common
  import opened Pipe

  lemma NewInv(maxConns: nat)
    ensures PipeInv(NEW, maxConns)
  {
  }

  // ----- counting -----

  lemma {:induction false} CountUpdate(phases: seq<nat>, i: nat, v: nat, from: nat, to: nat)
    requires i < |phases|
    ensures Count(phases[i := v], from, to)
            == Count(phases, from, to) - (if from <= phases[i] < to then 1 else 0) + (if from <= v < to then 1 else 0)
  {
    var n := |phases| - 1;
    if i == n {
      assert phases[i := v][..n] == phases[..n];
    } else {
      assert phases[i := v][..n] == phases[..n][i := v];
      CountUpdate(phases[..n], i, v, from, to);
    }
  }

  lemma CountSnoc(phases: seq<nat>, v: nat, from: nat, to: nat)
    ensures Count(phases + [v], from, to) == Count(phases, from, to) + (if from <= v < to then 1 else 0)
  {
    assert (phases + [v])[..|phases|] == phases;
  }

  lemma {:induction false} CountPositive(phases: seq<nat>, i: nat, from: nat, to: nat)
    requires i < |phases| && from <= phases[i] < to
    ensures Count(phases, from, to) > 0
  {
    if i < |phases| - 1 {
      CountPositive(phases[..|phases| - 1], i, from, to);
    }
  }

  lemma {:induction false} CountBound(phases: seq<nat>, from: nat, to: nat)
    ensures Count(phases, from, to) <= |phases|
  {
    if phases == [] {
    } else {
      CountBound(phases[..|phases| - 1], from, to);
    }
  }

  /** A narrower range of phases holds no more tasks. */
  lemma {:induction false} CountWithin(phases: seq<nat>, from: nat, to: nat, from': nat, to': nat)
    requires from <= from' && to' <= to
    ensures Count(phases, from', to') <= Count(phases, from, to)
  {
    if phases == [] {
    } else {
      CountWithin(phases[..|phases| - 1], from, to, from', to');
    }
  }

  lemma WrappedIncrement(n: nat)
    ensures (n % TWO_64 + 1) % TWO_64 == (n + 1) % TWO_64
  {
  }

  lemma WrappedDecrement(n: nat)
    requires n > 0
    ensures (n % TWO_64 + TWO_64 - 1) % TWO_64 == (n - 1) % TWO_64
  {
  }

  /** Only opening a stream and the proxy tasks touch the phases and the counter. */
  lemma QuietStep(p: Pipe, e: PipeEvent, maxConns: nat)
    requires !e.ProxyStep? && !e.StreamOpened?
    ensures Step(p, e, maxConns).phases == p.phases && Step(p, e, maxConns).active == p.active
  {
  }

  lemma ProxyCounted(p: Pipe, i: nat, maxConns: nat)
    requires Counted(p)
    ensures Counted(Step(p, ProxyStep(i), maxConns))
  {
    if i < |p.phases| && p.phases[i] < 5 {
      CountUpdate(p.phases, i, p.phases[i] + 1, 1, 4);
      if p.phases[i] == 0 {
        WrappedIncrement(Count(p.phases, 1, 4));
      } else if p.phases[i] == 3 {
        CountPositive(p.phases, i, 1, 4);
        WrappedDecrement(Count(p.phases, 1, 4));
      }
    }
  }

  lemma StepCounted(p: Pipe, e: PipeEvent, maxConns: nat)
    requires Counted(p)
    ensures Counted(Step(p, e, maxConns))
  {
    if e.ProxyStep? {
      ProxyCounted(p, e.i, maxConns);
    } else if e.StreamOpened? {
      OpenedCounted(p, maxConns);
    } else {
      QuietStep(p, e, maxConns);
    }
  }

  lemma OpenedCounted(p: Pipe, maxConns: nat)
    requires Counted(p)
    ensures Counted(Step(p, StreamOpened, maxConns))
  {
    CountSnoc(p.phases, 0, 1, 4);
  }

  // ----- order and places -----

  lemma SendFifo(p: Pipe, task: nat, maxConns: nat)
    requires Fifo(p)
    ensures Fifo(Step(p, SendDone(task), maxConns))
  {
    if task in p.sending && !p.driver.Closed? && |p.queue| < CAPACITY {
      var before := p.streamed + p.failed + Hand(p.driver);
      assert p.discarded == [];
      assert before + p.queue + [] + [p.sending[task]] == before + (p.queue + [p.sending[task]]) + [];
    }
  }

  lemma DequeueFifo(p: Pipe, maxConns: nat)
    requires Fifo(p)
    ensures Fifo(Step(p, Dequeue, maxConns))
  {
    if p.driver.Running? && p.queue != [] {
      assert p.queue == [p.queue[0]] + p.queue[1..];
      assert p.failed == [] && p.discarded == [];
    }
  }

  lemma OpenFifo(p: Pipe, e: PipeEvent, maxConns: nat)
    requires Fifo(p) && (e.StreamOpened? || e.StreamFailed?)
    ensures Fifo(Step(p, e, maxConns))
  {
    if p.driver.InHand? {
      assert p.failed == [] && p.discarded == [];
    }
  }

  lemma DrainedFifo(p: Pipe)
    requires Fifo(p) && !p.driver.InHand? && !p.driver.Closed?
    ensures Fifo(Drained(p))
  {
    assert p.discarded == [];
  }

  lemma QuietFifo(p: Pipe, e: PipeEvent, maxConns: nat)
    requires Fifo(p) && !e.SendDone? && !e.Dequeue? && !e.StreamOpened? && !e.StreamFailed?
    requires !e.StatusReplied? && !e.Returned?
    ensures Fifo(Step(p, e, maxConns))
  {
  }

  lemma StepFifo(p: Pipe, e: PipeEvent, maxConns: nat)
    requires Fifo(p)
    ensures Fifo(Step(p, e, maxConns))
  {
    if e.SendDone? {
      SendFifo(p, e.task, maxConns);
    } else if e.Dequeue? {
      DequeueFifo(p, maxConns);
    } else if e.StreamOpened? || e.StreamFailed? {
      OpenFifo(p, e, maxConns);
    } else if e.StatusReplied? || e.Returned? {
      if p.driver.Inserted? || p.driver.CleanedUp? {
        DrainedFifo(p);
      }
    } else {
      QuietFifo(p, e, maxConns);
    }
  }

  lemma SetFate(p: Pipe, q: Pipe, r: Request, f: Fate)
    requires q.fate == p.fate[r := f]
    ensures forall x, g :: Is(q, x, g) <==> if x == r then g == f else Is(p, x, g)
  {
  }

  lemma StopPlaced(p: Pipe, task: nat, f: Fate)
    requires Fifo(p) && Placed(p)
    requires f.TimedOut? || f.ChannelClosed? || f.SendAborted?
    ensures Placed(StopSending(p, task, f))
  {
    var q := StopSending(p, task, f);
    if task in p.sending {
      var r := p.sending[task];
      assert Is(p, r, Sending);
      SetFate(p, q, r, f);
    }
  }

  lemma SendPlaced(p: Pipe, task: nat, maxConns: nat)
    requires Fifo(p) && Placed(p)
    ensures Placed(Step(p, SendDone(task), maxConns))
  {
    var q := Step(p, SendDone(task), maxConns);
    if q != p {
      var r := p.sending[task];
      assert Is(p, r, Sending) && !Is(p, r, Queued);
      assert r !in p.queue;
      SetFate(p, q, r, Queued);
      assert forall x :: x in q.queue <==> x in p.queue || x == r;
    }
  }

  lemma DrainedPlaced(p: Pipe)
    requires Fifo(p) && Placed(p) && !p.driver.InHand?
    ensures Placed(Drained(p))
  {
    var q := Drained(p);
    assert forall x :: x in q.discarded <==> x in p.discarded || x in p.queue;
    assert forall x, g :: Is(q, x, g) <==> x in p.fate && (if x in p.queue then g == Discarded else p.fate[x] == g);
  }

  lemma DequeuePlaced(p: Pipe, maxConns: nat)
    requires Fifo(p) && Placed(p)
    ensures Placed(Step(p, Dequeue, maxConns))
  {
    var q := Step(p, Dequeue, maxConns);
    if q != p {
      var r := p.queue[0];
      assert Is(p, r, Queued);
      assert p.queue == [r] + p.queue[1..];
      assert r !in p.queue[1..];
      SetFate(p, q, r, Held);
    }
  }

  lemma StreamPlaced(p: Pipe, e: PipeEvent, maxConns: nat)
    requires Fifo(p) && Placed(p)
    requires e.StreamOpened? || e.StreamFailed?
    ensures Placed(Step(p, e, maxConns))
  {
    var q := Step(p, e, maxConns);
    if q != p {
      var r := p.driver.req;
      assert Is(p, r, Held) && !Is(p, r, Opened);
      SetFate(p, q, r, if e.StreamOpened? then Opened else OpenFailed);
      assert r !in p.streamed;
      if e.StreamOpened? {
        assert forall x :: x in q.streamed <==> x in p.streamed || x == r;
      } else {
        assert forall x :: x in q.failed <==> x in p.failed || x == r;
      }
    }
  }

  lemma RefusedPlaced(p: Pipe, req: Request)
    requires Placed(p) && req !in p.fate
    ensures Placed(p.(fate := p.fate[req := OverLimit]))
  {
    SetFate(p, p.(fate := p.fate[req := OverLimit]), req, OverLimit);
    assert forall g :: !Is(p, req, g);
  }

  lemma SendingPlaced(p: Pipe, req: Request)
    requires Placed(p) && req !in p.fate && req.task !in p.sending
    ensures Placed(p.(sending := p.sending[req.task := req], fate := p.fate[req := Sending]))
  {
    SetFate(p, p.(sending := p.sending[req.task := req], fate := p.fate[req := Sending]), req, Sending);
    assert forall g :: !Is(p, req, g);
  }

  lemma PeakPlaced(p: Pipe, peak: nat)
    requires Placed(p)
    ensures Placed(p.(peak := peak))
  {
    assert forall r, g :: Is(p.(peak := peak), r, g) <==> Is(p, r, g);
  }

  lemma AdmitPlaced(p: Pipe, req: Request, maxConns: nat)
    requires Placed(p)
    ensures Placed(Step(p, Admit(req), maxConns))
  {
    if req !in p.fate && req.task !in p.sending {
      if maxConns != 0 && p.active >= maxConns {
        RefusedPlaced(p, req);
      } else {
        var q := p.(sending := p.sending[req.task := req], fate := p.fate[req := Sending]);
        SendingPlaced(p, req);
        PeakPlaced(q, Max(p.peak, Pending(q)));
      }
    }
  }

  /** Steps of the handler alone, and of proxy tasks, move no request. */
  lemma OtherPlaced(p: Pipe, e: PipeEvent, maxConns: nat)
    requires Placed(p)
    requires e == StatusReplied(true) || e.ListenersStarted? || e.ConnectionEnded? || e.ChannelEnded?
             || e.RanCleanup? || e.ProxyStep?
    ensures Placed(Step(p, e, maxConns))
  {
    var q := Step(p, e, maxConns);
    assert q == p.(driver := q.driver, phases := q.phases, active := q.active);
    assert forall r :: q.driver == InHand(r) <==> p.driver == InHand(r);
    assert forall r, g :: Is(q, r, g) <==> Is(p, r, g);
  }

  lemma StepPlaced(p: Pipe, e: PipeEvent, maxConns: nat)
    requires Fifo(p) && Placed(p)
    ensures Placed(Step(p, e, maxConns))
  {
    if e.Admit? {
      AdmitPlaced(p, e.req, maxConns);
    } else if e.SendDone? {
      SendPlaced(p, e.task, maxConns);
    } else if e.SendTimeout? {
      StopPlaced(p, e.task, TimedOut);
    } else if e.SendRefused? {
      StopPlaced(p, e.task, ChannelClosed);
    } else if e.SendDropped? {
      StopPlaced(p, e.task, SendAborted);
    } else if (e == StatusReplied(false) && p.driver.Inserted?) || (e.Returned? && p.driver.CleanedUp?) {
      DrainedPlaced(p);
    } else if e.Dequeue? {
      DequeuePlaced(p, maxConns);
    } else if e.StreamOpened? || e.StreamFailed? {
      StreamPlaced(p, e, maxConns);
    } else if e != StatusReplied(false) && !e.Returned? {
      OtherPlaced(p, e, maxConns);
    }
  }

  // ----- the admission bound -----

  lemma ProxyBounded(p: Pipe, i: nat, maxConns: nat)
    requires Counted(p) && Bounded(p, maxConns) && i < |p.phases| && p.phases[i] < 5
    ensures Bounded(Step(p, ProxyStep(i), maxConns), maxConns)
  {
    var q := Step(p, ProxyStep(i), maxConns);
    CountUpdate(p.phases, i, p.phases[i] + 1, 0, 1);
    CountUpdate(p.phases, i, p.phases[i] + 1, 1, 4);
    if |p.phases| < TWO_64 {
      ExactCount(p);
      ProxyCounted(p, i, maxConns);
      ExactCount(q);
    }
  }

  lemma ExactCount(p: Pipe)
    requires Counted(p) && |p.phases| < TWO_64
    ensures p.active == Count(p.phases, 1, 4)
  {
    CountBound(p.phases, 1, 4);
  }

  /** No other step than an arrival and the proxy tasks' adds to what is pending. */
  lemma PendingShrinks(p: Pipe, e: PipeEvent, maxConns: nat)
    requires !e.Admit? && !e.ProxyStep?
    ensures Pending(Step(p, e, maxConns)) <= Pending(p)
    ensures Step(p, e, maxConns).peak == p.peak && |Step(p, e, maxConns).phases| >= |p.phases|
  {
    if e.StreamOpened? {
      CountSnoc(p.phases, 0, 0, 1);
    } else {
      QuietStep(p, e, maxConns);
      WaitingShrinks(p, e, maxConns);
    }
  }

  lemma StopShrinks(p: Pipe, task: nat, f: Fate)
    ensures var q := StopSending(p, task, f);
            |q.sending| == |p.sending| - (if task in p.sending then 1 else 0) && q.peak == p.peak
  {
    if task in p.sending {
      assert p.sending.Keys == StopSending(p, task, f).sending.Keys + {task};
      assert |p.sending.Keys| == |p.sending|;
      assert |StopSending(p, task, f).sending.Keys| == |StopSending(p, task, f).sending|;
    }
  }

  lemma SenderShrinks(p: Pipe, e: PipeEvent, maxConns: nat)
    requires e.SendDone? || e.SendTimeout? || e.SendRefused? || e.SendDropped?
    ensures Waiting(Step(p, e, maxConns)) <= Waiting(p) && Step(p, e, maxConns).peak == p.peak
  {
    StopShrinks(p, e.task, if e.SendDone? then Queued else if e.SendTimeout? then TimedOut
                           else if e.SendRefused? then ChannelClosed else SendAborted);
  }

  lemma WaitingShrinks(p: Pipe, e: PipeEvent, maxConns: nat)
    requires !e.Admit? && !e.ProxyStep? && !e.StreamOpened?
    ensures Waiting(Step(p, e, maxConns)) <= Waiting(p) && Step(p, e, maxConns).peak == p.peak
  {
    if e.SendDone? || e.SendTimeout? || e.SendRefused? || e.SendDropped? {
      SenderShrinks(p, e, maxConns);
    }
  }

  lemma StepBounded(p: Pipe, e: PipeEvent, maxConns: nat)
    requires Counted(p) && Bounded(p, maxConns)
    ensures Bounded(Step(p, e, maxConns), maxConns)
  {
    if e.ProxyStep? {
      if e.i < |p.phases| && p.phases[e.i] < 5 {
        ProxyBounded(p, e.i, maxConns);
      }
    } else if !e.Admit? {
      PendingShrinks(p, e, maxConns);
      SameActive(p, e, maxConns);
    }
  }

  lemma SameActive(p: Pipe, e: PipeEvent, maxConns: nat)
    requires !e.ProxyStep?
    ensures Step(p, e, maxConns).active == p.active
  {
  }

  lemma StepPipeInv(p: Pipe, e: PipeEvent, maxConns: nat)
    requires PipeInv(p, maxConns)
    ensures PipeInv(Step(p, e, maxConns), maxConns)
  {
    StepFifo(p, e, maxConns);
    StepPlaced(p, e, maxConns);
    StepCounted(p, e, maxConns);
    StepBounded(p, e, maxConns);
  }

  // ----- consequences -----

  /** The driver's `recv` never yields "no more requests": the handler's own sender outlives it. */
  lemma RecvNeverEnds(p: Pipe, others: bool, maxConns: nat)
    requires Fifo(p)
    ensures Step(p, ChannelEnded(others), maxConns) == p
  {
  }

  /** A decrement never takes the counter below zero: whenever a proxy task is about to decrement,
      the counter is exactly the number of tasks it counts, and that includes this one. */
  lemma NoUnderflow(p: Pipe, i: nat)
    requires Counted(p) && |p.phases| < TWO_64 && i < |p.phases| && p.phases[i] == 3
    ensures p.active == Count(p.phases, 1, 4) && p.active >= 1
  {
    CountBound(p.phases, 1, 4);
    CountPositive(p.phases, i, 1, 4);
  }

  lemma {:induction false} AllDone(phases: seq<nat>)
    requires forall i | 0 <= i < |phases| :: phases[i] == 5
    ensures Count(phases, 1, 4) == 0 && Count(phases, 3, 5) == 0 && Count(phases, 2, 6) == |phases|
  {
    if phases == [] {
    } else {
      AllDone(phases[..|phases| - 1]);
    }
  }

  /** No request is enqueued twice. */
  lemma EnqueuedOnce(p: Pipe)
    requires Fifo(p) && Placed(p)
    ensures NoRepeats(p.enqueued)
  {
    var parts := p.streamed + p.failed + Hand(p.driver) + p.queue + p.discarded;
    assert forall r | r in Hand(p.driver) :: Is(p, r, Held);
    forall i, j | 0 <= i < j < |parts|
      ensures parts[i] != parts[j]
    {
      FateAt(p, i);
      FateAt(p, j);
    }
  }

  /** The fate of the request at a position of the enqueued sequence. */
  lemma FateAt(p: Pipe, i: nat)
    requires Fifo(p) && Placed(p) && i < |p.enqueued|
    ensures var a, b := |p.streamed|, |p.streamed + p.failed|;
            var c, d := b + |Hand(p.driver)|, b + |Hand(p.driver)| + |p.queue|;
            && Is(p, p.enqueued[i], if i < a then Opened else if i < b then OpenFailed
                                    else if i < c then Held else if i < d then Queued else Discarded)
            && (i < a ==> p.enqueued[i] == p.streamed[i])
            && (c <= i < d ==> p.enqueued[i] == p.queue[i - c])
            && (d <= i ==> p.enqueued[i] == p.discarded[i - d])
  {
    var r := p.enqueued[i];
    var a, b := |p.streamed|, |p.streamed + p.failed|;
    var c, d := b + |Hand(p.driver)|, b + |Hand(p.driver)| + |p.queue|;
    if i < a {
      assert r in p.streamed;
    } else if i < b {
      assert r == p.failed[i - a] && r in p.failed;
    } else if i < c {
      assert r in Hand(p.driver);
    } else if i < d {
      assert r in p.queue;
    } else {
      assert r in p.discarded;
    }
  }
}
