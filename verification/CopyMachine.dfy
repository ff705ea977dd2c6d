/** The copy loop of src/tunnel/proxy.rs as steps, so that it can be stopped between any two of
    them and so that any number of copies can share one byte counter. */
module CopyMachine {
  import opened Common
  import opened Utf8

  const BUFFER := 16384

  /** Where a copy is: waiting for data, writing a buffer, flushing it, about to count it; or at
      an end, either a clean end of input or any other (error, timeout, dropped future). */
  datatype Pc = Reading | Writing | Flushing | Counting | Finished | Stopped

  datatype Copy = Copy(input: seq<Byte>, read: nat, delivered: nat, counted: nat, pc: Pc)

  datatype CopyEvent = GotBytes(n: nat) | EndOfInput | Wrote(n: nat) | Flushed | Counted | Interrupted

  function Start(input: seq<Byte>): Copy {
    Copy(input, 0, 0, 0, Reading)
  }

  /** One step; an event that cannot happen in this state leaves it as it is. */
  function Step(c: Copy, e: CopyEvent): Copy {
    match e
    case GotBytes(n) =>
      if c.pc.Reading? && 0 < n <= BUFFER && c.read + n <= |c.input| then c.(read := c.read + n, pc := Writing) else c
    case EndOfInput =>
      if c.pc.Reading? && c.read == |c.input| then c.(pc := Finished) else c
    case Wrote(n) =>
      if c.pc.Writing? && 0 < n <= c.read - c.delivered then
        c.(delivered := c.delivered + n, pc := if c.delivered + n == c.read then Flushing else Writing)
      else c
    case Flushed =>
      if c.pc.Flushing? then c.(pc := Counting) else c
    case Counted =>
      if c.pc.Counting? then c.(counted := c.read, pc := Reading) else c
    case Interrupted =>
      if c.pc.Finished? then c else c.(pc := Stopped)
  }

  /** What `fetch_add` adds to the shared counter in this step. */
  function Added(c: Copy, e: CopyEvent): nat {
    if e.Counted? && c.pc.Counting? && c.counted <= c.read then c.read - c.counted else 0
  }

  function Run(c: Copy, events: seq<CopyEvent>): Copy {
    if events == [] then c
    else Step(Run(c, events[..|events| - 1]), events[|events| - 1])
  }

  lemma RunSnoc(c: Copy, events: seq<CopyEvent>, e: CopyEvent)
    ensures Run(c, events + [e]) == Step(Run(c, events), e)
  {
    assert (events + [e])[..|events|] == events;
  }

  /** The accounting of one direction: counted, delivered and read follow each other and are
      never more than one buffer apart. */
  predicate Accounted(read: nat, delivered: nat, counted: nat) {
    counted <= delivered <= read <= counted + BUFFER
  }

  predicate CopyInv(c: Copy) {
    && c.read <= |c.input|
    && Accounted(c.read, c.delivered, c.counted)
    && (c.pc.Reading? || c.pc.Finished? ==> c.counted == c.read)
    && (c.pc.Writing? ==> c.delivered < c.read)
    && (c.pc.Flushing? || c.pc.Counting? ==> c.delivered == c.read)
    && (c.pc.Finished? ==> c.read == |c.input|)
  }

  lemma StepKeepsInv(c: Copy, e: CopyEvent)
    requires CopyInv(c)
    ensures CopyInv(Step(c, e)) && Step(c, e).input == c.input
    ensures Step(c, e).counted == c.counted + Added(c, e)
  {
  }

  lemma {:induction false} CopyAccounting(input: seq<Byte>, events: seq<CopyEvent>)
    ensures var c := Run(Start(input), events); CopyInv(c) && c.input == input
  {
    if events == [] {
    } else {
      CopyAccounting(input, events[..|events| - 1]);
      StepKeepsInv(Run(Start(input), events[..|events| - 1]), events[|events| - 1]);
    }
  }

  // ----- any number of copies sharing a counter -----

  datatype Fleet = Fleet(copies: seq<Copy>, counter: nat)

  datatype FleetEvent = Spawn(input: seq<Byte>) | At(i: nat, e: CopyEvent)

  function FleetStep(f: Fleet, e: FleetEvent): Fleet {
    match e
    case Spawn(input) => f.(copies := f.copies + [Start(input)])
    case At(i, ce) =>
      if i < |f.copies| then
        Fleet(f.copies[i := Step(f.copies[i], ce)], (f.counter + Added(f.copies[i], ce)) % TWO_64)
      else f
  }

  function FleetRun(events: seq<FleetEvent>): Fleet {
    if events == [] then Fleet([], 0)
    else FleetStep(FleetRun(events[..|events| - 1]), events[|events| - 1])
  }

  function TotalCounted(cs: seq<Copy>): nat {
    if cs == [] then 0 else TotalCounted(cs[..|cs| - 1]) + cs[|cs| - 1].counted
  }

  function TotalDelivered(cs: seq<Copy>): nat {
    if cs == [] then 0 else TotalDelivered(cs[..|cs| - 1]) + cs[|cs| - 1].delivered
  }

  lemma {:induction false} TotalCountedUpdate(cs: seq<Copy>, i: nat, c: Copy)
    requires i < |cs|
    ensures TotalCounted(cs[i := c]) == TotalCounted(cs) - cs[i].counted + c.counted
  {
    var n := |cs| - 1;
    if i == n {
      assert cs[i := c][..n] == cs[..n];
    } else {
      assert cs[i := c][..n] == cs[..n][i := c];
      TotalCountedUpdate(cs[..n], i, c);
    }
  }

  predicate FleetInv(f: Fleet) {
    && (forall i | 0 <= i < |f.copies| :: CopyInv(f.copies[i]))
    && f.counter == TotalCounted(f.copies) % TWO_64
  }

  lemma WrappedAdd(total: nat, n: nat)
    ensures (total % TWO_64 + n) % TWO_64 == (total + n) % TWO_64
  {
  }

  lemma FleetMoveKeepsInv(f: Fleet, i: nat, e: CopyEvent)
    requires FleetInv(f) && i < |f.copies|
    ensures FleetInv(FleetStep(f, At(i, e)))
  {
    StepKeepsInv(f.copies[i], e);
    MoveTotals(f, i, e);
    WrappedAdd(TotalCounted(f.copies), Added(f.copies[i], e));
  }

  lemma MoveTotals(f: Fleet, i: nat, e: CopyEvent)
    requires FleetInv(f) && i < |f.copies|
    ensures TotalCounted(FleetStep(f, At(i, e)).copies) == TotalCounted(f.copies) + Added(f.copies[i], e)
  {
    StepKeepsInv(f.copies[i], e);
    TotalCountedUpdate(f.copies, i, Step(f.copies[i], e));
  }

  lemma FleetStepKeepsInv(f: Fleet, e: FleetEvent)
    requires FleetInv(f)
    ensures FleetInv(FleetStep(f, e))
  {
    match e {
      case Spawn(input) =>
        assert (f.copies + [Start(input)])[..|f.copies|] == f.copies;
      case At(i, ce) =>
        if i < |f.copies| {
          FleetMoveKeepsInv(f, i, ce);
        }
    }
  }

  lemma {:induction false} FleetAccounting(events: seq<FleetEvent>)
    ensures FleetInv(FleetRun(events))
  {
    if events == [] {
    } else {
      FleetAccounting(events[..|events| - 1]);
      FleetStepKeepsInv(FleetRun(events[..|events| - 1]), events[|events| - 1]);
    }
  }

  /** Below 2^64 the counter is the sum of what the copies counted. */
  lemma ExactCounter(events: seq<FleetEvent>)
    requires TotalCounted(FleetRun(events).copies) < TWO_64
    ensures FleetRun(events).counter == TotalCounted(FleetRun(events).copies)
  {
    FleetAccounting(events);
  }

  lemma {:induction false} DeliveredNearCounted(cs: seq<Copy>)
    requires forall i | 0 <= i < |cs| :: CopyInv(cs[i])
    ensures TotalCounted(cs) <= TotalDelivered(cs) <= TotalCounted(cs) + BUFFER * |cs|
  {
    if cs == [] {
    } else {
      DeliveredNearCounted(cs[..|cs| - 1]);
      assert CopyInv(cs[|cs| - 1]);
    }
  }

  /** Whatever the interleaving and wherever copies are stopped: as long as fewer than 2^64 bytes
      have gone through, the shared counter is at most what was delivered, and at least that
      less one buffer for each connection. */
  lemma SharedCounterBounds(events: seq<FleetEvent>)
    requires TotalCounted(FleetRun(events).copies) < TWO_64
    ensures var f := FleetRun(events);
            f.counter <= TotalDelivered(f.copies) <= f.counter + BUFFER * |f.copies|
  {
    FleetAccounting(events);
    ExactCounter(events);
    DeliveredNearCounted(FleetRun(events).copies);
  }

  lemma FleetOnlyCounts(f: Fleet, e: FleetEvent)
    requires FleetInv(f)
    ensures TotalCounted(f.copies) <= TotalCounted(FleetStep(f, e).copies)
  {
    match e {
      case Spawn(input) =>
        assert (f.copies + [Start(input)])[..|f.copies|] == f.copies;
      case At(i, ce) =>
        if i < |f.copies| {
          StepKeepsInv(f.copies[i], ce);
          TotalCountedUpdate(f.copies, i, Step(f.copies[i], ce));
        }
    }
  }

  lemma {:induction false} TotalOnlyGrows(events: seq<FleetEvent>, n: nat)
    requires n <= |events|
    ensures TotalCounted(FleetRun(events[..n]).copies) <= TotalCounted(FleetRun(events).copies)
  {
    if n < |events| {
      var prior := events[..|events| - 1];
      TotalOnlyGrows(prior, n);
      assert prior[..n] == events[..n];
      FleetAccounting(prior);
      FleetOnlyCounts(FleetRun(prior), events[|events| - 1]);
    } else {
      assert events[..n] == events;
    }
  }

  lemma TotalsGrow(events: seq<FleetEvent>, m: nat, n: nat)
    requires m <= n <= |events|
    ensures TotalCounted(FleetRun(events[..m]).copies) <= TotalCounted(FleetRun(events[..n]).copies)
            <= TotalCounted(FleetRun(events).copies)
  {
    TotalOnlyGrows(events, n);
    TotalOnlyGrows(events[..n], m);
    assert events[..n][..m] == events[..m];
  }

  /** Readings of the counter never go down, as long as fewer than 2^64 bytes have gone through. */
  lemma ReadingsGrow(events: seq<FleetEvent>, m: nat, n: nat)
    requires m <= n <= |events| && TotalCounted(FleetRun(events).copies) < TWO_64
    ensures FleetRun(events[..m]).counter <= FleetRun(events[..n]).counter
  {
    TotalsGrow(events, m, n);
    ExactCounter(events[..m]);
    ExactCounter(events[..n]);
  }
}
