/** src/tunnel/proxy.rs and the stream handler of src/client.rs: the copy loops over real
    streams, and what comes out at the far end of the two loops in series. */
module Relay {
  import opened Common
  import opened Utf8
  import opened Wire
  import opened Streams
  import opened CopyMachine
  import Protocol

  /** A shared 64-bit atomic. */
  class Counter {
    var value: nat

    constructor ()
      ensures value == 0
    {
      value := 0;
    }

    method FetchAdd(n: nat)
      modifies this
      ensures value == (old(value) + n) % TWO_64
    {
      value := (value + n) % TWO_64;
    }
  }

  /** A counter went up by k. */
  predicate WentUp(before: nat, after: nat, k: nat) {
    after == (before + k) % TWO_64
  }

  lemma WentUpMore(before: nat, after: nat, k: nat, n: nat)
    requires WentUp(before, after, k)
    ensures WentUp(before, (after + n) % TWO_64, k + n)
  {
    WrappedAdd(before + k, n);
  }

  /** A run of the copy machine that ends in `c`, read off the streams' contents: `left` is still
      to be read, `out` has been written. */
  ghost predicate Follows(start: Copy, trace: seq<CopyEvent>, c: Copy, left: seq<Byte>, out: seq<Byte>) {
    && c == Run(start, trace) && CopyInv(c) && c.input == start.input
    && left == c.input[c.read..]
    && out == c.input[..c.delivered]
  }

  /** Ghost bookkeeping: extend a run by one event. */
  ghost method Next(start: Copy, c: Copy, trace: seq<CopyEvent>, e: CopyEvent)
    returns (c': Copy, trace': seq<CopyEvent>)
    requires c == Run(start, trace) && CopyInv(c) && c.input == start.input
    ensures c' == Step(c, e) && c' == Run(start, trace') && CopyInv(c') && c'.input == start.input
  {
    c', trace' := Step(c, e), trace + [e];
    RunSnoc(start, trace, e);
    StepKeepsInv(c, e);
  }

  /** ... by a stop, wherever it is. */
  ghost method Stop(start: Copy, c: Copy, trace: seq<CopyEvent>) returns (c': Copy, trace': seq<CopyEvent>)
    requires c == Run(start, trace) && CopyInv(c) && c.input == start.input && !c.pc.Finished?
    ensures c' == c.(pc := Stopped) && c' == Run(start, trace') && CopyInv(c')
  {
    c', trace' := Next(start, c, trace, Interrupted);
  }

  /** ... by writing the first k bytes of the buffer. */
  ghost method Deliver(start: Copy, c: Copy, trace: seq<CopyEvent>, k: nat) returns (c': Copy, trace': seq<CopyEvent>)
    requires c == Run(start, trace) && CopyInv(c) && c.input == start.input
    requires c.pc.Writing? && k <= c.read - c.delivered
    ensures c' == c.(delivered := c.delivered + k, pc := if c.delivered + k == c.read then Flushing else Writing)
    ensures c' == Run(start, trace') && CopyInv(c')
  {
    c', trace' := c, trace;
    if k > 0 {
      c', trace' := Next(start, c, trace, Wrote(k));
    }
  }

  /** ... by reading n bytes into the empty buffer. */
  ghost method Receive(start: Copy, c: Copy, trace: seq<CopyEvent>, n: nat) returns (c': Copy, trace': seq<CopyEvent>)
    requires c == Run(start, trace) && CopyInv(c) && c.input == start.input
    requires c.pc.Reading? && 0 < n <= BUFFER && c.read + n <= |c.input|
    ensures c' == c.(read := c.read + n, pc := Writing)
    ensures c' == Run(start, trace') && CopyInv(c')
    ensures c.input[c.read..][..n] == c'.input[c.read..c'.read] && c.input[c.read..][n..] == c'.input[c'.read..]
  {
    c', trace' := Next(start, c, trace, GotBytes(n));
  }

  /** ... by flushing and counting the buffer. */
  ghost method FlushAndCount(start: Copy, c: Copy, trace: seq<CopyEvent>) returns (c': Copy, trace': seq<CopyEvent>)
    requires c == Run(start, trace) && CopyInv(c) && c.input == start.input && c.pc.Flushing?
    ensures c' == c.(counted := c.read, pc := Reading) && c' == Run(start, trace') && CopyInv(c')
  {
    c', trace' := Next(start, c, trace, Flushed);
    c', trace' := Next(start, c', trace', Counted);
  }

  /** Write the buffer and flush. */
  method WriteChunk(w: Sink, chunk: seq<Byte>, ghost start: Copy, ghost c0: Copy, ghost trace0: seq<CopyEvent>)
    returns (res: Result<()>, ghost c: Copy, ghost trace: seq<CopyEvent>)
    requires c0 == Run(start, trace0) && CopyInv(c0) && c0.input == start.input && c0.pc.Writing?
    requires chunk == c0.input[c0.delivered..c0.read]
    modifies w
    ensures c == Run(start, trace) && CopyInv(c) && c.delivered >= c0.delivered
    ensures c == c0.(delivered := c.delivered, pc := if res.Ok? then Flushing else Stopped)
    ensures old(w.written) <= w.written && w.written[|old(w.written)|..] == c.input[c0.delivered..c.delivered]
    ensures old(w.Healthy()) ==> w.Healthy() && (res.Err? ==> w.plan == [])
  {
    ghost var before := w.written;
    res := w.WriteAll(chunk);
    ghost var k := |w.written| - |before|;
    assert w.written[|before|..] == chunk[..k] == c0.input[c0.delivered..c0.delivered + k];
    c, trace := Deliver(start, c0, trace0, k);
    if res.Ok? {
      res := w.Flush();
    }
    if res.Err? {
      c, trace := Stop(start, c, trace);
    }
  }

  /** The second half of a round of the copy loop: write the buffer, flush, count.  `base` is what stood
      on the output before the copy began. */
  method WriteAndCount(w: Sink, chunk: seq<Byte>, counter: Counter, ghost count: nat, ghost base: seq<Byte>,
                       ghost start: Copy, ghost c0: Copy, ghost trace0: seq<CopyEvent>)
    returns (res: Result<()>, ghost c: Copy, ghost trace: seq<CopyEvent>)
    requires c0 == Run(start, trace0) && CopyInv(c0) && c0.input == start.input && c0.pc.Writing?
    requires chunk == c0.input[c0.delivered..c0.read] && c0.counted == c0.delivered
    requires base <= w.written && w.written[|base|..] == c0.input[..c0.delivered]
    requires WentUp(count, counter.value, c0.counted)
    modifies w, counter
    ensures c == Run(start, trace) && CopyInv(c) && c.input == c0.input && c.read == c0.read
    ensures base <= w.written && w.written[|base|..] == c.input[..c.delivered]
    ensures WentUp(count, counter.value, c.counted)
    ensures res.Ok? ==> c.pc.Reading? && c.counted == c0.counted + |chunk|
    ensures res.Err? ==> c.pc.Stopped? && c.counted == c0.counted
    ensures old(w.Healthy()) ==> w.Healthy() && (res.Err? ==> w.plan == [])
  {
    ghost var before := w.written;
    res, c, trace := WriteChunk(w, chunk, start, c0, trace0);
    AppendSlice(c.input, c0.delivered, c.delivered, base, before, w.written);
    if res.Ok? {
      WentUpMore(count, counter.value, c0.counted, |chunk|);
      counter.FetchAdd(|chunk|);
      c, trace := FlushAndCount(start, c, trace);
    }
  }

  /** One round of the copy loop: `Ok(0)` at the end of input, `Ok(n)` after n bytes went through. */
  method CopyRound(r: Source, w: Sink, buf: array<Byte>, counter: Counter,
                   ghost count: nat, ghost base: seq<Byte>,
                   ghost start: Copy, ghost c0: Copy, ghost trace0: seq<CopyEvent>)
    returns (res: Result<nat>, ghost c: Copy, ghost trace: seq<CopyEvent>)
    requires r.Valid() && buf.Length == BUFFER && base <= w.written
    requires Follows(start, trace0, c0, r.Bytes(), w.written[|base|..]) && c0.pc.Reading?
    requires WentUp(count, counter.value, c0.counted)
    modifies r`chunks, w, buf, counter
    ensures r.Valid() && base <= w.written
    ensures Follows(start, trace, c, r.Bytes(), w.written[|base|..])
    ensures res.Ok? && res.value == 0 ==> c.pc.Finished?
    ensures res.Ok? && res.value > 0 ==> c.pc.Reading? && c.read == c0.read + res.value
    ensures res.Err? ==> c.pc.Stopped?
    ensures WentUp(count, counter.value, c.counted)
    ensures c.counted == c0.counted + (if res.Ok? then res.value else 0)
    ensures old(w.Healthy()) ==> w.Healthy() && (res.Err? ==> w.plan == [] || (r.ending.Lost? && r.Bytes() == []))
    ensures res.Ok? && res.value == 0 ==> r.ending.CleanEof? && r.Bytes() == []
  {
    c, trace := c0, trace0;
    res := r.Read(buf, 0);
    if res.Err? {
      c, trace := Stop(start, c, trace);
      return;
    }
    if res.value == 0 {
      c, trace := Next(start, c, trace, EndOfInput);
      return;
    }
    c, trace := Receive(start, c, trace, res.value);
    var sent;
    sent, c, trace := WriteAndCount(w, buf[..res.value], counter, count, base, start, c, trace);
    if sent.Err? {
      res := Err(sent.error);
    }
  }

  /** The copy loop.  Its ghost results show that each execution, whatever the chunking, the
      partial writes and the point where it stops, is a run of the copy machine. */
  method CopyCount(r: Source, w: Sink, counter: Counter)
    returns (res: Result<nat>, ghost c: Copy, ghost trace: seq<CopyEvent>)
    requires r.Valid() && counter.value < TWO_64
    modifies r`chunks, w, counter
    ensures r.Valid() && counter.value < TWO_64
    ensures old(w.written) <= w.written
    ensures Follows(Start(old(r.Bytes())), trace, c, r.Bytes(), w.written[|old(w.written)|..])
    ensures WentUp(old(counter.value), counter.value, c.counted)
    ensures res.Ok? <==> c.pc.Finished?
    ensures res.Ok? ==> WentUp(0, res.value, c.counted)
    ensures old(w.Healthy()) ==> w.Healthy() && (w.plan == [] || r.Bytes() == [])
  {
    var buf := new Byte[BUFFER];
    var total: nat := 0;
    ghost var start, base, count := Start(r.Bytes()), w.written, counter.value;
    c, trace := start, [];
    while true
      invariant r.Valid() && fresh(buf) && base <= w.written
      invariant Follows(start, trace, c, r.Bytes(), w.written[|base|..]) && c.pc.Reading?
      invariant WentUp(count, counter.value, c.counted) && WentUp(0, total, c.counted)
      invariant old(w.Healthy()) ==> w.Healthy()
      decreases |r.Bytes()|
    {
      ghost var c0 := c;
      var n;
      n, c, trace := CopyRound(r, w, buf, counter, count, base, start, c, trace);
      if n.Err? {
        return n, c, trace;
      }
      if n.value == 0 {
        return Ok(total), c, trace;
      }
      WentUpMore(0, total, c0.counted, n.value);
      total := (total + n.value) % TWO_64;
    }
  }

  /** Output that stood at input[..from] and grew by input[from..to] stands at input[..to]. */
  lemma AppendSlice(input: seq<Byte>, from: nat, to: nat, base: seq<Byte>, before: seq<Byte>, after: seq<Byte>)
    requires from <= to <= |input|
    requires base <= before <= after
    requires before[|base|..] == input[..from] && after[|before|..] == input[from..to]
    ensures base <= after && after[|base|..] == input[..to]
  {
    assert after == base + before[|base|..] + after[|before|..];
    assert input[..from] + input[from..to] == input[..to];
  }

  // ----- one direction of a relay as its callers see it -----

  /** Writing took a stream from `before` to `after`, and what it added is a first part of `all`. */
  predicate AddedPart(before: seq<Byte>, after: seq<Byte>, all: seq<Byte>) {
    before <= after && after[|before|..] <= all
  }

  /** ... and nothing is missing between what was added and what is left. */
  predicate Conveyed(before: seq<Byte>, after: seq<Byte>, all: seq<Byte>, left: seq<Byte>) {
    before <= after && after[|before|..] + left == all
  }

  lemma PartOfFrame(before: seq<Byte>, after: seq<Byte>, f: seq<Byte>, rest: seq<Byte>)
    requires before <= after <= before + f
    ensures AddedPart(before, after, f + rest)
  {
    assert f <= f + rest;
  }

  lemma FrameAndPart(before: seq<Byte>, after: seq<Byte>, f: seq<Byte>, rest: seq<Byte>)
    requires AddedPart(before + f, after, rest)
    ensures AddedPart(before, after, f + rest)
  {
    assert after[|before|..] == f + after[|before + f|..];
  }

  /** Conveying more of what was left, all of it or a first part. */
  lemma ConveyMore(before: seq<Byte>, middle: seq<Byte>, all: seq<Byte>, left: seq<Byte>,
                   more: seq<Byte>, left': seq<Byte>)
    requires Conveyed(before, middle, all, left) && left == more + left'
    ensures Conveyed(before, middle + more, all, left')
  {
    assert (middle + more)[|before|..] == middle[|before|..] + more;
    assert middle[|before|..] + more + left' == middle[|before|..] + (more + left');
  }

  lemma AddMore(before: seq<Byte>, middle: seq<Byte>, all: seq<Byte>, left: seq<Byte>,
                more: seq<Byte>, after: seq<Byte>)
    requires Conveyed(before, middle, all, left) && more <= left && middle <= after <= middle + more
    ensures AddedPart(before, after, all)
  {
    assert after[|before|..] == middle[|before|..] + after[|middle|..];
    assert after[|middle|..] <= left;
    assert middle[|before|..] + after[|middle|..] <= middle[|before|..] + left;
  }

  lemma ConveyedIsPart(before: seq<Byte>, after: seq<Byte>, all: seq<Byte>, left: seq<Byte>)
    requires Conveyed(before, after, all, left)
    ensures AddedPart(before, after, all)
  {
  }

  /** A counter went up by what was delivered, or by at most one buffer less. */
  ghost predicate Counts(before: nat, after: nat, delivered: nat) {
    exists k: nat :: WentUp(before, after, k) && k <= delivered <= k + BUFFER
  }

  /** A copy loop, without the account of how it went: it goes on until its input has no more or its
      output takes no more. */
  method CopyPart(r: Source, w: Sink, counter: Counter)
    requires r.Valid() && counter.value < TWO_64
    modifies r`chunks, w, counter
    ensures r.Valid() && AddedPart(old(w.written), w.written, old(r.Bytes()))
    ensures Counts(old(counter.value), counter.value, |w.written| - |old(w.written)|)
    ensures old(w.Healthy()) ==> w.Healthy() && (w.plan == [] || r.Bytes() == [])
  {
    var _, c, _ := CopyCount(r, w, counter);
    assert w.written[|old(w.written)|..] == c.input[..c.delivered];
    assert WentUp(old(counter.value), counter.value, c.counted);
  }

  lemma NothingCounted(value: nat)
    requires value < TWO_64
    ensures Counts(value, value, 0)
  {
    assert WentUp(value, value, 0);
  }

  /** The whole target frame is out. */
  predicate Announced(before: seq<Byte>, after: seq<Byte>, target: Text) {
    Fits(target) && before + StringFrame(target) <= after
  }

  /** One visitor connection on the server: the target frame, then both copy directions until one
      ends.  Each direction may be cut at any point, by its streams or because the other ended. */
  method ProxyConnection(sRead: Source, sWrite: Sink, cRead: Source, cWrite: Sink, target: Text,
                         bytesOut: Counter, bytesIn: Counter)
    requires sRead != cRead && sWrite != cWrite && bytesOut != bytesIn
    requires sRead.Valid() && cRead.Valid() && bytesOut.value < TWO_64 && bytesIn.value < TWO_64
    modifies sRead`chunks, sWrite, cRead`chunks, cWrite, bytesOut, bytesIn
    ensures sRead.Valid() && cRead.Valid()
    ensures !Fits(target) ==> sWrite.written == old(sWrite.written)
    ensures Fits(target) ==> AddedPart(old(sWrite.written), sWrite.written, StringFrame(target) + old(cRead.Bytes()))
    ensures AddedPart(old(cWrite.written), cWrite.written, old(sRead.Bytes()))
    ensures cWrite.written != old(cWrite.written) || cRead.chunks != old(cRead.chunks)
            || bytesIn.value != old(bytesIn.value) || bytesOut.value != old(bytesOut.value)
            ==> Announced(old(sWrite.written), sWrite.written, target)
    ensures Announced(old(sWrite.written), sWrite.written, target) ==>
              Counts(old(bytesOut.value), bytesOut.value,
                     |sWrite.written| - |old(sWrite.written)| - |StringFrame(target)|)
    ensures Counts(old(bytesIn.value), bytesIn.value, |cWrite.written| - |old(cWrite.written)|)
    ensures old(sWrite.Healthy()) && old(cWrite.Healthy()) && Fits(target) ==>
              sWrite.plan == [] || (cRead.Bytes() == [] && (cWrite.plan == [] || sRead.Bytes() == []))
  {
    ghost var before := sWrite.written;
    NothingCounted(bytesOut.value);
    NothingCounted(bytesIn.value);
    var announced := Protocol.WriteTarget(sWrite, target);
    if announced.Err? {
      if Fits(target) {
        PartOfFrame(before, sWrite.written, StringFrame(target), cRead.Bytes());
      }
      return;
    }
    ghost var all := cRead.Bytes();
    CopyPart(cRead, sWrite, bytesOut);
    FrameAndPart(before, sWrite.written, StringFrame(target), all);
    CopyPart(sRead, cWrite, bytesIn);
  }

  /** Which side of a two-way copy has data, or that neither had any for the idle time. */
  datatype Ready = FromA | FromB | Idle

  /** How many bytes went out since `before`, as a 64-bit number. */
  function Tally(before: seq<Byte>, after: seq<Byte>): nat
    requires before <= after
  {
    (|after| - |before|) % TWO_64
  }

  lemma TallyMore(before: seq<Byte>, middle: seq<Byte>, after: seq<Byte>)
    requires before <= middle <= after
    ensures before <= after
    ensures Tally(before, after) == (Tally(before, middle) + (|after| - |middle|)) % TWO_64
  {
    WrappedAdd(|middle| - |before|, |after| - |middle|);
  }

  lemma NothingYet(written: seq<Byte>, all: seq<Byte>)
    ensures Conveyed(written, written, all, all) && AddedPart(written, written, all) && Tally(written, written) == 0
  {
    assert [] + all == all;
  }

  /** One arm of the two-way copy: one read, all of it written to the other side, and added to the
      total.  `Ok(false)` at the end of input. */
  method Pump(r: Source, w: Sink, buf: array<Byte>, total: nat, ghost before: seq<Byte>, ghost all: seq<Byte>)
    returns (more: Result<bool>, sum: nat)
    requires r.Valid() && buf.Length == BUFFER && Conveyed(before, w.written, all, r.Bytes())
    requires total == Tally(before, w.written)
    modifies r`chunks, w, buf
    ensures r.Valid() && AddedPart(before, w.written, all)
    ensures more.Ok? ==> Conveyed(before, w.written, all, r.Bytes()) && sum == Tally(before, w.written)
    ensures more.Ok? && !more.value ==> r.Bytes() == []
    ensures |w.written| >= |old(w.written)| + (if more.Ok? && more.value then 1 else 0)
    ensures old(w.Healthy()) ==> w.Healthy() && (more.Err? ==> w.plan == [] || r.Bytes() == [])
  {
    sum := total;
    ghost var left, start := r.Bytes(), w.written;
    ConveyedIsPart(before, start, all, left);
    var n := r.Read(buf, 0);
    if n.Err? {
      return Err(n.error), sum;
    }
    if n.value == 0 {
      return Ok(false), sum;
    }
    ghost var got := left[..n.value];
    assert buf[..n.value] == got && left == got + left[n.value..];
    var sent := w.WriteAll(buf[..n.value]);
    if sent.Err? {
      AddMore(before, start, all, left, got, w.written);
      return Err(sent.error), sum;
    }
    ConveyMore(before, start, all, left, got, r.Bytes());
    ConveyedIsPart(before, w.written, all, r.Bytes());
    TallyMore(before, start, w.written);
    sum := (total + n.value) % TWO_64;
    more := Ok(true);
  }

  /** How many of the first n turns are this side's. */
  function Turns(schedule: seq<Ready>, n: nat, side: Ready): nat
    requires n <= |schedule|
  {
    if n == 0 then 0 else Turns(schedule, n - 1, side) + (if schedule[n - 1] == side then 1 else 0)
  }

  /** The first turns of a schedule were taken: none was idle, and each moved something. */
  predicate TookTurns(schedule: seq<Ready>, turns: nat, toB: nat, toA: nat) {
    && turns <= |schedule| && Turns(schedule, turns, Idle) == 0
    && Turns(schedule, turns, FromA) <= toB && Turns(schedule, turns, FromB) <= toA
  }

  lemma FewerTurns(schedule: seq<Ready>, turns: nat, toB: nat, toA: nat, toB': nat, toA': nat)
    requires TookTurns(schedule, turns, toB, toA) && toB <= toB' && toA <= toA'
    ensures TookTurns(schedule, turns, toB', toA')
  {
  }

  lemma OneMoreTurn(schedule: seq<Ready>, turns: nat, toB: nat, toA: nat, toB': nat, toA': nat)
    requires TookTurns(schedule, turns, toB, toA) && turns < |schedule| && !schedule[turns].Idle?
    requires toB' >= toB + (if schedule[turns].FromA? then 1 else 0)
    requires toA' >= toA + (if schedule[turns].FromB? then 1 else 0)
    ensures TookTurns(schedule, turns + 1, toB', toA')
  {
  }

  /** Why a turn over healthy streams is the last: the side whose turn it is has no more or cannot be
      passed on, or nothing happened for the idle time. */
  predicate LastTurn(ready: Ready, leftA: seq<Byte>, leftB: seq<Byte>, planA: seq<nat>, planB: seq<nat>) {
    match ready
    case FromA => leftA == [] || planB == []
    case FromB => leftB == [] || planA == []
    case Idle => true
  }

  /** One round of the two-way copy. */
  method TakeTurn(schedule: seq<Ready>, i: nat, aRead: Source, aWrite: Sink, bRead: Source, bWrite: Sink,
                  aBuf: array<Byte>, bBuf: array<Byte>, ab: nat, ba: nat,
                  ghost startA: seq<Byte>, ghost startB: seq<Byte>, ghost allA: seq<Byte>, ghost allB: seq<Byte>)
    returns (more: Result<bool>, ab': nat, ba': nat)
    requires aRead != bRead && aWrite != bWrite && aRead.Valid() && bRead.Valid() && i < |schedule|
    requires aBuf != bBuf && aBuf.Length == BUFFER && bBuf.Length == BUFFER
    requires Conveyed(startB, bWrite.written, allA, aRead.Bytes()) && ab == Tally(startB, bWrite.written)
    requires Conveyed(startA, aWrite.written, allB, bRead.Bytes()) && ba == Tally(startA, aWrite.written)
    requires TookTurns(schedule, i, |bWrite.written| - |startB|, |aWrite.written| - |startA|)
    modifies aRead`chunks, aWrite, bRead`chunks, bWrite, aBuf, bBuf
    ensures aRead.Valid() && bRead.Valid()
    ensures AddedPart(startB, bWrite.written, allA) && AddedPart(startA, aWrite.written, allB)
    ensures more.Ok? ==> Conveyed(startB, bWrite.written, allA, aRead.Bytes()) && ab' == Tally(startB, bWrite.written)
    ensures more.Ok? ==> Conveyed(startA, aWrite.written, allB, bRead.Bytes()) && ba' == Tally(startA, aWrite.written)
    ensures more.Ok? && !more.value ==> if schedule[i].FromA? then aRead.Bytes() == [] else bRead.Bytes() == []
    ensures TookTurns(schedule, if more.Ok? && more.value then i + 1 else i,
                      |bWrite.written| - |startB|, |aWrite.written| - |startA|)
    ensures old(aWrite.Healthy()) ==> aWrite.Healthy()
    ensures old(bWrite.Healthy()) ==> bWrite.Healthy()
    ensures (more.Ok? ==> !more.value) && old(aWrite.Healthy()) && old(bWrite.Healthy()) ==>
              LastTurn(schedule[i], aRead.Bytes(), bRead.Bytes(), aWrite.plan, bWrite.plan)
  {
    ab', ba' := ab, ba;
    ghost var toB, toA := |bWrite.written| - |startB|, |aWrite.written| - |startA|;
    ConveyedIsPart(startB, bWrite.written, allA, aRead.Bytes());
    ConveyedIsPart(startA, aWrite.written, allB, bRead.Bytes());
    match schedule[i] {
      case FromA => more, ab' := Pump(aRead, bWrite, aBuf, ab, startB, allA);
      case FromB => more, ba' := Pump(bRead, aWrite, bBuf, ba, startA, allB);
      case Idle => more := Err(ConnectionLost);
    }
    FewerTurns(schedule, i, toB, toA, |bWrite.written| - |startB|, |aWrite.written| - |startA|);
    if more.Ok? && more.value {
      OneMoreTurn(schedule, i, toB, toA, |bWrite.written| - |startB|, |aWrite.written| - |startA|);
    }
  }

  /** The client's two-way copy.  `schedule` is the order in which the sides become ready; when it
      is used up the copying future was dropped.  The ghost result is the number of turns taken. */
  method CopyBidirectionalIdle(aRead: Source, aWrite: Sink, bRead: Source, bWrite: Sink, schedule: seq<Ready>)
    returns (r: Result<(nat, nat)>, ghost turns: nat)
    requires aRead != bRead && aWrite != bWrite && aRead.Valid() && bRead.Valid()
    modifies aRead`chunks, aWrite, bRead`chunks, bWrite
    ensures aRead.Valid() && bRead.Valid()
    ensures AddedPart(old(bWrite.written), bWrite.written, old(aRead.Bytes()))
    ensures AddedPart(old(aWrite.written), aWrite.written, old(bRead.Bytes()))
    ensures r.Ok? ==> turns < |schedule|
                      && (if schedule[turns].FromA? then aRead.Bytes() == [] else bRead.Bytes() == [])
    ensures r.Ok? ==> Conveyed(old(bWrite.written), bWrite.written, old(aRead.Bytes()), aRead.Bytes())
                      && Conveyed(old(aWrite.written), aWrite.written, old(bRead.Bytes()), bRead.Bytes())
    ensures r.Ok? ==> r.value.0 == Tally(old(bWrite.written), bWrite.written)
                      && r.value.1 == Tally(old(aWrite.written), aWrite.written)
    ensures TookTurns(schedule, turns, |bWrite.written| - |old(bWrite.written)|,
                      |aWrite.written| - |old(aWrite.written)|)
    ensures turns < |schedule| && old(aWrite.Healthy()) && old(bWrite.Healthy()) ==>
              LastTurn(schedule[turns], aRead.Bytes(), bRead.Bytes(), aWrite.plan, bWrite.plan)
  {
    var aBuf, bBuf := new Byte[BUFFER], new Byte[BUFFER];
    var ab, ba := 0, 0;
    ghost var allA, allB, startA, startB := aRead.Bytes(), bRead.Bytes(), aWrite.written, bWrite.written;
    NothingYet(startA, allB);
    NothingYet(startB, allA);
    r, turns := Err(ConnectionLost), 0;
    var i := 0;
    while i < |schedule|
      invariant 0 <= i <= |schedule| && turns == i && r == Err(ConnectionLost)
      invariant aRead.Valid() && bRead.Valid() && fresh(aBuf) && fresh(bBuf)
      invariant Conveyed(startB, bWrite.written, allA, aRead.Bytes()) && ab == Tally(startB, bWrite.written)
      invariant Conveyed(startA, aWrite.written, allB, bRead.Bytes()) && ba == Tally(startA, aWrite.written)
      invariant TookTurns(schedule, i, |bWrite.written| - |startB|, |aWrite.written| - |startA|)
      invariant old(aWrite.Healthy()) ==> aWrite.Healthy()
      invariant old(bWrite.Healthy()) ==> bWrite.Healthy()
    {
      var more;
      more, ab, ba := TakeTurn(schedule, i, aRead, aWrite, bRead, bWrite, aBuf, bBuf, ab, ba,
                               startA, startB, allA, allB);
      if more.Err? {
        r := Err(more.error);
        break;
      }
      if !more.value {
        r := Ok((ab, ba));
        break;
      }
      i, turns := i + 1, i + 1;
    }
    if i == |schedule| {
      ConveyedIsPart(startA, aWrite.written, allB, bRead.Bytes());
      ConveyedIsPart(startB, bWrite.written, allA, aRead.Bytes());
    }
  }

  /** A stream opened by the server, on the client: read the target, dial it, copy both ways. */
  method HandleClientStream(sRead: Source, sWrite: Sink, dialOk: bool, localRead: Source, localWrite: Sink,
                            schedule: seq<Ready>) returns (dialed: Option<Text>, ghost turns: nat)
    requires sRead != localRead && sWrite != localWrite && sRead.Valid() && localRead.Valid()
    modifies sRead`chunks, sWrite, localRead`chunks, localWrite
    ensures match ParseString(old(sRead.Bytes()))
            case Rejected(_) => dialed == None
            case Parsed(target, rest) =>
              dialed == Some(target) && AddedPart(old(localWrite.written), localWrite.written, rest)
    ensures AddedPart(old(sWrite.written), sWrite.written, old(localRead.Bytes()))
    ensures dialed.None? || !dialOk ==>
              localWrite.written == old(localWrite.written) && sWrite.written == old(sWrite.written)
    ensures dialed.Some? && dialOk ==>
              TookTurns(schedule, turns, |localWrite.written| - |old(localWrite.written)|,
                        |sWrite.written| - |old(sWrite.written)|)
    ensures dialed.Some? && dialOk && turns < |schedule| && old(sWrite.Healthy()) && old(localWrite.Healthy()) ==>
              LastTurn(schedule[turns], sRead.Bytes(), localRead.Bytes(), sWrite.plan, localWrite.plan)
  {
    turns := 0;
    var target := Protocol.ReadString(sRead);
    if target.Err? {
      return None, turns;
    }
    dialed := Some(target.value);
    if dialOk {
      var _, taken := CopyBidirectionalIdle(sRead, sWrite, localRead, localWrite, schedule);
      turns := taken;
    }
  }

  /** The client's reading of what the server put on the stream: the target, and then visitor bytes. */
  lemma ForwardWire(target: Text, visitor: seq<Byte>, arrived: seq<Byte>, dialed: Text, rest: seq<Byte>)
    requires Fits(target) && arrived <= StringFrame(target) + visitor
    requires ParseString(arrived) == Parsed(dialed, rest)
    ensures dialed == target && rest <= visitor && arrived == StringFrame(target) + rest
  {
    StringExact(arrived, dialed, rest);
    var whole := StringFrame(target) + visitor;
    var tail := whole[|arrived|..];
    assert whole == StringFrame(dialed) + (rest + tail) by {
      assert whole == arrived + tail;
    }
    StringExact(whole, dialed, rest + tail);
    StringExact(whole, target, visitor);
    assert visitor == rest + tail;
  }

  lemma PartOfPart(before: seq<Byte>, after: seq<Byte>, part: seq<Byte>, all: seq<Byte>)
    requires AddedPart(before, after, part) && part <= all
    ensures AddedPart(before, after, all)
  {
  }

  /** Both loops in series, in both directions.  What ProxyConnection promises of the stream (`wire`) and
      of the visitor's connection (`shown`), and what HandleClientStream promises of the local service's
      (`local`) and of its end of the stream (`back`), with any part of the bytes in flight arrived at
      the other end: the client dialled exactly the server's target, the service got the visitor's
      bytes from their first one on, unchanged and without gaps, and the visitor the service's. */
  lemma Transparent(target: Text, visitor: seq<Byte>, service: seq<Byte>,
                    wire0: seq<Byte>, wire: seq<Byte>, arrived: seq<Byte>, dialed: Text, rest: seq<Byte>,
                    local0: seq<Byte>, local: seq<Byte>, back0: seq<Byte>, back: seq<Byte>,
                    returned: seq<Byte>, shown0: seq<Byte>, shown: seq<Byte>)
    requires Fits(target) && AddedPart(wire0, wire, StringFrame(target) + visitor)
    requires arrived <= wire[|wire0|..] && ParseString(arrived) == Parsed(dialed, rest)
    requires AddedPart(local0, local, rest)
    requires AddedPart(back0, back, service)
    requires returned <= back[|back0|..]
    requires AddedPart(shown0, shown, returned)
    ensures dialed == target && AddedPart(local0, local, visitor) && AddedPart(shown0, shown, service)
    ensures arrived == StringFrame(target) + rest
  {
    ForwardWire(target, visitor, arrived, dialed, rest);
    PartOfPart(local0, local, rest, visitor);
    PartOfPart(shown0, shown, returned, service);
  }
}
