/** The once-a-second sampler of src/server.rs and the sample history of src/state.rs. */
module Sampler {
  import opened Broadcast
  import opened Common
  import Copies = CopyMachine

  const HISTORY := 120
  const IDLE_LIMIT := 5

  datatype Sample = Sample(rateIn: nat, rateOut: nat, active: nat)

  /** What a tick finds: the counter readings, and what happened to the broadcaster since the
      tick before. */
  datatype Tick = Tick(curIn: nat, curOut: nat, active: nat, before: seq<HubEvent>)

  datatype Sampler = Sampler(prevIn: nat, prevOut: nat, idle: nat, hasSubs: bool, history: seq<Sample>,
                             hub: Hub, ticks: nat)

  function Saturating(a: nat, b: nat): nat {
    if a >= b then a - b else 0
  }

  /** The last `HISTORY` elements. */
  function Newest(s: seq<Sample>): seq<Sample> {
    if |s| > HISTORY then s[|s| - HISTORY..] else s
  }

  function TickStep(s: Sampler, t: Tick): Sampler {
    var hub := HubRun(s.hub, t.before);
    var sample := Sample(Saturating(t.curIn, s.prevIn), Saturating(t.curOut, s.prevOut), t.active);
    var checks := s.hasSubs || s.idle >= IDLE_LIMIT;
    var counted := if checks then HubStep(hub, CountSubscribers) else hub;
    var subs := if checks then |counted.clients| > 0 else s.hasSubs;
    Sampler(t.curIn, t.curOut, if checks then 0 else s.idle + 1, subs, Newest(s.history + [sample]),
            if subs then HubStep(counted, Send(Stats(s.ticks))) else counted, s.ticks + 1)
  }

  function TickRun(s: Sampler, ticks: seq<Tick>): Sampler
    decreases |ticks|
  {
    if ticks == [] then s else TickRun(TickStep(s, ticks[0]), ticks[1..])
  }

  // ----- the history -----

  /** Every sample a sequence of ticks takes, from the readings before them. */
  function Samples(prevIn: nat, prevOut: nat, ticks: seq<Tick>): seq<Sample>
    ensures |Samples(prevIn, prevOut, ticks)| == |ticks|
    decreases |ticks|
  {
    if ticks == [] then []
    else [Sample(Saturating(ticks[0].curIn, prevIn), Saturating(ticks[0].curOut, prevOut), ticks[0].active)]
         + Samples(ticks[0].curIn, ticks[0].curOut, ticks[1..])
  }

  lemma {:induction false} HistoryExact(s: Sampler, ticks: seq<Tick>)
    requires |s.history| <= HISTORY
    ensures TickRun(s, ticks).history == Newest(s.history + Samples(s.prevIn, s.prevOut, ticks))
    decreases |ticks|
  {
    if ticks == [] {
      assert s.history + [] == s.history;
    } else {
      var s' := TickStep(s, ticks[0]);
      HistoryExact(s', ticks[1..]);
      var first := Samples(s.prevIn, s.prevOut, ticks)[0];
      var rest := Samples(s'.prevIn, s'.prevOut, ticks[1..]);
      assert s.history + Samples(s.prevIn, s.prevOut, ticks) == s.history + [first] + rest;
      assert Newest(Newest(s.history + [first]) + rest) == Newest(s.history + [first] + rest);
    }
  }

  /** Tick i samples the growth since tick i - 1 (since the first readings, for tick 0), or nothing when
      a counter went down, together with the number of connections it found. */
  predicate SampleOf(sample: Sample, prevIn: nat, prevOut: nat, ticks: seq<Tick>, i: nat)
    requires i < |ticks|
  {
    var fromIn := if i == 0 then prevIn else ticks[i - 1].curIn;
    var fromOut := if i == 0 then prevOut else ticks[i - 1].curOut;
    && (if fromIn <= ticks[i].curIn then fromIn + sample.rateIn == ticks[i].curIn else sample.rateIn == 0)
    && (if fromOut <= ticks[i].curOut then fromOut + sample.rateOut == ticks[i].curOut else sample.rateOut == 0)
    && sample.active == ticks[i].active
  }

  lemma {:induction false} SamplesAt(prevIn: nat, prevOut: nat, ticks: seq<Tick>, i: nat)
    requires i < |ticks|
    ensures SampleOf(Samples(prevIn, prevOut, ticks)[i], prevIn, prevOut, ticks, i)
    decreases |ticks|
  {
    if i > 0 {
      SamplesAt(ticks[0].curIn, ticks[0].curOut, ticks[1..], i - 1);
    }
  }

  lemma FreshHistory(s: Sampler, ticks: seq<Tick>)
    requires s.history == []
    ensures TickRun(s, ticks).history == Newest(Samples(s.prevIn, s.prevOut, ticks))
  {
    HistoryExact(s, ticks);
    assert s.history + Samples(s.prevIn, s.prevOut, ticks) == Samples(s.prevIn, s.prevOut, ticks);
  }

  lemma NewestAt(all: seq<Sample>, j: nat)
    ensures |Newest(all)| == if |all| > 120 then 120 else |all|
    ensures j < |Newest(all)| ==> Newest(all)[j] == all[|all| - |Newest(all)| + j]
  {
  }

  /** Entry j of the history, over any number of ticks from a fresh start. */
  lemma HistoryAt(s: Sampler, ticks: seq<Tick>, j: nat)
    requires s.history == []
    ensures var history := TickRun(s, ticks).history;
            && |history| == (if |ticks| > 120 then 120 else |ticks|)
            && (j < |history| ==> SampleOf(history[j], s.prevIn, s.prevOut, ticks, |ticks| - |history| + j))
  {
    var all := Samples(s.prevIn, s.prevOut, ticks);
    FreshHistory(s, ticks);
    NewestAt(all, j);
    if j < |Newest(all)| {
      SamplesAt(s.prevIn, s.prevOut, ticks, |ticks| - |Newest(all)| + j);
    }
  }

  // ----- telescoping -----

  /** One of the two byte counters: visitors' bytes coming in, or going out to clients. */
  datatype Direction = In | Out

  function Rate(s: Sample, d: Direction): nat {
    if d.In? then s.rateIn else s.rateOut
  }

  function Reading(t: Tick, d: Direction): nat {
    if d.In? then t.curIn else t.curOut
  }

  function SumRates(samples: seq<Sample>, d: Direction): nat {
    if samples == [] then 0 else Rate(samples[0], d) + SumRates(samples[1..], d)
  }

  /** The counter never goes down between these ticks. */
  predicate NonDecreasing(prev: nat, ticks: seq<Tick>, d: Direction)
    decreases |ticks|
  {
    ticks == [] || (prev <= Reading(ticks[0], d) && NonDecreasing(Reading(ticks[0], d), ticks[1..], d))
  }

  function LastReading(prev: nat, ticks: seq<Tick>, d: Direction): nat {
    if ticks == [] then prev else Reading(ticks[|ticks| - 1], d)
  }

  /** The rates add up to the change of the counter exactly when it never went down (as a 64-bit
      counter does when it wraps); otherwise saturation makes them too large. */
  lemma {:induction false} RatesTelescope(prevIn: nat, prevOut: nat, ticks: seq<Tick>, d: Direction)
    ensures var prev, sum := if d.In? then prevIn else prevOut, SumRates(Samples(prevIn, prevOut, ticks), d);
            && LastReading(prev, ticks, d) <= prev + sum
            && (LastReading(prev, ticks, d) == prev + sum <==> NonDecreasing(prev, ticks, d))
    decreases |ticks|
  {
    if ticks == [] {
    } else {
      var t := ticks[0];
      var prev := if d.In? then prevIn else prevOut;
      RatesTelescope(t.curIn, t.curOut, ticks[1..], d);
      assert LastReading(prev, ticks, d) == LastReading(Reading(t, d), ticks[1..], d);
      var all := Samples(prevIn, prevOut, ticks);
      assert all[1..] == Samples(t.curIn, t.curOut, ticks[1..]);
    }
  }

  /** Cutting samples off the front leaves the samples of the later ticks. */
  lemma {:induction false} SamplesSuffix(prevIn: nat, prevOut: nat, ticks: seq<Tick>, k: nat)
    requires 0 < k <= |ticks|
    ensures Samples(prevIn, prevOut, ticks)[k..] == Samples(ticks[k - 1].curIn, ticks[k - 1].curOut, ticks[k..])
    decreases |ticks|
  {
    var all := Samples(prevIn, prevOut, ticks);
    var rest := Samples(ticks[0].curIn, ticks[0].curOut, ticks[1..]);
    assert all[1..] == rest;
    if k > 1 {
      SamplesSuffix(ticks[0].curIn, ticks[0].curOut, ticks[1..], k - 1);
      assert all[k..] == rest[k - 1..];
      assert ticks[k..] == ticks[1..][k - 1..];
    }
  }

  /** A full window on the dashboard: its rates add up to the difference of the readings at its
      ends if and only if the counter did not go down inside it. */
  lemma WindowTelescopes(s: Sampler, ticks: seq<Tick>, d: Direction)
    requires s.history == [] && |ticks| > HISTORY
    ensures var k := |ticks| - HISTORY;
            var from := Reading(ticks[k - 1], d);
            from + SumRates(TickRun(s, ticks).history, d) == Reading(ticks[|ticks| - 1], d)
            <==> NonDecreasing(from, ticks[k..], d)
  {
    var k := |ticks| - HISTORY;
    FreshHistory(s, ticks);
    SamplesSuffix(s.prevIn, s.prevOut, ticks, k);
    RatesTelescope(ticks[k - 1].curIn, ticks[k - 1].curOut, ticks[k..], d);
  }

  /** The readings of these ticks are the shared counter of a fleet of copies, at moments one after
      the other, the first not before `from`. */
  predicate ReadsFleet(events: seq<Copies.FleetEvent>, from: nat, moments: seq<nat>, ticks: seq<Tick>, d: Direction)
    requires from <= |events|
  {
    && |moments| == |ticks|
    && (forall i | 0 <= i < |moments| :: from <= moments[i] <= |events|)
    && (forall i, j | 0 <= i < j < |moments| :: moments[i] <= moments[j])
    && (forall i | 0 <= i < |ticks| :: Reading(ticks[i], d) == Copies.FleetRun(events[..moments[i]]).counter)
  }

  /** While copies keep adding to the counter, however they interleave with the sampler, no rate is
      ever cut off, as long as fewer than 2^64 bytes have gone through. */
  lemma {:induction false} CopiesNeverSaturate(events: seq<Copies.FleetEvent>, from: nat, moments: seq<nat>,
                                               ticks: seq<Tick>, d: Direction)
    requires Copies.TotalCounted(Copies.FleetRun(events).copies) < TWO_64
    requires from <= |events| && ReadsFleet(events, from, moments, ticks, d)
    ensures NonDecreasing(Copies.FleetRun(events[..from]).counter, ticks, d)
    decreases |ticks|
  {
    if ticks == [] {
    } else {
      Copies.ReadingsGrow(events, from, moments[0]);
      CopiesNeverSaturate(events, moments[0], moments[1..], ticks[1..], d);
    }
  }

  /** So the rates shown add up to exactly the bytes counted between the two ends. */
  lemma RatesAddUp(events: seq<Copies.FleetEvent>, from: nat, moments: seq<nat>, ticks: seq<Tick>, d: Direction,
                   prevIn: nat, prevOut: nat)
    requires Copies.TotalCounted(Copies.FleetRun(events).copies) < TWO_64
    requires from <= |events| && ReadsFleet(events, from, moments, ticks, d) && ticks != []
    requires (if d.In? then prevIn else prevOut) == Copies.FleetRun(events[..from]).counter
    ensures Copies.FleetRun(events[..from]).counter + SumRates(Samples(prevIn, prevOut, ticks), d)
            == Copies.FleetRun(events[..moments[|moments| - 1]]).counter
  {
    CopiesNeverSaturate(events, from, moments, ticks, d);
    RatesTelescope(prevIn, prevOut, ticks, d);
  }

  // ----- a subscriber hears from the sampler within six ticks -----

  /** The number of ticks after which the sampler must have looked for subscribers. */
  function Patience(s: Sampler): nat {
    if s.hasSubs || s.idle >= IDLE_LIMIT then 1 else IDLE_LIMIT + 1 - s.idle
  }

  /** Among the messages from position n on there is the one of a tick from `first` on, before `end`. */
  ghost predicate StatsAfter(sent: seq<Message>, n: nat, first: nat, end: nat) {
    exists k: nat, tick: nat :: n <= k < |sent| && first <= tick < end && sent[k] == Stats(tick)
  }

  /** A tick that looks for subscribers broadcasts its own stats, once and last, exactly when it finds
      one, and then the next tick looks too; any other tick broadcasts nothing. */
  lemma TickSends(s: Sampler, t: Tick)
    requires HubInv(s.hub)
    ensures var h := HubRun(s.hub, t.before);
            var found := (s.hasSubs || s.idle >= IDLE_LIMIT) && exists id: nat :: Live(h, id);
            && TickStep(s, t).hub.sent == h.sent + (if found then [Stats(s.ticks)] else [])
            && TickStep(s, t).hasSubs == found
  {
    HubOnlyGrows(s.hub, t.before);
    var h := HubRun(s.hub, t.before);
    PruneKeeps(h.clients, h.closed);
    var kept := Prune(h.clients, h.closed);
    if kept != [] {
      assert kept[0] in kept;
      assert Live(h, kept[0]);
    }
    if id: nat :| Live(h, id) {
      assert id in kept;
    }
    assert h.sent + [] == h.sent;
  }

  lemma {:induction false} HubOnlyGrows(h: Hub, events: seq<HubEvent>)
    requires HubInv(h)
    ensures HubInv(HubRun(h, events))
    ensures h.sent <= HubRun(h, events).sent && h.joined <= HubRun(h, events).joined
    ensures h.closed <= HubRun(h, events).closed
  {
    if events == [] {
    } else {
      HubOnlyGrows(h, events[..|events| - 1]);
      HubStepKeepsInv(HubRun(h, events[..|events| - 1]), events[|events| - 1]);
    }
  }

  lemma TickOnlyGrows(s: Sampler, t: Tick)
    requires HubInv(s.hub)
    ensures var h := TickStep(s, t).hub;
            HubInv(h) && s.hub.sent <= h.sent && s.hub.joined <= h.joined && s.hub.closed <= h.closed
    ensures forall id: nat | id < |s.hub.inboxes| && Live(TickStep(s, t).hub, id)
                             && (s.hasSubs || s.idle >= IDLE_LIMIT) ::
              StatsAfter(TickStep(s, t).hub.sent, |s.hub.sent|, s.ticks, s.ticks + 1)
  {
    HubOnlyGrows(s.hub, t.before);
    var h := HubRun(s.hub, t.before);
    HubStepKeepsInv(h, CountSubscribers);
    var counted := HubStep(h, CountSubscribers);
    HubStepKeepsInv(h, Send(Stats(s.ticks)));
    HubStepKeepsInv(counted, Send(Stats(s.ticks)));
    forall id: nat | id < |s.hub.inboxes| && Live(TickStep(s, t).hub, id) && (s.hasSubs || s.idle >= IDLE_LIMIT)
      ensures StatsAfter(TickStep(s, t).hub.sent, |s.hub.sent|, s.ticks, s.ticks + 1)
    {
      assert Live(counted, id);
      assert id in counted.clients;
      var sent := TickStep(s, t).hub.sent;
      assert sent[|h.sent|] == Stats(s.ticks);
    }
  }

  lemma {:induction false} StatsSoon(s: Sampler, ticks: seq<Tick>, id: nat)
    requires HubInv(s.hub) && id < |s.hub.inboxes|
    requires |ticks| >= Patience(s)
    requires Live(TickRun(s, ticks).hub, id)
    ensures StatsAfter(TickRun(s, ticks).hub.sent, |s.hub.sent|, s.ticks, s.ticks + Patience(s))
    decreases |ticks|
  {
    var s' := TickStep(s, ticks[0]);
    TickOnlyGrows(s, ticks[0]);
    TicksOnlyGrow(s', ticks[1..]);
    if s.hasSubs || s.idle >= IDLE_LIMIT {
      assert Live(s'.hub, id);
      StatsLater(s'.hub.sent, TickRun(s, ticks).hub.sent, |s.hub.sent|, |s.hub.sent|, s.ticks, s.ticks + 1);
    } else {
      var sent := TickRun(s, ticks).hub.sent;
      StatsSoon(s', ticks[1..], id);
      assert Patience(s) == 1 + Patience(s');
      StatsLater(sent, sent, |s'.hub.sent|, |s.hub.sent|, s'.ticks, s.ticks + Patience(s));
    }
  }

  /** Once it has found a subscriber, the sampler broadcasts in every tick as long as one stays. */
  lemma {:induction false} StatsEveryTick(s: Sampler, ticks: seq<Tick>, id: nat, i: nat)
    requires HubInv(s.hub) && s.hasSubs && id < |s.hub.inboxes| && i < |ticks|
    requires Live(TickRun(s, ticks).hub, id)
    ensures StatsAfter(TickRun(s, ticks).hub.sent, |s.hub.sent|, s.ticks + i, s.ticks + i + 1)
    decreases |ticks|
  {
    var next := TickStep(s, ticks[0]);
    var sent := TickRun(s, ticks).hub.sent;
    TickOnlyGrows(s, ticks[0]);
    TicksOnlyGrow(next, ticks[1..]);
    assert Live(next.hub, id);
    if i == 0 {
      StatsLater(next.hub.sent, sent, |s.hub.sent|, |s.hub.sent|, s.ticks, s.ticks + 1);
    } else {
      StillFound(s, ticks[0], id);
      StatsEveryTick(next, ticks[1..], id, i - 1);
      StatsLater(sent, sent, |next.hub.sent|, |s.hub.sent|, s.ticks + i, s.ticks + i + 1);
    }
  }

  lemma StillFound(s: Sampler, t: Tick, id: nat)
    requires HubInv(s.hub) && s.hasSubs && id < |s.hub.inboxes| && Live(TickStep(s, t).hub, id)
    ensures TickStep(s, t).hasSubs
  {
    HubOnlyGrows(s.hub, t.before);
    TickSends(s, t);
    assert Live(HubRun(s.hub, t.before), id);
  }

  /** What the broadcaster's other users do to it over these ticks. */
  function WithoutSampler(h: Hub, ticks: seq<Tick>): Hub
    decreases |ticks|
  {
    if ticks == [] then h else WithoutSampler(HubRun(h, ticks[0].before), ticks[1..])
  }

  /** With nobody there the sampler leaves the broadcaster alone for five ticks after it looked. */
  lemma {:induction false} IdleForFive(s: Sampler, ticks: seq<Tick>)
    requires !s.hasSubs && s.idle + |ticks| <= 5
    ensures TickRun(s, ticks).hub == WithoutSampler(s.hub, ticks)
    ensures !TickRun(s, ticks).hasSubs && TickRun(s, ticks).idle == s.idle + |ticks|
    decreases |ticks|
  {
    if ticks == [] {
    } else {
      IdleForFive(TickStep(s, ticks[0]), ticks[1..]);
    }
  }

  lemma StatsLater(sent: seq<Message>, more: seq<Message>, n: nat, from: nat, first: nat, end: nat)
    requires sent <= more && from <= n && StatsAfter(sent, n, first, end)
    ensures forall low: nat | low <= first :: StatsAfter(more, from, low, end)
  {
    var k: nat, tick: nat :| n <= k < |sent| && first <= tick < end && sent[k] == Stats(tick);
    assert more[k] == Stats(tick);
  }

  lemma {:induction false} TicksOnlyGrow(s: Sampler, ticks: seq<Tick>)
    requires HubInv(s.hub)
    ensures var h := TickRun(s, ticks).hub;
            HubInv(h) && s.hub.sent <= h.sent && s.hub.joined <= h.joined && s.hub.closed <= h.closed
    decreases |ticks|
  {
    if ticks == [] {
    } else {
      TickOnlyGrows(s, ticks[0]);
      TicksOnlyGrow(TickStep(s, ticks[0]), ticks[1..]);
    }
  }

  /** What was broadcast while a subscriber was there, it has. */
  lemma StatsReceived(was: Hub, h: Hub, id: nat, first: nat, end: nat)
    requires HubInv(was) && HubInv(h) && Live(was, id) && Live(h, id)
    requires was.sent <= h.sent && was.joined <= h.joined
    requires StatsAfter(h.sent, |was.sent|, first, end)
    ensures StatsAfter(h.inboxes[id], |was.inboxes[id]|, first, end)
  {
    var k: nat, tick: nat :| |was.sent| <= k < |h.sent| && first <= tick < end && h.sent[k] == Stats(tick);
    assert h.joined[id] == was.joined[id];
    assert h.inboxes[id][k - h.joined[id]] == Stats(tick);
  }

  /** Six ticks suffice, from any state, for a subscriber that stays: its own channel has been
      handed, as something new, the stats of one of these six ticks. */
  lemma StatsWithinSixTicks(s: Sampler, ticks: seq<Tick>, id: nat)
    requires HubInv(s.hub) && Live(s.hub, id)
    requires |ticks| >= 6
    requires Live(TickRun(s, ticks).hub, id)
    ensures StatsAfter(TickRun(s, ticks).hub.inboxes[id], |s.hub.inboxes[id]|, s.ticks, s.ticks + 6)
  {
    TicksOnlyGrow(s, ticks);
    StatsSoon(s, ticks, id);
    StatsReceived(s.hub, TickRun(s, ticks).hub, id, s.ticks, s.ticks + Patience(s));
  }

  // ----- the loops themselves -----

  class StatsHistory {
    var history: seq<Sample>

    constructor ()
      ensures history == []
    {
      history := [];
    }

    /** Append and keep the newest 120. */
    method RecordSample(s: Sample)
      modifies this
      ensures history == Newest(old(history) + [s])
    {
      history := history + [s];
      if |history| > HISTORY {
        history := history[|history| - HISTORY..];
      }
    }
  }

  /** What other tasks do to the broadcaster between two ticks. */
  method Meanwhile(ws: WsBroadcaster, events: seq<HubEvent>)
    modifies ws
    ensures ws.State() == HubRun(old(ws.State()), events)
  {
    var i := 0;
    while i < |events|
      invariant 0 <= i <= |events|
      invariant ws.State() == HubRun(old(ws.State()), events[..i])
    {
      assert events[..i + 1][..i] == events[..i];
      match events[i] {
        case Subscribe => var _ := ws.SubscribeNow();
        case Drop(id) => ws.DropReceiver(id);
        case CountSubscribers => var _ := ws.SubscriberCount();
        case Send(msg) => ws.BroadcastMessage(msg);
      }
      i := i + 1;
    }
    assert events[..i] == events;
  }

  /** The part of a tick after the counters were read. */
  method AfterReading(ws: WsBroadcaster, stats: StatsHistory, prevIn: nat, prevOut: nat, idle: nat, subs: bool,
                      n: nat, t: Tick, ghost hub: Hub)
    returns (idleTicks: nat, hasSubs: bool)
    requires ws.State() == HubRun(hub, t.before)
    modifies ws, stats
    ensures Sampler(t.curIn, t.curOut, idleTicks, hasSubs, stats.history, ws.State(), n + 1)
            == TickStep(Sampler(prevIn, prevOut, idle, subs, old(stats.history), hub, n), t)
  {
    stats.RecordSample(Sample(Saturating(t.curIn, prevIn), Saturating(t.curOut, prevOut), t.active));
    idleTicks, hasSubs := idle, subs;
    if hasSubs || idleTicks >= IDLE_LIMIT {
      var count := ws.SubscriberCount();
      hasSubs := count > 0;
      idleTicks := 0;
    } else {
      idleTicks := idleTicks + 1;
    }
    if hasSubs {
      ws.BroadcastMessage(Stats(n));
    }
  }

  /** The sampler, from its first readings over a sequence of ticks. */
  method StatsSampler(ws: WsBroadcaster, stats: StatsHistory, firstIn: nat, firstOut: nat, ticks: seq<Tick>)
    returns (prevIn: nat, prevOut: nat, idleTicks: nat, hasSubs: bool)
    modifies ws, stats
    ensures Sampler(prevIn, prevOut, idleTicks, hasSubs, stats.history, ws.State(), |ticks|)
            == TickRun(Sampler(firstIn, firstOut, 0, false, old(stats.history), old(ws.State()), 0), ticks)
  {
    prevIn, prevOut, idleTicks, hasSubs := firstIn, firstOut, 0, false;
    ghost var s := Sampler(firstIn, firstOut, 0, false, stats.history, ws.State(), 0);
    ghost var start := s;
    var i := 0;
    while i < |ticks|
      invariant 0 <= i <= |ticks|
      invariant s == Sampler(prevIn, prevOut, idleTicks, hasSubs, stats.history, ws.State(), i)
      invariant TickRun(s, ticks[i..]) == TickRun(start, ticks)
    {
      var t := ticks[i];
      assert ticks[i..][0] == t && ticks[i..][1..] == ticks[i + 1..];
      ghost var hub := ws.State();
      Meanwhile(ws, t.before);
      idleTicks, hasSubs := AfterReading(ws, stats, prevIn, prevOut, idleTicks, hasSubs, i, t, hub);
      prevIn, prevOut := t.curIn, t.curOut;
      s := TickStep(s, t);
      i := i + 1;
    }
  }
}
