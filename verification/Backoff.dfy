/** The reconnect loop of src/client.rs: exponential backoff from 0.5 s to 30 s with jitter.
    Durations are milliseconds; the random factor is a real number. */
module Backoff {
  const INITIAL_BACKOFF: nat := 500
  const MAX_BACKOFF: nat := 30_000

  /** When, if at all, the cancel token fires in a round of the loop. */
  datatype Cancel = Never | BeforeRun | DuringRun | AfterRun | DuringSleep

  /** A round of the loop: how the connection attempt ended, and the jitter drawn. */
  datatype Round = Round(succeeded: bool, draw: real, cancel: Cancel)

  predicate DrawInRange(draw: real) {
    -0.1 <= draw <= 0.1
  }

  function Scaled(d: nat, factor: real): real {
    d as real * factor
  }

  function Jitter(d: nat, draw: real): nat {
    var jittered := Scaled(d, 1.0 + draw);
    if jittered <= 0.0 then 0 else jittered.Floor
  }

  // ----- reference: what the backoff should be -----

  function Pow2(n: nat): nat {
    if n == 0 then 1 else 2 * Pow2(n - 1)
  }

  /** The number of failed attempts in a row at the end of a history. */
  function Failures(rounds: seq<Round>): nat {
    if rounds == [] || rounds[|rounds| - 1].succeeded then 0
    else 1 + Failures(rounds[..|rounds| - 1])
  }

  function Base(failures: nat): nat {
    var d := INITIAL_BACKOFF * Pow2(failures);
    if d <= MAX_BACKOFF then d else MAX_BACKOFF
  }

  /** How many rounds begin their sleep before cancellation ends the loop. */
  function SleepsStarted(rounds: seq<Round>): nat {
    if rounds == [] then 0
    else match rounds[0].cancel
      case Never => 1 + SleepsStarted(rounds[1..])
      case DuringSleep => 1
      case _ => 0
  }

  function NextBase(backoff: nat, succeeded: bool): nat {
    if succeeded then INITIAL_BACKOFF else if backoff * 2 <= MAX_BACKOFF then backoff * 2 else MAX_BACKOFF
  }

  lemma Doubling(f: nat)
    ensures Base(f + 1) == if Base(f) * 2 <= MAX_BACKOFF then Base(f) * 2 else MAX_BACKOFF
    ensures Pow2(f) >= 1
  {
    if f > 0 {
      Doubling(f - 1);
    }
  }

  lemma NextBackoff(rounds: seq<Round>, i: nat)
    requires i < |rounds|
    ensures Base(Failures(rounds[..i + 1])) == NextBase(Base(Failures(rounds[..i])), rounds[i].succeeded)
  {
    assert rounds[..i + 1][..i] == rounds[..i];
    Doubling(Failures(rounds[..i]));
  }

  /** The sleep that the reference asks for after round i. */
  function SleepAfter(rounds: seq<Round>, i: nat): nat
    requires i < |rounds|
  {
    Jitter(Base(Failures(rounds[..i])), rounds[i].draw)
  }

  lemma SleepsFrom(rounds: seq<Round>, i: nat)
    requires i < |rounds|
    ensures SleepsStarted(rounds[i..]) == match rounds[i].cancel
                                          case Never => 1 + SleepsStarted(rounds[i + 1..])
                                          case DuringSleep => 1
                                          case _ => 0
  {
    assert rounds[i..][0] == rounds[i] && rounds[i..][1..] == rounds[i + 1..];
  }

  /** The supervised loop, over as many rounds as are given. */
  method RunSupervised(rounds: seq<Round>) returns (sleeps: seq<nat>)
    ensures |sleeps| == SleepsStarted(rounds)
    ensures |sleeps| <= |rounds|
    ensures forall i | 0 <= i < |sleeps| :: sleeps[i] == SleepAfter(rounds, i)
  {
    sleeps := [];
    var backoff := INITIAL_BACKOFF;
    var i := 0;
    while i < |rounds|
      invariant 0 <= i <= |rounds| && |sleeps| == i
      invariant i + SleepsStarted(rounds[i..]) == SleepsStarted(rounds)
      invariant backoff == Base(Failures(rounds[..i]))
      invariant forall k | 0 <= k < i :: sleeps[k] == SleepAfter(rounds, k)
    {
      SleepsFrom(rounds, i);
      var r := rounds[i];
      if r.cancel.BeforeRun? || r.cancel.DuringRun? || r.cancel.AfterRun? {
        return;
      }
      sleeps := sleeps + [Jitter(backoff, r.draw)];
      if r.cancel.DuringSleep? {
        return;
      }
      NextBackoff(rounds, i);
      backoff := NextBase(backoff, r.succeeded);
      i := i + 1;
    }
  }

  // ----- the reference itself -----

  /** The failures counted are the longest run of failed attempts at the end. */
  lemma {:induction false} FailuresExact(rounds: seq<Round>, n: nat)
    ensures Failures(rounds) == n <==>
            && n <= |rounds|
            && (forall i | |rounds| - n <= i < |rounds| :: !rounds[i].succeeded)
            && (n == |rounds| || rounds[|rounds| - n - 1].succeeded)
  {
    if rounds == [] {
    } else {
      var last := |rounds| - 1;
      if rounds[last].succeeded {
        assert n > 0 && n <= |rounds| ==> |rounds| - n <= last;
      } else if n > 0 {
        FailuresExact(rounds[..last], n - 1);
        assert forall i | 0 <= i < last :: rounds[..last][i] == rounds[i];
      }
    }
  }

  /** The first round in which the token fires is the last one; it still begins its sleep when the
      token fires only then. Without such a round the loop goes through all of them. */
  lemma {:induction false} CancelStops(rounds: seq<Round>, k: nat)
    requires k <= |rounds| && forall i | 0 <= i < k :: rounds[i].cancel.Never?
    requires k < |rounds| ==> !rounds[k].cancel.Never?
    ensures SleepsStarted(rounds) == k + if k < |rounds| && rounds[k].cancel.DuringSleep? then 1 else 0
  {
    if k > 0 {
      assert forall i | 0 <= i < k - 1 :: rounds[1..][i] == rounds[i + 1];
      assert k < |rounds| ==> rounds[1..][k - 1] == rounds[k];
      CancelStops(rounds[1..], k - 1);
    }
  }

  // ----- the jitter -----

  /** Within ten percent, as whole milliseconds. */
  predicate WithinTenPercent(d: nat, slept: nat) {
    9 * d <= 10 * slept <= 11 * d
  }

  lemma ScaleMono(x: real, a: real, b: real)
    requires 0.0 <= x && a <= b
    ensures x * a <= x * b
  {
    assert 0.0 <= x * (b - a);
  }

  lemma FloorWithin(y: real, low: int, high: int)
    requires low as real <= y <= high as real
    ensures low <= y.Floor <= high
  {
  }

  /** A tenth more and a tenth less of ten times m. */
  lemma Tenths(m: nat)
    ensures (10 * m) as real * 0.9 == (9 * m) as real && (10 * m) as real * 1.1 == (11 * m) as real
  {
    var r := m as real;
    assert (10 * m) as real == 10.0 * r && (9 * m) as real == 9.0 * r && (11 * m) as real == 11.0 * r;
  }

  lemma JitterBounds(d: nat, draw: real)
    requires d % 10 == 0 && DrawInRange(draw)
    ensures WithinTenPercent(d, Jitter(d, draw))
  {
    var m := d / 10;
    assert d == 10 * m;
    Tenths(m);
    ScaleMono(d as real, 0.9, 1.0 + draw);
    ScaleMono(d as real, 1.0 + draw, 1.1);
    FloorWithin(Scaled(d, 1.0 + draw), 9 * m, 11 * m);
  }

  /** For every draw the sleep is the backoff times one plus the draw, cut to whole milliseconds. */
  lemma JitterExact(d: nat, draw: real, slept: nat)
    requires DrawInRange(draw)
    ensures Jitter(d, draw) == slept <==> slept as real <= d as real * (1.0 + draw) < slept as real + 1.0
  {
    ScaleMono(d as real, 0.0, 1.0 + draw);
    FloorExact(d as real * (1.0 + draw), slept);
  }

  lemma FloorExact(y: real, k: int)
    ensures y.Floor == k <==> k as real <= y < k as real + 1.0
  {
  }

  /** A higher draw never means a shorter sleep. */
  lemma JitterMonotone(d: nat, low: real, high: real)
    requires DrawInRange(low) && DrawInRange(high) && low <= high
    ensures Jitter(d, low) <= Jitter(d, high)
  {
    ScaleMono(d as real, 0.0, 1.0 + low);
    ScaleMono(d as real, 1.0 + low, 1.0 + high);
  }

  /** Every whole number of milliseconds within ten percent of the backoff is the sleep of some draw. */
  lemma JitterReaches(d: nat, slept: nat) returns (draw: real)
    requires d > 0 && WithinTenPercent(d, slept)
    ensures DrawInRange(draw) && Jitter(d, draw) == slept
  {
    var share := slept as real / d as real;
    draw := share - 1.0;
    assert d as real * share == slept as real;
    assert 9.0 * d as real <= 10.0 * slept as real <= 11.0 * d as real;
    Quotient(slept as real, d as real);
    assert 1.0 + draw == share;
    JitterExact(d, draw, slept);
  }

  lemma Quotient(x: real, y: real)
    requires 0.0 < y && 9.0 * y <= 10.0 * x <= 11.0 * y
    ensures 0.9 <= x / y <= 1.1
  {
    var q := x / y;
    assert q * y == x;
    assert q < 0.9 ==> 0.0 < (0.9 - q) * y;
    assert q > 1.1 ==> 0.0 < (q - 1.1) * y;
  }

  /** The lowest draw takes off a tenth, and truncation the rest of the last millisecond. */
  lemma LowestJitter(d: nat)
    ensures 10 * Jitter(d, -0.1) <= 9 * d
  {
    var x := Scaled(d, 1.0 + -0.1);
    assert x == d as real * 0.9;
    assert 10.0 * x == 9.0 * d as real;
    assert x.Floor as real <= x;
  }

  lemma TooShort(d: nat)
    requires d % 10 != 0
    ensures DrawInRange(-0.1) && !WithinTenPercent(d, Jitter(d, -0.1))
  {
    var slept := Jitter(d, -0.1);
    LowestJitter(d);
    assert 10 * slept == 9 * d ==> d == 10 * (d - slept);
  }

  /** The documented range `[d * 0.9, d * 1.1]` of the jitter holds after truncation for every draw
      exactly when d is a multiple of ten milliseconds. */
  lemma JitterRangeExact(d: nat)
    ensures (forall draw: real | DrawInRange(draw) :: WithinTenPercent(d, Jitter(d, draw))) <==> d % 10 == 0
  {
    if d % 10 == 0 {
      forall draw: real | DrawInRange(draw)
        ensures WithinTenPercent(d, Jitter(d, draw))
      {
        JitterBounds(d, draw);
      }
    } else {
      TooShort(d);
    }
  }

  /** Every backoff the loop can reach is one of those, is at least the initial one, and stays at
      the cap from the sixth failure on. */
  lemma {:induction false} ReachableBackoff(failures: nat)
    ensures Base(failures) % 10 == 0 && INITIAL_BACKOFF <= Base(failures) <= MAX_BACKOFF
    ensures Base(failures) == MAX_BACKOFF <==> failures >= 6
  {
    if failures > 0 {
      ReachableBackoff(failures - 1);
      Doubling(failures - 1);
      if failures <= 6 {
        assert Base(failures - 1) == INITIAL_BACKOFF * Pow2(failures - 1);
        assert Pow2(6) == 64 && Pow2(5) == 32 && Pow2(4) == 16 && Pow2(3) == 8 && Pow2(2) == 4;
      }
    }
  }

  lemma SleepWithinTenPercent(failures: nat, draw: real)
    requires DrawInRange(draw)
    ensures WithinTenPercent(Base(failures), Jitter(Base(failures), draw))
  {
    ReachableBackoff(failures);
    JitterBounds(Base(failures), draw);
  }

  lemma BaseTable(n: nat)
    ensures Base(n) == if n >= 6 then 30_000 else [500, 1000, 2000, 4000, 8000, 16_000][n]
  {
    ReachableBackoff(n);
    assert Pow2(5) == 32 && Pow2(4) == 16 && Pow2(3) == 8 && Pow2(2) == 4 && Pow2(1) == 2 && Pow2(0) == 1;
  }

  /** The sleep of a round after exactly n failed rounds in a row: the first sleep, and the first after
      a success, start from half a second, whatever became of the round itself. */
  lemma SleepExact(rounds: seq<Round>, i: nat, n: nat)
    requires n <= i < |rounds| && forall k | i - n <= k < i :: !rounds[k].succeeded
    requires n == i || rounds[i - n - 1].succeeded
    ensures SleepAfter(rounds, i)
            == Jitter(if n >= 6 then 30_000 else [500, 1000, 2000, 4000, 8000, 16_000][n], rounds[i].draw)
  {
    FailuresExact(rounds[..i], n);
    BaseTable(n);
  }
}
