/**
 * What the acceleration estimate behind FF_INERTIA reads under a steady acceleration,
 * from any tracker (mainline/hidpp_dd_effect_math.h).
 */
module AccelRamps {
  import opened Words
  import opened AccelFilter

  // ------------------------------------------------------------ the gap alone

  /** The gap after n ticks of slope c, from a gap of g. */
  function Gaps(g: int, c: int, dt: nat, tau: nat, n: nat): (r: int)
    requires tau > 0
  {
    if n == 0 then g else Relax(Gaps(g, c, dt, tau, n - 1) + c, dt, tau)
  }

  lemma {:induction false} GapsFromTheFront(g: int, c: int, dt: nat, tau: nat, n: nat)
    requires tau > 0 && n > 0
    ensures Gaps(g, c, dt, tau, n) == Gaps(Relax(g + c, dt, tau), c, dt, tau, n - 1)
  {
    hide Relax;
    if n > 1 { GapsFromTheFront(g, c, dt, tau, n - 1); }
  }

  /** On a ramp the filter's gap depends on nothing but where it started. */
  lemma {:induction false} RampGaps(slow: int, v0: int, c: int, dt: nat, tau: nat, n: nat)
    requires tau > 0 && n > 0
    ensures GapAfter(slow, Ramp(v0, c, n), dt, tau) == Gaps(v0 - slow, c, dt, tau, n)
  {
    hide Relax;
    RampPrefix(v0, c, n);
    if n == 1 {
      var vs := Ramp(v0, c, 1);
      assert vs[..0] == [] && vs[0] == v0 + c;
      assert Track(slow, vs[..0], dt, tau) == slow;
      assert Gaps(v0 - slow, c, dt, tau, 0) == v0 - slow;
    } else {
      RampGaps(slow, v0, c, dt, tau, n - 1);
      RampPrefix(v0, c, n - 1);
      Distribute(n, 1, c);
    }
  }

  lemma {:induction false} GapsAreOdd(g: int, c: int, dt: nat, tau: nat, n: nat)
    requires tau > 0
    ensures Gaps(-g, -c, dt, tau, n) == -Gaps(g, c, dt, tau, n)
  {
    hide Relax;
    if n > 0 {
      GapsAreOdd(g, c, dt, tau, n - 1);
      RelaxIsOdd(Gaps(g, c, dt, tau, n - 1) + c, dt, tau);
    }
  }

  // ------------------------------------------------------------ where it comes to rest

  /** The last gap a ramp of slope c leaves unchanged. */
  function LastGap(c: nat, dt: nat, tau: nat): (g: nat)
    requires dt > 0
  {
    (c * tau + tau + dt - 1) / dt
  }

  lemma LastGapIsLast(c: nat, dt: nat, tau: nat)
    requires dt > 0
    ensures var g := LastGap(c, dt, tau); g * dt < c * tau + tau + dt <= (g + 1) * dt
    ensures RampGap(c, dt, tau) <= LastGap(c, dt, tau)
  {
    var last: int, rest: int := LastGap(c, dt, tau), RampGap(c, dt, tau);
    DivBounds(c * tau + tau + dt - 1, dt);
    RampGapIsCeiling(c, dt, tau);
    Distribute(last, 1, dt);
    Distribute(rest, 1, dt);
    CancelLt(rest - 1, last + 1, dt);
    if rest == last + 1 {
      Distribute(last, 1, dt);
    }
  }

  /** A gap that the slope carries past the snap. */
  predicate Carried(g: int, c: nat, dt: nat, tau: nat) {
    (if g > 0 then g else 0) + c >= tau + dt
  }

  /** The resting gap of a rising ramp, told from its start. */
  function Settled(g: int, c: nat, dt: nat, tau: nat): (r: nat)
    requires dt > 0
  {
    if !Carried(g, c, dt, tau) || !Carried(LastGap(c, dt, tau), c, dt, tau) then 0
    else if g <= RampGap(c, dt, tau) then RampGap(c, dt, tau)
    else Min(g, LastGap(c, dt, tau))
  }

  /** From above the last resting gap a tick goes down, but not past it. */
  lemma Descent(g: nat, c: nat, dt: nat, tau: nat)
    requires dt > 0 && tau > 0 && g > LastGap(c, dt, tau) && g + c >= tau + dt
    ensures LastGap(c, dt, tau) <= Relax(g + c, dt, tau) < g
  {
    var last, span, g' := LastGap(c, dt, tau), tau + dt, Relax(g + c, dt, tau);
    LastGapIsLast(c, dt, tau);
    RampGapIsCeiling(c, dt, tau);
    RelaxIsCeiling(g + c, dt, tau);
    hide Relax, LastGap, RampGap;
    Distribute(g, c, tau);
    Distribute(tau, dt, g);
    Distribute(tau, dt, last);
    Distribute(g, 1, span);
    Distribute(last, 1, span);
    MulLe(last + 1, g, dt);
    CancelLt(g' - 1, g - 1, span);
    MulLe(last, g, tau);
    CancelLt(last - 1, g', span);
  }

  /** From below zero a tick goes up, and not past the first resting gap. */
  lemma FromBelow(g: int, c: nat, dt: nat, tau: nat)
    requires dt > 0 && tau > 0 && c > 0 && g < 0
    ensures g < Relax(g + c, dt, tau) <= RampGap(c, dt, tau)
    ensures Relax(g + c, dt, tau) > 0 ==> c >= tau + dt
  {
    var x, span, g' := g + c, tau + dt, Relax(g + c, dt, tau);
    RelaxShrinks(x, dt, tau);
    if x >= span {
      RelaxIsCeiling(x, dt, tau);
      RampGapIsCeiling(c, dt, tau);
      hide Relax, RampGap;
      var rest := RampGap(c, dt, tau);
      MulLe(x, c, tau);
      Distribute(tau, dt, rest);
      MulLe(0, rest, tau);
      CancelLt(g' - 1, rest, span);
    }
  }

  /** Between the first resting gap and the last nothing moves. */
  lemma InBetween(g: nat, c: nat, dt: nat, tau: nat)
    requires dt > 0 && tau > 0 && RampGap(c, dt, tau) <= g <= LastGap(c, dt, tau) && g + c >= tau + dt
    ensures Relax(g + c, dt, tau) == g
  {
    RampGapIsCeiling(c, dt, tau);
    LastGapIsLast(c, dt, tau);
    MulLe(RampGap(c, dt, tau), g, dt);
    MulLe(g, LastGap(c, dt, tau), dt);
    RestingGaps(g, c, dt, tau);
  }

  /** How far the gap is from its rest. */
  function Away(g: int, c: nat, dt: nat, tau: nat): (n: nat)
    requires dt > 0
  {
    Abs(Settled(g, c, dt, tau) - g)
  }

  lemma Snap(g: nat, c: nat, dt: nat, tau: nat)
    requires tau > 0 && g + c < tau + dt
    ensures Relax(g + c, dt, tau) == 0
  {
  }

  /** A tick never changes where the gap will rest, and brings it nearer unless it is there. */
  lemma StepTowardsRest(g: int, c: nat, dt: nat, tau: nat)
    requires dt > 0 && tau > 0 && c > 0
    ensures var g' := Relax(g + c, dt, tau);
            && Settled(g', c, dt, tau) == Settled(g, c, dt, tau)
            && (g == Settled(g, c, dt, tau) ==> g' == g)
            && (g != Settled(g, c, dt, tau) ==> Away(g', c, dt, tau) < Away(g, c, dt, tau))
  {
    hide Relax, RampGap, LastGap;
    LastGapIsLast(c, dt, tau);
    if g < 0 {
      FromBelow(g, c, dt, tau);
    } else if g + c < tau + dt {
      Snap(g, c, dt, tau);
    } else if g <= RampGap(c, dt, tau) {
      RampStep(g, c, dt, tau);
    } else if g <= LastGap(c, dt, tau) {
      InBetween(g, c, dt, tau);
    } else {
      Descent(g, c, dt, tau);
    }
  }

  lemma {:induction false} RestStays(g: nat, c: nat, dt: nat, tau: nat, n: nat)
    requires dt > 0 && tau > 0 && c > 0 && g == Settled(g, c, dt, tau)
    ensures Gaps(g, c, dt, tau, n) == g
  {
    StepTowardsRest(g, c, dt, tau);
    hide Relax, Settled;
    if n > 0 { RestStays(g, c, dt, tau, n - 1); }
  }

  /** A rising ramp comes to rest after finitely many ticks, from any gap, exactly where Settled says. */
  lemma {:induction false} RampSettlesFrom(g: int, c: nat, dt: nat, tau: nat) returns (k: nat)
    requires dt > 0 && tau > 0 && c > 0
    ensures forall n: nat :: n >= k ==> Gaps(g, c, dt, tau, n) == Settled(g, c, dt, tau)
    decreases Away(g, c, dt, tau)
  {
    StepTowardsRest(g, c, dt, tau);
    hide Relax, Settled;
    if g == Settled(g, c, dt, tau) {
      k := 0;
      forall n: nat ensures Gaps(g, c, dt, tau, n) == g { RestStays(g, c, dt, tau, n); }
    } else {
      var k' := RampSettlesFrom(Relax(g + c, dt, tau), c, dt, tau);
      k := k' + 1;
      forall n: nat | n >= k ensures Gaps(g, c, dt, tau, n) == Settled(g, c, dt, tau) {
        GapsFromTheFront(g, c, dt, tau, n);
      }
    }
  }

  lemma {:induction false} FlatSettles(g: int, dt: nat, tau: nat) returns (k: nat)
    requires dt > 0 && tau > 0
    ensures forall n: nat :: n >= k ==> Gaps(g, 0, dt, tau, n) == 0
    decreases Abs(g)
  {
    RelaxShrinks(g, dt, tau);
    if g == 0 {
      k := 0;
      forall n: nat ensures Gaps(0, 0, dt, tau, n) == 0 { ZeroStays(dt, tau, n); }
    } else {
      hide Relax;
      var k' := FlatSettles(Relax(g + 0, dt, tau), dt, tau);
      k := k' + 1;
      forall n: nat | n >= k ensures Gaps(g, 0, dt, tau, n) == 0 { GapsFromTheFront(g, 0, dt, tau, n); }
    }
  }

  lemma {:induction false} ZeroStays(dt: nat, tau: nat, n: nat)
    requires tau > 0
    ensures Gaps(0, 0, dt, tau, n) == 0
  {
    if n > 0 { ZeroStays(dt, tau, n - 1); }
  }

  // ------------------------------------------------------------ what is read

  /** The estimate after n ticks of a ramp, from any tracker. */
  function RampReading(slow: int, v0: int, c: int, dt: nat, tau: nat, n: nat): (a: int)
    requires tau > 0 && n > 0
  {
    TruncDiv(GapAfter(slow, Ramp(v0, c, n), dt, tau), tau)
  }

  /** The whole filter is odd: mirrored runs from mirrored trackers read mirrored accelerations. */
  lemma RampReadingIsOdd(slow: int, v0: int, c: int, dt: nat, tau: nat, n: nat)
    requires tau > 0 && n > 0
    ensures RampReading(-slow, -v0, -c, dt, tau, n) == -RampReading(slow, v0, c, dt, tau, n)
  {
    hide Track, Ramp, Relax;
    RampIsOdd(v0, c, n);
    TrackIsOdd(slow, Ramp(v0, c, n), Ramp(-v0, -c, n), dt, tau);
  }

  /** Where the estimate ends up, from the gap at the start and the slope. */
  function FinalReading(g: int, c: int, dt: nat, tau: nat): (a: int)
    requires dt > 0 && tau > 0
  {
    if c == 0 then 0
    else if c > 0 then Settled(g, c, dt, tau) / tau
    else -(Settled(-g, -c, dt, tau) / tau)
  }

  /** Every steady acceleration, from every tracker, reads one value from some tick on. */
  lemma ReadingSettles(slow: int, v0: int, c: int, dt: nat, tau: nat) returns (k: nat)
    requires dt > 0 && tau > 0
    ensures k > 0 && forall n: nat :: n >= k ==>
              RampReading(slow, v0, c, dt, tau, n) == FinalReading(v0 - slow, c, dt, tau)
  {
    hide Relax, Settled, GapAfter;
    var g := v0 - slow;
    if c == 0 { k := FlatSettles(g, dt, tau); }
    else if c > 0 { k := RampSettlesFrom(g, c, dt, tau); }
    else { k := RampSettlesFrom(-g, -c, dt, tau); }
    k := k + 1;
    forall n: nat | n >= k ensures RampReading(slow, v0, c, dt, tau, n) == FinalReading(g, c, dt, tau) {
      RampGaps(slow, v0, c, dt, tau, n);
      GapsAreOdd(-g, -c, dt, tau, n);
    }
  }

  // ------------------------------------------------------------ when it is the acceleration

  /** The widest resting gap is this far above the first. */
  function Slack(dt: nat, tau: nat): (q: nat)
    requires dt > 0
  {
    (tau + dt - 1) / dt
  }

  lemma SlackBounds(dt: nat, tau: nat)
    requires dt > 0 && tau > 0
    ensures 1 <= Slack(dt, tau) <= tau
    ensures Slack(dt, tau) < tau <==> dt > 1 && tau > 1
  {
    var q := Slack(dt, tau);
    DivBounds(tau + dt - 1, dt);
    if dt > 1 && tau > 1 {
      MulLe(2, dt, tau - 1);
      Distribute(tau, 1, dt);
      CancelLt(q, tau, dt);
    }
    if dt == 1 { assert q == tau; }
    Distribute(q, 1, dt);
    CancelLt(0, q + 1, dt);
  }

  lemma LastGapIs(a: nat, dt: nat, tau: nat)
    requires dt > 0
    ensures LastGap(a * dt, dt, tau) == a * tau + Slack(dt, tau)
    ensures RampGap(a * dt, dt, tau) == a * tau
  {
    assert a * dt * tau == (a * tau) * dt by { Reorder(a, dt, tau); }
    AddMultiple(tau + dt - 1, a * tau, dt);
    AddMultiple(dt - 1, a * tau, dt);
  }

  lemma Reorder(a: int, b: int, c: int)
    ensures a * b * c == (a * c) * b
  {
  }

  lemma AddMultiple(x: int, m: int, d: int)
    requires d > 0
    ensures (m * d + x) / d == m + x / d
  {
    var q := (m * d + x) / d;
    DivBounds(m * d + x, d);
    DivBounds(x, d);
    Distribute(m, x / d, d);
    Distribute(q, 1, d);
    Distribute(m + x / d, 1, d);
    CancelLt(q, m + x / d + 1, d);
    CancelLt(m + x / d, q + 1, d);
  }

  /** A rising acceleration of a ends up read as nothing, as itself, or as one more. */
  lemma FinalReadingIs(g: int, a: nat, dt: nat, tau: nat)
    requires dt > 0 && tau > 0 && a > 0
    ensures a * dt > 0
    ensures FinalReading(g, a * dt, dt, tau) ==
            if !Carried(g, a * dt, dt, tau) then 0
            else if g >= a * tau + tau && Slack(dt, tau) == tau then a + 1
            else a
  {
    MulLe(1, a, dt);
    MulLe(1, a, tau);
    LastGapIs(a, dt, tau);
    SlackBounds(dt, tau);
    hide RampGap, LastGap, Slack;
    var s := Settled(g, a * dt, dt, tau);
    if Carried(g, a * dt, dt, tau) {
      QuotientIs(s, a, tau);
    }
  }

  lemma QuotientIs(s: nat, a: nat, tau: nat)
    requires tau > 0 && a * tau <= s <= a * tau + tau
    ensures s / tau == if s < a * tau + tau then a else a + 1
  {
    AddMultiple(s - a * tau, a, tau);
  }

  /** From tick k on, the ramp's own slope per millisecond is what the estimator reports. */
  ghost predicate ReadsExactlyFrom(slow: int, v0: int, c: int, dt: nat, tau: nat, k: nat)
    requires dt > 0 && tau > 0
  {
    forall n: nat :: n > 0 && n >= k ==> RampReading(slow, v0, c, dt, tau, n) == TruncDiv(c, dt)
  }

  /**
   * The gap at the start, taken in the direction of the slope: enough to get past the
   * snap, and, where a descent stops too early, less than one time constant too wide.
   */
  predicate ExactFrom(g: int, c: int, dt: nat, tau: nat)
    requires dt > 0
  {
    c == 0 ||
    var ahead := if c > 0 then g else -g;
    Carried(ahead, Abs(c), dt, tau) && (ahead < Abs(c) / dt * tau + tau || (dt > 1 && tau > 1))
  }

  lemma FinalIsExactIff(g: int, c: int, dt: nat, tau: nat)
    requires dt > 0 && tau > 0 && Abs(c) % dt == 0
    ensures FinalReading(g, c, dt, tau) == TruncDiv(c, dt) <==> ExactFrom(g, c, dt, tau)
  {
    if c != 0 {
      var a := Abs(c) / dt;
      assert Abs(c) == a * dt;
      SlackBounds(dt, tau);
      hide Settled, Slack;
      FinalReadingIs(if c > 0 then g else -g, a, dt, tau);
    }
  }

  /**
   * The documented promise, that a steady acceleration is read back exactly: from any
   * tracker it holds from some tick on if and only if ExactFrom says so of the start.
   */
  lemma SteadyAccelerationReadExactly(slow: int, v0: int, c: int, dt: nat, tau: nat)
    requires dt > 0 && tau > 0 && Abs(c) % dt == 0
    ensures (exists k: nat :: ReadsExactlyFrom(slow, v0, c, dt, tau, k)) <==> ExactFrom(v0 - slow, c, dt, tau)
  {
    FinalIsExactIff(v0 - slow, c, dt, tau);
    hide ExactFrom, FinalReading, RampReading;
    var k := ReadingSettles(slow, v0, c, dt, tau);
    if ExactFrom(v0 - slow, c, dt, tau) {
      assert ReadsExactlyFrom(slow, v0, c, dt, tau, k);
    } else {
      forall j: nat ensures !ReadsExactlyFrom(slow, v0, c, dt, tau, j) {
        var n := k + j;
        assert RampReading(slow, v0, c, dt, tau, n) == FinalReading(v0 - slow, c, dt, tau);
      }
    }
  }

  // ------------------------------------------------------------ whole counts

  lemma WholeRampReading(slow: int, v: int, a: int, dt: nat, tau: nat, n: nat)
    requires tau > 0 && n > 0
    ensures Reading(slow, Ramp(v, a, n), dt, tau) == RampReading(slow, v * 256, a * 256, dt, tau, n)
  {
    forall i | 0 <= i < n ensures Q8(Ramp(v, a, n))[i] == Ramp(v * 256, a * 256, n)[i] {
      Distribute(v, a * (i + 1), 256);
      assert a * 256 * (i + 1) == a * (i + 1) * 256;
    }
    assert Q8(Ramp(v, a, n)) == Ramp(v * 256, a * 256, n);
  }

  /** A whole-count acceleration is read back, in q8 per millisecond, from tick k on. */
  ghost predicate WholeReadFrom(slow: int, v: int, a: int, dt: nat, tau: nat, k: nat)
    requires dt > 0 && tau > 0
  {
    forall n: nat :: n > 0 && n >= k ==> Reading(slow, Ramp(v, a, n), dt, tau) == TruncDiv(a * 256, dt)
  }

  lemma WholeMultiple(a: nat, dt: nat)
    requires dt > 0 && 256 % dt == 0
    ensures (a * 256) % dt == 0
  {
    var q := 256 / dt;
    assert 256 == q * dt;
    assert a * 256 == (a * q) * dt;
    AddMultiple(0, a * q, dt);
  }

  /** The same for the whole counts the filter is given. */
  lemma WholeCountsReadExactly(slow: int, v: int, a: int, dt: nat, tau: nat)
    requires dt > 0 && tau > 0 && 256 % dt == 0
    ensures (exists k: nat :: WholeReadFrom(slow, v, a, dt, tau, k)) <==> ExactFrom(v * 256 - slow, a * 256, dt, tau)
  {
    WholeMultiple(Abs(a), dt);
    SteadyAccelerationReadExactly(slow, v * 256, a * 256, dt, tau);
    hide ExactFrom, RampReading, Reading;
    forall k: nat
      ensures WholeReadFrom(slow, v, a, dt, tau, k) <==> ReadsExactlyFrom(slow, v * 256, a * 256, dt, tau, k)
    {
      forall n: nat | n > 0
        ensures Reading(slow, Ramp(v, a, n), dt, tau) == RampReading(slow, v * 256, a * 256, dt, tau, n)
      {
        WholeRampReading(slow, v, a, dt, tau, n);
      }
    }
  }

  // ------------------------------------------------------------ the driver's constants

  const TICK_MS: nat := 1
  const ACCEL_TAU_MS: nat := 50

  /** How far the tracker lags the velocity, in the direction of the acceleration. */
  function Lag(slow: int, v: int, a: int): (g: int) {
    if a > 0 then v * 256 - slow else slow - v * 256
  }

  /** Where a descent does not stop too early. */
  predicate LagsLittle(slow: int, v: int, a: int) {
    a == 0 || Lag(slow, v, a) < 12800 * Abs(a) + 50
  }

  /**
   * With the driver's tick and time constant a steady acceleration of a counts a tick is
   * read back exactly, 256 * a, from some tick on if and only if it is zero or the
   * tracker lags by less than 12800 * |a| + 50.
   */
  lemma DriverReadsExactlyIff(slow: int, v: int, a: int)
    ensures (exists j: nat :: WholeReadFrom(slow, v, a, TICK_MS, ACCEL_TAU_MS, j)) <==> LagsLittle(slow, v, a)
    ensures TruncDiv(a * 256, TICK_MS) == a * 256
  {
    hide WholeReadFrom, ExactFrom;
    WholeCountsReadExactly(slow, v, a, TICK_MS, ACCEL_TAU_MS);
    DriverExact(v * 256 - slow, a);
  }

  /** Either way it comes to rest, and where it is not exact it reads one too much for ever. */
  lemma DriverReadsExactlyOrOneTooMuch(slow: int, v: int, a: int) returns (k: nat)
    ensures k > 0 && forall n: nat :: n >= k ==>
              Reading(slow, Ramp(v, a, n), TICK_MS, ACCEL_TAU_MS) ==
              a * 256 + if LagsLittle(slow, v, a) then 0 else if a > 0 then 1 else -1
  {
    hide RampReading, Reading, FinalReading;
    k := ReadingSettles(slow, v * 256, a * 256, TICK_MS, ACCEL_TAU_MS);
    DriverFinal(v * 256 - slow, a);
    forall n: nat | n >= k
      ensures Reading(slow, Ramp(v, a, n), TICK_MS, ACCEL_TAU_MS) ==
              FinalReading(v * 256 - slow, a * 256, TICK_MS, ACCEL_TAU_MS)
    {
      WholeRampReading(slow, v, a, TICK_MS, ACCEL_TAU_MS, n);
    }
  }

  lemma DriverExact(g: int, a: int)
    ensures ExactFrom(g, a * 256, TICK_MS, ACCEL_TAU_MS) <==> a == 0 || (if a > 0 then g else -g) < 12800 * Abs(a) + 50
  {
  }

  lemma DriverFinal(g: int, a: int)
    ensures var ahead := if a > 0 then g else -g;
            FinalReading(g, a * 256, TICK_MS, ACCEL_TAU_MS) ==
            if a == 0 || ahead < 12800 * Abs(a) + 50 then a * 256 else a * 256 + if a > 0 then 1 else -1
  {
    if a != 0 {
      hide Settled;
      FinalReadingIs(if a > 0 then g else -g, Abs(a) * 256, TICK_MS, ACCEL_TAU_MS);
    }
  }

  /** From the reset tracker, a wheel found at 51 counts and gaining one a tick reads 257 for ever. */
  lemma ResetTrackerReadsOneTooMuch() returns (k: nat)
    ensures k > 0 && forall n: nat :: n >= k ==> Reading(0, Ramp(51, 1, n), TICK_MS, ACCEL_TAU_MS) == 257
  {
    k := DriverReadsExactlyOrOneTooMuch(0, 51, 1);
  }

  /** From a tracker that is on the velocity every steady acceleration is read back exactly. */
  lemma DriverReadsExactlyFromRest(v: int, a: int)
    ensures exists k: nat :: WholeReadFrom(v * 256, v, a, TICK_MS, ACCEL_TAU_MS, k)
  {
    DriverReadsExactlyIff(v * 256, v, a);
  }

  /** A time constant of 300 ms reads a gain of one count every tick, from a tracker on the velocity, as nothing. */
  lemma LongTimeConstantReadsZero(n: nat)
    requires n > 0
    ensures Reading(0, Ramp(0, 1, n), 1, 300) == 0 && TruncDiv(1 * 256, 1) == 256
  {
    WholeRampReading(0, 0, 1, 1, 300, n);
    SlowRampReadsZero(0, 256, 1, 300, n);
  }
}
