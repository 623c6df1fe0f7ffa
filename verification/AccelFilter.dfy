/**
 * The band-limited acceleration estimate behind FF_INERTIA
 * (mainline/hidpp_dd_effect_math.h).  Velocities and the tracker are in
 * 1/256ths of a count per millisecond (q8).
 */
module AccelFilter {
  import opened Words

  /** What is left of a gap of `diff` after one tick of the one-pole. */
  function Relax(diff: int, dt: nat, tau: nat): (gap: int)
    requires tau > 0
  {
    if -(tau + dt) < diff < tau + dt then 0
    else diff - TruncDiv(diff * dt, tau + dt)
  }

  /** The tracker after a run of velocities, oldest first. */
  function Track(slow: int, vs: seq<int>, dt: nat, tau: nat): (r: int)
    requires tau > 0
  {
    if vs == [] then slow
    else
      var v := vs[|vs| - 1];
      v - Relax(v - Track(slow, vs[..|vs| - 1], dt, tau), dt, tau)
  }

  /** The distance the velocity is ahead of the tracker once a run has been played. */
  function GapAfter(slow: int, vs: seq<int>, dt: nat, tau: nat): (gap: int)
    requires tau > 0 && vs != []
  {
    vs[|vs| - 1] - Track(slow, vs, dt, tau)
  }

  /** `n` ticks of a velocity that starts at `v0` and rises by `c` every tick. */
  function Ramp(v0: int, c: int, n: nat): (vs: seq<int>)
    ensures |vs| == n
  {
    seq(n, i => v0 + c * (i + 1))
  }

  lemma RampPrefix(v0: int, c: int, n: nat)
    requires n > 0
    ensures Ramp(v0, c, n)[..n - 1] == Ramp(v0, c, n - 1)
    ensures Ramp(v0, c, n)[n - 1] == v0 + c * n
  {
  }

  /** Whole counts per millisecond, as the wheel reports them, in q8. */
  function Q8(vels: seq<int>): (vs: seq<int>)
    ensures |vs| == |vels|
  {
    seq(|vels|, i requires 0 <= i < |vels| => vels[i] * 256)
  }

  /** What a run of whole-count velocities reads at its last tick. */
  function Reading(slow: int, vels: seq<int>, dt: nat, tau: nat): (a: int)
    requires tau > 0 && vels != []
  {
    TruncDiv(GapAfter(slow, Q8(vels), dt, tau), tau)
  }

  /** The estimator as the driver holds it: one persistent tracker. */
  class Estimator {
    var velSlowQ8: int

    constructor ()
      ensures velSlowQ8 == 0
    {
      velSlowQ8 := 0;
    }

    method Filter(vel: int, dt: nat, tau: nat) returns (accel: int)
      requires tau > 0
      modifies this
      ensures velSlowQ8 == Track(old(velSlowQ8), [vel * 256], dt, tau)
      ensures accel == TruncDiv(vel * 256 - velSlowQ8, tau)
    {
      var vQ8 := vel * 256;
      var diff := vQ8 - velSlowQ8;
      var span := tau + dt;
      assert [vQ8][..0] == [];
      if diff > -span && diff < span {
        velSlowQ8 := vQ8;
      } else {
        velSlowQ8 := velSlowQ8 + TruncDiv(diff * dt, span);
      }
      accel := TruncDiv(vQ8 - velSlowQ8, tau);
    }

    /** A whole run of ticks, as the effect timer drives it. */
    method FilterRun(vels: seq<int>, dt: nat, tau: nat) returns (accel: int)
      requires tau > 0
      modifies this
      ensures velSlowQ8 == Track(old(velSlowQ8), Q8(vels), dt, tau)
      ensures vels != [] ==> accel == Reading(old(velSlowQ8), vels, dt, tau)
    {
      hide Relax;
      accel := 0;
      ghost var vs := Q8(vels);
      for i := 0 to |vels|
        invariant velSlowQ8 == Track(old(velSlowQ8), vs[..i], dt, tau)
        invariant i > 0 ==> accel == TruncDiv(GapAfter(old(velSlowQ8), vs[..i], dt, tau), tau)
      {
        ghost var before := velSlowQ8;
        accel := Filter(vels[i], dt, tau);
        assert [vels[i] * 256][..0] == [];
        assert vs[..i + 1][..i] == vs[..i] && vs[..i + 1][i] == vels[i] * 256;
      }
      assert vs[..|vels|] == vs;
    }
  }

  // ---------------------------------------------------------------- one tick

  /** For a gap of at least one span, the survivor is the ceiling of `diff * tau / (tau + dt)`. */
  lemma RelaxIsCeiling(diff: int, dt: nat, tau: nat)
    requires tau > 0 && diff >= tau + dt
    ensures var g := Relax(diff, dt, tau);
            (g - 1) * (tau + dt) < diff * tau <= g * (tau + dt)
  {
    var span := tau + dt;
    var q := diff * dt / span;
    DivBounds(diff * dt, span);
    Distribute(tau, dt, diff);
    Distribute(diff, q, span);
    Distribute(diff - q, 1, span);
  }

  lemma RelaxIsOdd(diff: int, dt: nat, tau: nat)
    requires tau > 0
    ensures Relax(-diff, dt, tau) == -Relax(diff, dt, tau)
  {
    assert (-diff) * dt == -(diff * dt);
  }

  lemma RelaxShrinksUp(diff: nat, dt: nat, tau: nat)
    requires tau > 0
    ensures 0 <= Relax(diff, dt, tau) <= diff
    ensures Relax(diff, dt, tau) != 0 ==> Relax(diff, dt, tau) <= diff - dt
  {
    if diff >= tau + dt {
      var span := tau + dt;
      var q := diff * dt / span;
      RelaxIsCeiling(diff, dt, tau);
      MulLe(0, diff, tau);
      MulLe(0, diff, dt);
      CancelLt(-1, diff - q, span) by { Distribute(diff - q, 1, span); }
      DivBounds(diff * dt, span);
      MulLe(span, diff, dt);
      Distribute(q, 1, span);
      CancelLt(dt, q + 1, span);
    }
  }

  /** The survivor never changes sign and never grows; past one span it shrinks by at least `dt`. */
  lemma RelaxShrinks(diff: int, dt: nat, tau: nat)
    requires tau > 0
    ensures diff >= 0 ==> 0 <= Relax(diff, dt, tau) <= diff
    ensures diff <= 0 ==> diff <= Relax(diff, dt, tau) <= 0
    ensures Relax(diff, dt, tau) != 0 ==> Abs(Relax(diff, dt, tau)) <= Abs(diff) - dt
  {
    RelaxShrinksUp(Abs(diff), dt, tau);
    RelaxIsOdd(diff, dt, tau);
  }

  // ------------------------------------------------------- steady acceleration

  /** Where the gap behind a ramp of slope `c` comes to rest: ceil(c * tau / dt). */
  function RampGap(c: nat, dt: nat, tau: nat): (g: nat)
    requires dt > 0
  {
    (c * tau + dt - 1) / dt
  }

  lemma RampGapIsCeiling(c: nat, dt: nat, tau: nat)
    requires dt > 0
    ensures var g := RampGap(c, dt, tau); g * dt - dt < c * tau <= g * dt
  {
    DivBounds(c * tau + dt - 1, dt);
  }

  /** One tick of a ramp: strictly up to the resting gap, and no further. */
  lemma RampStep(g: nat, c: nat, dt: nat, tau: nat)
    requires dt > 0 && tau > 0 && g + c >= tau + dt && g <= RampGap(c, dt, tau)
    ensures var g' := Relax(g + c, dt, tau);
            && g' <= RampGap(c, dt, tau)
            && (g < RampGap(c, dt, tau) ==> g < g')
            && (g == RampGap(c, dt, tau) ==> g' == g)
  {
    var rest, span := RampGap(c, dt, tau), tau + dt;
    var g' := Relax(g + c, dt, tau);
    RelaxIsCeiling(g + c, dt, tau);
    RampGapIsCeiling(c, dt, tau);
    Distribute(g, c, tau);
    Distribute(tau, dt, rest);
    Distribute(tau, dt, g);
    MulLe(g, rest, tau);
    CancelLt(g' - 1, rest, span);
    if g < rest {
      MulLe(g, rest - 1, dt);
      Distribute(rest, 1, dt);
      CancelLt(g, g', span);
    } else {
      Distribute(rest, 1, span);
      CancelLt(rest - 1, g', span);
    }
  }

  lemma FirstTick(v0: int, c: int, dt: nat, tau: nat)
    requires tau > 0
    ensures GapAfter(v0, Ramp(v0, c, 1), dt, tau) == Relax(c, dt, tau)
  {
    var vs := Ramp(v0, c, 1);
    assert vs[..0] == [] && vs[0] == v0 + c;
    assert Track(v0, vs[..0], dt, tau) == v0;
  }

  /** Each tick of a ramp adds its slope to the gap and relaxes the sum. */
  lemma NextGap(v0: int, c: int, dt: nat, tau: nat, n: nat)
    requires tau > 0 && n > 1
    ensures GapAfter(v0, Ramp(v0, c, n), dt, tau) == Relax(GapAfter(v0, Ramp(v0, c, n - 1), dt, tau) + c, dt, tau)
  {
    RampPrefix(v0, c, n);
    RampPrefix(v0, c, n - 1);
    Distribute(n, 1, c);
  }

  lemma RampGapIsPositive(c: nat, dt: nat, tau: nat)
    requires dt > 0 && tau > 0 && c > 0
    ensures RampGap(c, dt, tau) > 0
  {
    RampGapIsCeiling(c, dt, tau);
    MulLe(1, c, tau);
    CancelLt(0, RampGap(c, dt, tau), dt);
  }

  /**
   * Behind a steady ramp of at least one span per tick, with the tracker
   * starting on the velocity, the gap climbs strictly to ceil(c*tau/dt) and
   * stays there for ever; it has arrived after at most that many ticks.
   */
  lemma {:induction false} SteadyRampSettles(v0: int, c: nat, dt: nat, tau: nat, n: nat)
    requires dt > 0 && tau > 0 && c >= tau + dt && n > 0
    ensures var g := GapAfter(v0, Ramp(v0, c, n), dt, tau);
            && Min(n, RampGap(c, dt, tau)) <= g <= RampGap(c, dt, tau)
    ensures n > 1 ==>
              var before := GapAfter(v0, Ramp(v0, c, n - 1), dt, tau);
              var after := GapAfter(v0, Ramp(v0, c, n), dt, tau);
              if before < RampGap(c, dt, tau) then before < after else after == before
  {
    hide RampGap, Relax, GapAfter;
    RampGapIsPositive(c, dt, tau);
    if n == 1 {
      FirstTick(v0, c, dt, tau);
      RampStep(0, c, dt, tau);
    } else {
      SteadyRampSettles(v0, c, dt, tau, n - 1);
      NextGap(v0, c, dt, tau, n);
      RampStep(GapAfter(v0, Ramp(v0, c, n - 1), dt, tau), c, dt, tau);
    }
  }

  /** Below one span per tick the tracker snaps on every tick: the estimate never leaves zero. */
  lemma {:induction false} SlowRampReadsZero(v0: int, c: int, dt: nat, tau: nat, n: nat)
    requires tau > 0 && n > 0 && -(tau + dt) < c < tau + dt
    ensures GapAfter(v0, Ramp(v0, c, n), dt, tau) == 0
  {
    if n == 1 {
      FirstTick(v0, c, dt, tau);
    } else {
      SlowRampReadsZero(v0, c, dt, tau, n - 1);
      NextGap(v0, c, dt, tau, n);
    }
  }

  /** The whole filter is odd: mirrored velocities give the mirrored tracker. */
  lemma {:induction false} TrackIsOdd(slow: int, vs: seq<int>, ws: seq<int>, dt: nat, tau: nat)
    requires tau > 0 && |ws| == |vs|
    requires forall i :: 0 <= i < |vs| ==> ws[i] == -vs[i]
    ensures Track(-slow, ws, dt, tau) == -Track(slow, vs, dt, tau)
  {
    if vs != [] {
      var k := |vs| - 1;
      TrackIsOdd(slow, vs[..k], ws[..k], dt, tau);
      RelaxIsOdd(vs[k] - Track(slow, vs[..k], dt, tau), dt, tau);
    }
  }

  lemma RampIsOdd(v0: int, c: int, n: nat)
    ensures forall i :: 0 <= i < n ==> Ramp(-v0, -c, n)[i] == -Ramp(v0, c, n)[i]
  {
    forall i | 0 <= i < n ensures Ramp(-v0, -c, n)[i] == -Ramp(v0, c, n)[i] {
      assert (-c) * (i + 1) == -(c * (i + 1));
    }
  }

  // ------------------------------------------------------- all resting gaps

  /** Every gap past the snap that a ramp leaves unchanged: a climb stops at the first, a descent at the last. */
  lemma RestingGaps(g: nat, c: nat, dt: nat, tau: nat)
    requires dt > 0 && tau > 0 && g + c >= tau + dt
    ensures Relax(g + c, dt, tau) == g <==> c * tau <= g * dt < c * tau + tau + dt
  {
    var span, g' := tau + dt, Relax(g + c, dt, tau);
    RelaxIsCeiling(g + c, dt, tau);
    Distribute(g, c, tau);
    Distribute(tau, dt, g);
    Distribute(g, 1, span);
    if c * tau <= g * dt < c * tau + span {
      CancelLt(g' - 1, g, span);
      CancelLt(g - 1, g', span);
    }
  }

  // ------------------------------------------------------------ steady velocity

  /** A run of `n` ticks at one velocity. */
  function Hold(v: int, n: nat): (vs: seq<int>)
    ensures |vs| == n
  {
    seq(n, _ => v)
  }

  /**
   * At constant velocity the tracker closes in without overshoot, by at least
   * `dt` a tick, and from then on sits exactly on the velocity.
   */
  lemma {:induction false} SteadyVelocityIsReached(slow: int, v: int, dt: nat, tau: nat, n: nat)
    requires dt > 0 && tau > 0
    ensures var gap := v - Track(slow, Hold(v, n), dt, tau);
            && (slow <= v ==> 0 <= gap)
            && (slow >= v ==> gap <= 0)
            && (gap != 0 ==> Abs(gap) + n * dt <= Abs(v - slow))
            && (n * dt >= Abs(v - slow) ==> gap == 0)
  {
    if n > 0 {
      SteadyVelocityIsReached(slow, v, dt, tau, n - 1);
      assert Hold(v, n)[..n - 1] == Hold(v, n - 1);
      RelaxShrinks(v - Track(slow, Hold(v, n - 1), dt, tau), dt, tau);
      Distribute(n, 1, dt);
    }
  }

  /** Whatever the velocities, the tracker stays inside the hull of its start and what it has seen. */
  lemma {:induction false} TrackerStaysInHull(slow: int, vs: seq<int>, dt: nat, tau: nat, lo: int, hi: int)
    requires tau > 0 && lo <= slow <= hi
    requires forall i :: 0 <= i < |vs| ==> lo <= vs[i] <= hi
    ensures lo <= Track(slow, vs, dt, tau) <= hi
  {
    if vs != [] {
      var k := |vs| - 1;
      TrackerStaysInHull(slow, vs[..k], dt, tau, lo, hi);
      RelaxShrinks(vs[k] - Track(slow, vs[..k], dt, tau), dt, tau);
    }
  }

  /**
   * With velocities bounded so that 512 times the bound times `dt` fits in 31 bits,
   * no tick of any run from rest overflows a signed 32-bit intermediate.
   */
  lemma NoIntermediateOverflows(vels: seq<int>, v: int, bound: int, dt: nat, tau: nat)
    requires tau > 0 && bound >= 0 && bound * 512 * dt < 0x8000_0000 && bound * 512 < 0x8000_0000
    requires -bound <= v <= bound
    requires forall i :: 0 <= i < |vels| ==> -bound <= vels[i] <= bound
    ensures var slow := Track(0, Q8(vels), dt, tau);
            && Abs(v * 256 - slow) < 0x8000_0000
            && Abs((v * 256 - slow) * dt) < 0x8000_0000
  {
    var vs := Q8(vels);
    var diff := v * 256 - Track(0, vs, dt, tau);
    assert -(bound * 512) <= diff <= bound * 512 by {
      TrackerStaysInHull(0, vs, dt, tau, -(bound * 256), bound * 256);
    }
    ProductFits(diff, bound * 512, dt);
  }

  lemma ProductFits(x: int, m: int, k: nat)
    requires -m <= x <= m && m * k < 0x8000_0000
    ensures Abs(x * k) < 0x8000_0000
  {
    MulLe(x, m, k);
    MulLe(-x, m, k);
    Distribute(0, x, k);
  }
}
