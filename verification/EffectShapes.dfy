/**
 * Envelopes and condition forces of the direct-drive wheel
 * (mainline/hidpp_dd_effect_math.h).
 */
module EffectShapes {
  import opened Words

  // ------------------------------------------------------------ conditions

  datatype Condition = Condition(
    centre: Int16, deadband: Word16, rightCoeff: Int16, leftCoeff: Int16,
    rightSaturation: Word16, leftSaturation: Word16)

  function Limit(force: int, saturation: int): (f: int) {
    if force > saturation then saturation else if force < -saturation then -saturation else force
  }

  /** How far the metric is past the dead band, negative on the left. */
  function Beyond(c: Condition, metric: int): (delta: int) {
    var half := c.deadband / 2;
    if metric > c.centre + half then metric - c.centre - half
    else if metric < c.centre - half then metric - c.centre + half
    else 0
  }

  function Force(c: Condition, metric: int): (f: int) {
    var delta := Beyond(c, metric);
    if delta > 0 then Limit(-((c.rightCoeff * delta) / 0x8000), c.rightSaturation)
    else if delta < 0 then Limit(-((c.leftCoeff * delta) / 0x8000), c.leftSaturation)
    else 0
  }

  /** The same in 32-bit arithmetic, every intermediate cut down. */
  function Force32(c: Condition, metric: int): (f: int) {
    var half := c.deadband / 2;
    if metric > c.centre + half then
      Limit(-(ToS32(c.rightCoeff * ToS32(metric - c.centre - half)) / 0x8000), c.rightSaturation)
    else if metric < c.centre - half then
      Limit(-(ToS32(c.leftCoeff * ToS32(metric - c.centre + half)) / 0x8000), c.leftSaturation)
    else 0
  }

  lemma ProductFits(k: Int16, delta: int)
    requires -0xffff <= delta <= 0xffff
    ensures -0x8000_0000 <= k * delta < 0x8000_0000
  {
    var d: int := Abs(delta);
    MulLe(k, 0x7fff, d);
    MulLe(-0x8000, k, d);
    assert delta < 0 ==> k * delta == -(k * d);
  }

  /** For every 16-bit metric, which is all the driver passes, nothing overflows. */
  lemma NothingOverflows(c: Condition, metric: Int16)
    ensures Force32(c, metric) == Force(c, metric)
  {
    ProductFits(c.rightCoeff, Beyond(c, metric));
    ProductFits(c.leftCoeff, Beyond(c, metric));
    hide ToS32;
  }

  lemma ShiftBounds(k: int, delta: int)
    ensures k >= 0 && delta >= 0 ==> (k * delta) / 0x8000 >= 0
    ensures k >= 0 && delta <= 0 ==> (k * delta) / 0x8000 <= 0
    ensures k <= 0 && delta >= 0 ==> (k * delta) / 0x8000 <= 0
    ensures k <= 0 && delta <= 0 ==> (k * delta) / 0x8000 >= 0
  {
    if k >= 0 && delta >= 0 { MulLe(0, k, delta); }
    if k >= 0 && delta <= 0 { MulLe(0, k, -delta); assert k * delta == -(k * -delta); }
    if k <= 0 && delta >= 0 { MulLe(k, 0, delta); }
    if k <= 0 && delta <= 0 { MulLe(k, 0, -delta); assert k * delta == -(k * -delta); }
  }

  /**
   * The force stays within the saturation of its side and is nil in the dead band;
   * a positive coefficient pulls back to the centre, a negative one pushes away,
   * and both are limited alike.
   */
  lemma ForceIsLimitedAndSigned(c: Condition, metric: int)
    ensures var f, delta := Force(c, metric), Beyond(c, metric);
            && (delta == 0 ==> f == 0)
            && (delta > 0 ==>
                  Abs(f) <= c.rightSaturation && (c.rightCoeff >= 0 ==> f <= 0) && (c.rightCoeff <= 0 ==> f >= 0))
            && (delta < 0 ==>
                  Abs(f) <= c.leftSaturation && (c.leftCoeff >= 0 ==> f >= 0) && (c.leftCoeff <= 0 ==> f <= 0))
  {
    ShiftBounds(c.rightCoeff, Beyond(c, metric));
    ShiftBounds(c.leftCoeff, Beyond(c, metric));
  }

  /** In steps of 1/0x8000, `want` rounded up to whole units of force against it, or the limit it runs into. */
  predicate Opposes(f: int, want: int, saturation: int) {
    if want < -0x8000 * saturation then f == saturation
    else if want >= 0x8000 * (saturation + 1) then f == -saturation
    else 0 <= 0x8000 * f + want < 0x8000
  }

  /**
   * Past either edge of the dead band the force is that side's coefficient times the
   * distance to the edge, against it, and nothing of the other side's.
   */
  lemma ForceIsLinear(c: Condition, metric: int)
    ensures var right, left := metric - c.centre - c.deadband / 2, metric - c.centre + c.deadband / 2;
            && (right > 0 ==> Opposes(Force(c, metric), c.rightCoeff * right, c.rightSaturation))
            && (left < 0 ==> Opposes(Force(c, metric), c.leftCoeff * left, c.leftSaturation))
            && (right <= 0 <= left ==> Force(c, metric) == 0)
  {
    var right, left := metric - c.centre - c.deadband / 2, metric - c.centre + c.deadband / 2;
    ShiftOpposes(c.rightCoeff * right, c.rightSaturation);
    ShiftOpposes(c.leftCoeff * left, c.leftSaturation);
    hide Limit, Opposes;
  }

  lemma ShiftOpposes(want: int, saturation: nat)
    ensures Opposes(Limit(-(want / 0x8000), saturation), want, saturation)
  {
  }

  lemma ShiftMonotone(k: int, a: int, b: int)
    requires k >= 0 && a <= b
    ensures (k * a) / 0x8000 <= (k * b) / 0x8000
  {
    MulLe(a, b, k);
  }

  /** With coefficients that are not negative, the force never rises with the metric: no displacement is rewarded. */
  lemma ForceNeverRises(c: Condition, a: int, b: int)
    requires c.rightCoeff >= 0 && c.leftCoeff >= 0 && a <= b
    ensures Force(c, a) >= Force(c, b)
  {
    ForceIsLimitedAndSigned(c, a);
    ForceIsLimitedAndSigned(c, b);
    ShiftMonotone(c.rightCoeff, Beyond(c, a), Beyond(c, b));
    ShiftMonotone(c.leftCoeff, Beyond(c, a), Beyond(c, b));
  }

  lemma FloorAndCeiling(x: int)
    requires x >= 0
    ensures -((-x) / 0x8000) == x / 0x8000 + if x % 0x8000 == 0 then 0 else 1
  {
  }

  /**
   * A symmetric condition is not quite symmetric: the shift rounds down on both sides,
   * so forces at mirrored displacements add up to one exactly when the product is not a
   * multiple of 0x8000 and its quotient does not saturate. The side with the one more is
   * the left for springs and the right for anti-springs.
   */
  lemma MirroredForces(c: Condition, d: nat)
    requires d > 0 && c.leftCoeff == c.rightCoeff && c.leftSaturation == c.rightSaturation
    ensures var left, right := Force(c, c.centre - c.deadband / 2 - d), Force(c, c.centre + c.deadband / 2 + d);
            var product := Abs(c.rightCoeff) * d;
            var more := if product % 0x8000 != 0 && product / 0x8000 < c.rightSaturation then 1 else 0;
            && left + right == more
            && (c.rightCoeff >= 0 ==> Abs(left) == Abs(right) + more)
            && (c.rightCoeff <= 0 ==> Abs(right) == Abs(left) + more)
  {
    var k: int, n: int := c.rightCoeff, d;
    var x := Abs(k) * n;
    assert k * n == if k >= 0 then x else -x;
    assert k * -n == if k >= 0 then -x else x;
    MulLe(0, Abs(k), n);
    RoundedPair(x, c.rightSaturation);
    assert Beyond(c, c.centre + c.deadband / 2 + d) == d;
    assert Beyond(c, c.centre - c.deadband / 2 - n) == -n;
    hide Limit;
  }

  /** A product and its negative, each shifted and limited. */
  lemma RoundedPair(x: int, saturation: nat)
    requires x >= 0
    ensures var down, up := Limit(-(x / 0x8000), saturation), Limit(-((-x) / 0x8000), saturation);
            var more := if x % 0x8000 != 0 && x / 0x8000 < saturation then 1 else 0;
            down <= 0 <= up && up + down == more
  {
    FloorAndCeiling(x);
  }

  /** The smallest stiffness, one unit either side of the centre: a spring, and an anti-spring. */
  lemma OneSideIsStronger()
    ensures var c := Condition(0, 0, 1, 1, 0x7fff, 0x7fff); Force(c, 1) == 0 && Force(c, -1) == 1
    ensures var c := Condition(0, 0, -1, -1, 0x7fff, 0x7fff); Force(c, 1) == 1 && Force(c, -1) == 0
  {
    MirroredForces(Condition(0, 0, 1, 1, 0x7fff, 0x7fff), 1);
    MirroredForces(Condition(0, 0, -1, -1, 0x7fff, 0x7fff), 1);
  }

  // ------------------------------------------------------------ envelopes

  datatype Envelope = Envelope(attackLength: Word16, attackLevel: Word16, fadeLength: Word16, fadeLevel: Word16)

  /** From a to b in `span` steps, after t of them. */
  function Lerp(a: int, b: int, t: nat, span: nat): (v: int)
    requires span > 0
  {
    a + TruncDiv((b - a) * t, span)
  }

  predicate Attacking(e: Envelope, elapsed: nat) {
    elapsed < e.attackLength
  }

  predicate Fading(e: Envelope, elapsed: nat, length: nat) {
    !Attacking(e, elapsed) && length != 0 && e.fadeLength != 0 && length >= e.fadeLength &&
        elapsed > length - e.fadeLength
  }

  /** Ticks into the fade, stopping at its end. */
  function FadeTicks(e: Envelope, elapsed: nat, length: nat): (t: nat)
    requires Fading(e, elapsed, length)
    ensures t <= e.fadeLength
  {
    Min(elapsed - (length - e.fadeLength), e.fadeLength)
  }

  /** A level that is not negative, as the envelope shapes it. */
  function Shaped(e: Envelope, level: nat, elapsed: nat, length: nat): (v: int) {
    if Attacking(e, elapsed) then Lerp(e.attackLevel, level, elapsed, e.attackLength)
    else if Fading(e, elapsed, length) then
      level - TruncDiv((level - e.fadeLevel) * FadeTicks(e, elapsed, length), e.fadeLength)
    else level
  }

  function ApplyEnvelope(e: Envelope, magnitude: int, elapsed: nat, length: nat): (v: int) {
    if e.attackLength == 0 && e.fadeLength == 0 then magnitude
    else (if magnitude < 0 then -1 else 1) * Shaped(e, Abs(magnitude), elapsed, length)
  }

  lemma LerpStaysBetween(a: int, b: int, t: nat, span: nat)
    requires span > 0 && t <= span
    ensures a <= b ==> a <= Lerp(a, b, t, span) <= b
    ensures b <= a ==> b <= Lerp(a, b, t, span) <= a
    ensures t == 0 ==> Lerp(a, b, t, span) == a
    ensures t == span ==> Lerp(a, b, t, span) == b
  {
    var d := Abs(b - a);
    var q := d * t / span;
    assert (b - a) * t == if b >= a then d * t else -(d * t);
    DivBounds(d * t, span);
    MulLe(0, d, t);
    MulLe(t, span, d);
    DivOfProduct(d, span);
    CancelLt(q, d + 1, span) by { Distribute(d, 1, span); }
    CancelLt(-1, q, span) by { Distribute(q, 1, span); }
  }

  lemma LerpMonotone(a: int, b: int, t: nat, u: nat, span: nat)
    requires span > 0 && t <= u <= span
    ensures a <= b ==> Lerp(a, b, t, span) <= Lerp(a, b, u, span)
    ensures b <= a ==> Lerp(a, b, t, span) >= Lerp(a, b, u, span)
  {
    if a <= b {
      MulLe(t, u, b - a);
      TruncDivMonotone((b - a) * t, (b - a) * u, span);
    }
    if b <= a {
      MulLe(t, u, a - b);
      assert (b - a) * t == -((a - b) * t) && (b - a) * u == -((a - b) * u);
      TruncDivMonotone((b - a) * u, (b - a) * t, span);
    }
  }

  lemma TruncDivMonotone(x: int, y: int, span: nat)
    requires span > 0 && x <= y
    ensures TruncDiv(x, span) <= TruncDiv(y, span)
  {
    if x >= 0 {
      DivMonotone(x, y, span);
    } else if y < 0 {
      DivMonotone(-y, -x, span);
    } else {
      DivMonotone(0, -x, span);
      DivMonotone(0, y, span);
    }
  }

  lemma DivMonotone(x: nat, y: nat, span: nat)
    requires span > 0 && x <= y
    ensures 0 <= x / span <= y / span
  {
    DivBounds(x, span);
    DivBounds(y, span);
    Distribute(y / span, 1, span);
    CancelLt(x / span, y / span + 1, span);
  }

  /** The line is followed from its start and never overtaken, less than a unit behind. */
  predicate OnLine(v: int, a: int, b: int, t: int, span: int) {
    if a <= b then 0 <= (b - a) * t - span * (v - a) < span else 0 <= (a - b) * t - span * (a - v) < span
  }

  lemma LerpIsOnLine(a: int, b: int, t: nat, span: nat)
    requires span > 0
    ensures OnLine(Lerp(a, b, t, span), a, b, t, span)
  {
    var x := Abs(b - a) * t;
    MulLe(0, Abs(b - a), t);
    assert (b - a) * t == if b >= a then x else -x;
    DivBounds(x, span);
  }

  lemma FadeIsLerp(e: Envelope, level: nat, t: nat)
    requires e.fadeLength > 0
    ensures level - TruncDiv((level - e.fadeLevel) * t, e.fadeLength) == Lerp(level, e.fadeLevel, t, e.fadeLength)
  {
    assert (e.fadeLevel - level) * t == -((level - e.fadeLevel) * t);
  }

  predicate Between(v: int, a: int, b: int) {
    a <= v <= b || b <= v <= a
  }

  /**
   * Whatever the envelope, inverted or longer than the effect, the shaped level stays
   * between the effect's own level and the level of the phase it is in; the attack
   * starts on the attack level and the fade ends on the fade level and stays there.
   */
  lemma EnvelopeStaysInHull(e: Envelope, level: nat, elapsed: nat, length: nat)
    ensures var v := Shaped(e, level, elapsed, length);
            if Attacking(e, elapsed) then Between(v, e.attackLevel, level) && (elapsed == 0 ==> v == e.attackLevel)
            else if Fading(e, elapsed, length) then
              Between(v, e.fadeLevel, level) && (elapsed >= length ==> v == e.fadeLevel)
            else v == level
  {
    hide Lerp;
    if Attacking(e, elapsed) {
      LerpStaysBetween(e.attackLevel, level, elapsed, e.attackLength);
    } else if Fading(e, elapsed, length) {
      FadeIsLerp(e, level, FadeTicks(e, elapsed, length));
      LerpStaysBetween(level, e.fadeLevel, FadeTicks(e, elapsed, length), e.fadeLength);
    }
  }

  /**
   * A straight line from the attack level over the attack, the level itself, and a
   * straight line down to the fade level over the last of the effect, when the whole fade
   * fits in it; a negative magnitude is shaped as its mirror image.
   */
  lemma EnvelopeIsStraight(e: Envelope, level: nat, elapsed: nat, length: nat)
    ensures level > 0 ==>
              ApplyEnvelope(e, -(level as int), elapsed, length) == -ApplyEnvelope(e, level, elapsed, length)
    ensures var v := ApplyEnvelope(e, level, elapsed, length);
            if elapsed < e.attackLength then OnLine(v, e.attackLevel, level, elapsed, e.attackLength)
            else if 0 < e.fadeLength <= length && elapsed + e.fadeLength > length then
              OnLine(v, level, e.fadeLevel, Min(elapsed + e.fadeLength - length, e.fadeLength), e.fadeLength)
            else v == level
  {
    hide Lerp, OnLine;
    if Attacking(e, elapsed) {
      LerpIsOnLine(e.attackLevel, level, elapsed, e.attackLength);
    } else if Fading(e, elapsed, length) {
      FadeIsLerp(e, level, FadeTicks(e, elapsed, length));
      LerpIsOnLine(level, e.fadeLevel, FadeTicks(e, elapsed, length), e.fadeLength);
    }
  }

  /** Within the attack and within the fade the level moves one way only. */
  lemma EnvelopeIsMonotoneInEachPhase(e: Envelope, level: nat, a: nat, b: nat, length: nat)
    requires a <= b
    ensures Attacking(e, b) && level >= e.attackLevel ==> Shaped(e, level, a, length) <= Shaped(e, level, b, length)
    ensures Attacking(e, b) && level <= e.attackLevel ==> Shaped(e, level, a, length) >= Shaped(e, level, b, length)
    ensures Fading(e, a, length) && level >= e.fadeLevel ==> Shaped(e, level, a, length) >= Shaped(e, level, b, length)
    ensures Fading(e, a, length) && level <= e.fadeLevel ==> Shaped(e, level, a, length) <= Shaped(e, level, b, length)
  {
    hide Lerp;
    if Attacking(e, b) {
      LerpMonotone(e.attackLevel, level, a, b, e.attackLength);
    }
    if Fading(e, a, length) {
      var t, v := FadeTicks(e, a, length), FadeTicks(e, b, length);
      FadeIsLerp(e, level, t);
      FadeIsLerp(e, level, v);
      LerpMonotone(level, e.fadeLevel, t, v, e.fadeLength);
    }
  }

  /** The envelope lifts a zero level: in an attack from anywhere but zero, or once a fade has come far enough up. */
  predicate RaisesZero(e: Envelope, elapsed: nat, length: nat) {
    || (Attacking(e, elapsed) && e.attackLevel > 0)
    || (Fading(e, elapsed, length) && e.fadeLevel * FadeTicks(e, elapsed, length) >= e.fadeLength)
  }

  lemma AttackFromAbove(level: nat, t: nat, span: nat)
    requires t < span
    ensures Lerp(level, 0, t, span) != 0 <==> level > 0
  {
    var q := level * t / span;
    assert (0 - level) * t == -(level * t);
    DivBounds(level * t, span);
    MulLe(0, level, t);
    if level > 0 {
      MulLe(t, span - 1, level);
      Distribute(span, 1, level);
      CancelLt(q, level, span);
    }
  }

  lemma FadeFromZero(level: nat, t: nat, span: nat)
    requires span > 0
    ensures Lerp(0, level, t, span) != 0 <==> level * t >= span
  {
    var q := level * t / span;
    DivBounds(level * t, span);
    MulLe(0, level, t);
  }

  lemma ZeroIsRaised(e: Envelope, elapsed: nat, length: nat)
    ensures Shaped(e, 0, elapsed, length) != 0 <==> RaisesZero(e, elapsed, length)
  {
    if Attacking(e, elapsed) {
      AttackFromAbove(e.attackLevel, elapsed, e.attackLength);
    } else if Fading(e, elapsed, length) {
      FadeIsLerp(e, 0, FadeTicks(e, elapsed, length));
      FadeFromZero(e.fadeLevel, FadeTicks(e, elapsed, length), e.fadeLength);
    }
  }

  /** Mirrored magnitudes give mirrored results exactly unless the magnitude is zero and the envelope lifts it. */
  lemma EnvelopeIsOddIffZeroIsNotRaised(e: Envelope, magnitude: int, elapsed: nat, length: nat)
    ensures ApplyEnvelope(e, -magnitude, elapsed, length) == -ApplyEnvelope(e, magnitude, elapsed, length) <==>
            !(magnitude == 0 && RaisesZero(e, elapsed, length))
  {
    ZeroIsRaised(e, elapsed, length);
    hide Shaped;
  }

  /**
   * Silence with an attack from half scale starts at half scale to the right, and so does
   * silence with a fade to it end.
   */
  lemma ZeroCanBeRaised()
    ensures ApplyEnvelope(Envelope(100, 0x4000, 0, 0), 0, 0, 1000) == 0x4000
    ensures ApplyEnvelope(Envelope(0, 0, 100, 0x4000), 0, 1000, 1000) == 0x4000
  {
    EnvelopeStaysInHull(Envelope(100, 0x4000, 0, 0), 0, 0, 1000);
    EnvelopeStaysInHull(Envelope(0, 0, 100, 0x4000), 0, 1000, 1000);
  }
}
