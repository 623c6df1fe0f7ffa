/**
 * The kernel's force-feedback effects as the proxy builds them
 * (userspace/logi-wheel/crates/logi-ffb/src/sink.rs).
 */
module FfEffects {
  import opened Words
  import opened PidReports

  const UNION_SIZE: nat := 32

  /** Everything known about one effect block, whatever its kind. */
  datatype Params = Params(
    duration: Word16, direction: Word16,
    constant: Int16,
    rampStart: Int16, rampEnd: Int16,
    magnitude: Int16, offset: Int16, phase: Word16, period: Word16,
    centre: Int16, coeffPos: Int16, coeffNeg: Int16, satPos: Word16, satNeg: Word16,
    attackMs: Word16, attackLevel: Word16, fadeMs: Word16, fadeLevel: Word16)

  const DEFAULT: Params := Params(0, 0, 0, 0, 0, 0, 0, 0, 0, 0, 0, 0, 0, 0, 0, 0, 0, 0)

  /** `struct ff_effect`, its union as bytes; trigger and replay delay are always zero. */
  datatype FfEffect = FfEffect(kind: Word16, id: int, direction: Word16, length: Word16, u: seq<Byte>)

  function TypeOf(kind: EffectKind): (t: Word16) {
    match kind
    case Constant => 0x52
    case Ramp => 0x57
    case Spring => 0x53
    case Damper => 0x55
    case Inertia => 0x56
    case Friction => 0x54
    case _ => 0x51
  }

  function WaveformOf(kind: EffectKind): (w: Word16)
    ensures w != 0 <==> TypeOf(kind) == 0x51
  {
    match kind
    case Sine => 0x5a
    case Square => 0x58
    case Triangle => 0x59
    case SawUp => 0x5b
    case SawDown => 0x5c
    case _ => 0
  }

  function Envelope(p: Params): (ws: seq<Word16>)
    ensures |ws| == 4
  {
    [p.attackMs, p.attackLevel, p.fadeMs, p.fadeLevel]
  }

  /** The union's leading 16-bit fields; the rest stays zero. */
  function Body(kind: EffectKind, p: Params): (ws: seq<Word16>)
    ensures |ws| <= 9
  {
    if kind.Constant? then [FromInt16(p.constant)] + Envelope(p)
    else if kind.Ramp? then [FromInt16(p.rampStart), FromInt16(p.rampEnd)] + Envelope(p)
    else if TypeOf(kind) == 0x51 then
      [WaveformOf(kind), p.period, FromInt16(p.magnitude), FromInt16(p.offset), p.phase] + Envelope(p)
    else [p.satPos, p.satNeg, FromInt16(p.coeffPos), FromInt16(p.coeffNeg), 0, FromInt16(p.centre)]
  }

  /** Little-endian fields, zero-padded to the size of the union. */
  function Union(ws: seq<Word16>): (u: seq<Byte>)
    requires 2 * |ws| <= UNION_SIZE
    ensures |u| == UNION_SIZE
  {
    seq(UNION_SIZE, i requires 0 <= i < UNION_SIZE => if i / 2 < |ws| then Le(ws[i / 2])[i % 2] else 0)
  }

  function ToFf(kind: EffectKind, p: Params, id: int): (e: FfEffect)
    ensures |e.u| == UNION_SIZE
  {
    FfEffect(TypeOf(kind), id, EvdevDirection(p.direction), p.duration, Union(Body(kind, p)))
  }

  // ------------------------------------------------------------ what the kernel reads

  function KindRead(t: Word16, waveform: Word16): (k: Option<EffectKind>) {
    if t == 0x52 then Some(Constant)
    else if t == 0x57 then Some(Ramp)
    else if t == 0x53 then Some(Spring)
    else if t == 0x55 then Some(Damper)
    else if t == 0x56 then Some(Inertia)
    else if t == 0x54 then Some(Friction)
    else if t == 0x51 && waveform == 0x5a then Some(Sine)
    else if t == 0x51 && waveform == 0x58 then Some(Square)
    else if t == 0x51 && waveform == 0x59 then Some(Triangle)
    else if t == 0x51 && waveform == 0x5b then Some(SawUp)
    else if t == 0x51 && waveform == 0x5c then Some(SawDown)
    else None
  }

  /** The parameters an effect of this kind is made of; the others do not matter to it. */
  function Relevant(kind: EffectKind, p: Params): (r: Params) {
    var d := DEFAULT.(duration := p.duration, direction := Canonical(p.direction));
    if kind.Constant? then WithEnvelope(d.(constant := p.constant), p)
    else if kind.Ramp? then WithEnvelope(d.(rampStart := p.rampStart, rampEnd := p.rampEnd), p)
    else if TypeOf(kind) == 0x51 then
      WithEnvelope(d.(period := p.period, magnitude := p.magnitude, offset := p.offset, phase := p.phase), p)
    else d.(satPos := p.satPos, satNeg := p.satNeg, coeffPos := p.coeffPos, coeffNeg := p.coeffNeg, centre := p.centre)
  }

  function WithEnvelope(d: Params, p: Params): (r: Params) {
    d.(attackMs := p.attackMs, attackLevel := p.attackLevel, fadeMs := p.fadeMs, fadeLevel := p.fadeLevel)
  }

  function ReadEnvelope(d: Params, u: seq<Byte>, at: nat): (r: Params)
    requires |u| == UNION_SIZE && at + 8 <= UNION_SIZE
  {
    d.(attackMs := WordAt(u, at), attackLevel := WordAt(u, at + 2), fadeMs := WordAt(u, at + 4),
        fadeLevel := WordAt(u, at + 6))
  }

  /** The kernel's reading of an effect: its kind by type and waveform, its fields at their offsets. */
  function FromFf(e: FfEffect): (r: Option<(EffectKind, Params)>)
    requires |e.u| == UNION_SIZE
  {
    var k := KindRead(e.kind, WordAt(e.u, 0));
    if k.None? then None
    else
      var kind := k.value;
      var d := DEFAULT.(duration := e.length, direction := DirectionRead(e.direction));
      Some((kind,
        if kind.Constant? then ReadEnvelope(d.(constant := IntAt(e.u, 0)), e.u, 2)
        else if kind.Ramp? then ReadEnvelope(d.(rampStart := IntAt(e.u, 0), rampEnd := IntAt(e.u, 2)), e.u, 4)
        else if e.kind == 0x51 then
          ReadEnvelope(d.(period := WordAt(e.u, 2), magnitude := IntAt(e.u, 4), offset := IntAt(e.u, 6),
              phase := WordAt(e.u, 8)), e.u, 10)
        else
          d.(satPos := WordAt(e.u, 0), satNeg := WordAt(e.u, 2), coeffPos := IntAt(e.u, 4),
              coeffNeg := IntAt(e.u, 6), centre := IntAt(e.u, 10))))
  }

  lemma UnionField(ws: seq<Word16>)
    requires 2 * |ws| <= UNION_SIZE
    ensures forall i :: 0 <= i < |ws| ==> WordAt(Union(ws), 2 * i) == ws[i]
  {
    forall i | 0 <= i < |ws| ensures WordAt(Union(ws), 2 * i) == ws[i] {
      LeRoundTrip(Union(ws), 2 * i, ws[i]);
    }
  }

  /** The kernel reads back exactly the kind, the direction and the parameters that matter to the kind. */
  lemma FfRoundTrip(kind: EffectKind, p: Params, id: int)
    ensures FromFf(ToFf(kind, p, id)) == Some((kind, Relevant(kind, p)))
  {
    DirectionIsReadBack(p.direction);
    hide WordAt, Union, EvdevDirection, DirectionRead, Canonical;
    var ws := Body(kind, p);
    var u := Union(ws);
    UnionField(ws);
    assert WordAt(u, 2 * 0) == ws[0] && WordAt(u, 2 * 1) == ws[1] && WordAt(u, 2 * 2) == ws[2] &&
        WordAt(u, 2 * 3) == ws[3] && WordAt(u, 2 * 4) == ws[4];
    assert |ws| > 5 ==> WordAt(u, 2 * 5) == ws[5];
    assert |ws| > 6 ==> WordAt(u, 2 * 6) == ws[6] && WordAt(u, 2 * 7) == ws[7] && WordAt(u, 2 * 8) == ws[8];
  }

  // ------------------------------------------------------------ direction

  /** Hundredths of a degree to 1/65536 of a turn, north and south turned onto the wheel's axis. */
  function EvdevDirection(d: Word16): (r: Word16) {
    if d == 0 then 0x4000
    else if d == 18000 then 0xc000
    else Min(d * 0x1_0000 / 36000, 0xffff)
  }

  /** The one direction among those that share an image that lies where the image does. */
  function Canonical(d: Word16): (c: Word16) {
    if d == 0 then 9000 else if d == 18000 then 27000 else if d >= 36000 then 36000 else d
  }

  /** Back to hundredths of a degree, rounding up. */
  function DirectionRead(r: Word16): (d: Word16) {
    (r * 36000 + 0xffff) / 0x1_0000
  }

  lemma DirectionIsReadBack(d: Word16)
    ensures DirectionRead(EvdevDirection(d)) == Canonical(d)
  {
    if d != 0 && d != 18000 && d < 36000 {
      var r := d * 0x1_0000 / 36000;
      DivBounds(d * 0x1_0000, 36000);
      DivBounds(r * 36000 + 0xffff, 0x1_0000);
    }
  }

  /** Which directions are told apart: all but north from east, south from west, and those past the full turn. */
  lemma DirectionsShareAnImageIff(d: Word16, e: Word16)
    ensures EvdevDirection(d) == EvdevDirection(e) <==> Canonical(d) == Canonical(e)
  {
    DirectionIsReadBack(d);
    DirectionIsReadBack(e);
  }

  /** Opposite directions stay opposite, and none falls on the line where the wheel feels nothing. */
  lemma DirectionsKeepTheirSide(d: Word16)
    ensures EvdevDirection(d) != 0 && EvdevDirection(d) != 0x8000
    ensures d < 18000 ==> EvdevDirection(d + 18000) == EvdevDirection(d) + 0x8000
    ensures 0 < d < 18000 ==> 0 < EvdevDirection(d) < 0x8000
    ensures 18000 < d ==> 0x8000 < EvdevDirection(d)
  {
    if 0 < d < 18000 {
      assert (d + 18000) * 0x1_0000 == d * 0x1_0000 + 36000 * 0x8000;
      assert (d * 0x1_0000 + 36000 * 0x8000) / 36000 == d * 0x1_0000 / 36000 + 0x8000;
    }
  }
}
