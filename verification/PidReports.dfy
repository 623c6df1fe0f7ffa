/**
 * PID output reports and the effect operations they decode to
 * (userspace/logi-wheel/crates/logi-ffb/src/pidff.rs).
 */
module PidReports {
  import opened Words

  datatype EffectKind =
    Constant | Ramp | Square | Sine | Triangle | SawUp | SawDown | Spring | Damper | Inertia | Friction

  datatype DeviceControl = EnableActuators | DisableActuators | StopAllEffects | Reset | Pause | Continue

  datatype EffectOp =
    | Create(block: Byte, kind: EffectKind)
    | SetEffect(block: Byte, duration: Word16, direction: Word16)
    | SetConstant(block: Byte, magnitude: Int16)
    | SetRamp(block: Byte, start: Int16, end: Int16)
    | SetPeriodic(block: Byte, magnitude: Int16, offset: Int16, phase: Word16, period: Word16)
    | SetCondition(block: Byte, centre: Int16, coeffPos: Int16, coeffNeg: Int16, satPos: Word16, satNeg: Word16)
    | SetEnvelope(block: Byte, attackMs: Word16, attackLevel: Word16, fadeMs: Word16, fadeLevel: Word16)
    | Operation(block: Byte, starts: bool, loopCount: Byte)
    | Destroy(block: Byte)
    | Gain(value: Byte)
    | Control(op: DeviceControl)

  const INFINITE: Word16 := 0xffff

  // ------------------------------------------------------------ bytes

  function ToInt16(w: Word16): (v: Int16) {
    if w < 0x8000 then w else w - 0x1_0000
  }

  function FromInt16(v: Int16): (w: Word16) {
    if v >= 0 then v else v + 0x1_0000
  }

  function Le(w: Word16): (bs: seq<Byte>)
    ensures |bs| == 2
  {
    [w % 256, w / 256]
  }

  function IntAt(r: seq<Byte>, at: nat): (v: Int16)
    requires at + 1 < |r|
  {
    ToInt16(WordAt(r, at))
  }

  // ------------------------------------------------------------ effect types

  /** Either the 1-based index into the descriptor's usage list or the usage itself. */
  function KindOfByte(b: Byte): (k: Option<EffectKind>) {
    if b == 1 || b == 0x26 then Some(Constant)
    else if b == 2 || b == 0x27 then Some(Ramp)
    else if b == 4 || b == 0x30 then Some(Square)
    else if b == 5 || b == 0x31 then Some(Sine)
    else if b == 6 || b == 0x32 then Some(Triangle)
    else if b == 7 || b == 0x33 then Some(SawUp)
    else if b == 8 || b == 0x34 then Some(SawDown)
    else if b == 9 || b == 0x40 then Some(Spring)
    else if b == 10 || b == 0x41 then Some(Damper)
    else if b == 11 || b == 0x42 then Some(Inertia)
    else if b == 12 || b == 0x43 then Some(Friction)
    else None
  }

  /** The descriptor's usage list, in its declared order. */
  const USAGES: seq<Byte> := [0x26, 0x27, 0x28, 0x30, 0x31, 0x32, 0x33, 0x34, 0x40, 0x41, 0x42, 0x43]

  /** Both encodings name the same effect: an index means the usage it stands for. */
  lemma IndexMeansUsage(i: nat)
    requires 1 <= i <= |USAGES|
    ensures KindOfByte(i) == KindOfByte(USAGES[i - 1])
    ensures KindOfByte(i).None? <==> USAGES[i - 1] == 0x28
  {
    assert USAGES[0] == 0x26 && USAGES[1] == 0x27 && USAGES[2] == 0x28 && USAGES[3] == 0x30 && USAGES[4] == 0x31 &&
        USAGES[5] == 0x32;
    assert USAGES[6] == 0x33 && USAGES[7] == 0x34 && USAGES[8] == 0x40 && USAGES[9] == 0x41 && USAGES[10] == 0x42 &&
        USAGES[11] == 0x43;
  }

  /** The effect types of the Physical Interface Device page. */
  function UsageOf(kind: EffectKind): (usage: Byte) {
    match kind
    case Constant => 0x26
    case Ramp => 0x27
    case Square => 0x30
    case Sine => 0x31
    case Triangle => 0x32
    case SawUp => 0x33
    case SawDown => 0x34
    case Spring => 0x40
    case Damper => 0x41
    case Inertia => 0x42
    case Friction => 0x43
  }

  /** A byte selects a kind exactly when it is that kind's usage or the place of it in the list, counted from 1. */
  lemma ByteSelectsItsUsage(b: Byte, kind: EffectKind)
    ensures KindOfByte(b) == Some(kind) <==>
              b == UsageOf(kind) || (1 <= b <= |USAGES| && USAGES[b - 1] == UsageOf(kind))
  {
    if 1 <= b <= |USAGES| { IndexMeansUsage(b); }
  }

  // ------------------------------------------------------------ decoding

  function ControlOf(b: Byte): (op: Option<DeviceControl>) {
    if b == 1 then Some(EnableActuators)
    else if b == 2 then Some(DisableActuators)
    else if b == 3 then Some(StopAllEffects)
    else if b == 4 then Some(Reset)
    else if b == 5 then Some(Pause)
    else if b == 6 then Some(Continue)
    else None
  }

  function RampLevel(b: Byte): (v: Int16) {
    b as int * 32767 / 255
  }

  function Decode(r: seq<Byte>): (op: Option<EffectOp>) {
    if |r| == 0 then None
    else if r[0] == 0x50 then
      if |r| < 2 || ControlOf(r[1]).None? then None else Some(Control(ControlOf(r[1]).value))
    else if r[0] == 0x51 then
      if |r| < 16 then None
      else Some(SetEffect(r[1], if WordAt(r, 3) == INFINITE then 0 else WordAt(r, 3), WordAt(r, 14)))
    else if r[0] == 0x52 then
      if |r| < 10 then None else Some(SetEnvelope(r[1], WordAt(r, 6), WordAt(r, 2), WordAt(r, 8), WordAt(r, 4)))
    else if r[0] == 0x53 then
      if |r| < 13 then None
      else Some(SetCondition(r[1], IntAt(r, 3), IntAt(r, 5), IntAt(r, 7), WordAt(r, 9), WordAt(r, 11)))
    else if r[0] == 0x55 then
      if |r| < 4 then None else Some(SetConstant(r[1], IntAt(r, 2)))
    else if r[0] == 0x58 then
      if |r| < 4 then None else Some(SetRamp(r[1], RampLevel(r[2]), RampLevel(r[3])))
    else if r[0] == 0x59 then
      if |r| < 2 then None else Some(Gain(r[1]))
    else if r[0] == 0x5b then
      if |r| < 2 then None else Some(Destroy(r[1]))
    else if r[0] == 0x5a then
      if |r| < 4 then None else Some(Operation(r[1], r[2] == 1 || r[2] == 2, r[3]))
    else if r[0] == 0x5d then
      if |r| < 10 then None else Some(SetPeriodic(r[1], IntAt(r, 2), IntAt(r, 4), WordAt(r, 6), WordAt(r, 8)))
    else None
  }

  /** Effects are created only by the feature request, never by an output report. */
  lemma DecodeNeverCreates(r: seq<Byte>)
    ensures Decode(r).Some? ==> !Decode(r).value.Create?
  {
  }

  /** Reports byte for byte: the six controls, and the commands to one block and to the device. */
  lemma KnownCommands()
    ensures Decode([0x50, 1]) == Some(Control(EnableActuators)) && Decode([0x50, 2]) == Some(Control(DisableActuators))
    ensures Decode([0x50, 3]) == Some(Control(StopAllEffects)) && Decode([0x50, 4]) == Some(Control(Reset))
    ensures Decode([0x50, 5]) == Some(Control(Pause)) && Decode([0x50, 6]) == Some(Control(Continue))
    ensures Decode([0x59, 200]) == Some(Gain(200)) && Decode([0x5b, 7]) == Some(Destroy(7))
    ensures Decode([0x5a, 7, 1, 3]) == Decode([0x5a, 7, 2, 3]) == Some(Operation(7, true, 3))
    ensures Decode([0x5a, 7, 3, 3]) == Some(Operation(7, false, 3))
  {
  }

  /** And the simple settings: a level, and a ramp from none to all. */
  lemma KnownLevels()
    ensures Decode([0x55, 7, 1, 0x80]) == Some(SetConstant(7, -0x7fff))
    ensures Decode([0x58, 7, 0, 255]) == Some(SetRamp(7, 0, 32767))
  {
  }

  // ------------------------------------------------------------ the host's side

  function ControlByte(op: DeviceControl): (b: Byte) {
    match op
    case EnableActuators => 1
    case DisableActuators => 2
    case StopAllEffects => 3
    case Reset => 4
    case Pause => 5
    case Continue => 6
  }

  /** What an output report can say: no creation, no sentinel as a duration, and ramp levels of one unsigned byte. */
  predicate Sayable(op: EffectOp) {
    match op
    case Create(_, _) => false
    case SetEffect(_, duration, _) => duration != INFINITE
    case SetRamp(_, start, end) => RampLevel(RampByte(start)) == start && RampLevel(RampByte(end)) == end
    case _ => true
  }

  function RampByte(v: Int16): (b: Byte) {
    if v < 0 then 0 else (v as int * 255 + 32766) / 32767
  }

  /** The report a host sends for an operation; an endless effect is sent as the sentinel. */
  function Report(op: EffectOp): (r: seq<Byte>)
    requires Sayable(op)
  {
    match op
    case SetEffect(block, duration, direction) =>
      [0x51, block, 0] + Le(if duration == 0 then INFINITE else duration) + [0, 0, 0, 0, 0, 0, 0, 0, 0] + Le(direction)
    case SetConstant(block, magnitude) => [0x55, block] + Le(FromInt16(magnitude))
    case SetRamp(block, start, end) => [0x58, block, RampByte(start), RampByte(end)]
    case SetPeriodic(block, magnitude, offset, phase, period) =>
      [0x5d, block] + Le(FromInt16(magnitude)) + Le(FromInt16(offset)) + Le(phase) + Le(period)
    case SetCondition(block, centre, coeffPos, coeffNeg, satPos, satNeg) =>
      [0x53, block, 0] + Le(FromInt16(centre)) + Le(FromInt16(coeffPos)) + Le(FromInt16(coeffNeg)) +
          Le(satPos) + Le(satNeg)
    case SetEnvelope(block, attackMs, attackLevel, fadeMs, fadeLevel) =>
      [0x52, block] + Le(attackLevel) + Le(fadeLevel) + Le(attackMs) + Le(fadeMs)
    case Operation(block, starts, loopCount) => [0x5a, block, if starts then 1 else 3, loopCount]
    case Destroy(block) => [0x5b, block]
    case Gain(value) => [0x59, value]
    case Control(op) => [0x50, ControlByte(op)]
  }

  lemma LeRoundTrip(r: seq<Byte>, at: nat, w: Word16)
    requires at + 1 < |r| && r[at] == Le(w)[0] && r[at + 1] == Le(w)[1]
    ensures WordAt(r, at) == w
  {
  }

  lemma EffectRoundTrip(op: EffectOp)
    requires op.SetEffect? && Sayable(op)
    ensures Decode(Report(op)) == Some(op)
  {
    hide WordAt;
    var r := Report(op);
    LeRoundTrip(r, 3, if op.duration == 0 then INFINITE else op.duration);
    LeRoundTrip(r, 14, op.direction);
  }

  lemma ConditionRoundTrip(op: EffectOp)
    requires op.SetCondition?
    ensures Decode(Report(op)) == Some(op)
  {
    hide WordAt;
    var r := Report(op);
    LeRoundTrip(r, 3, FromInt16(op.centre));
    LeRoundTrip(r, 5, FromInt16(op.coeffPos));
    LeRoundTrip(r, 7, FromInt16(op.coeffNeg));
    LeRoundTrip(r, 9, op.satPos);
    LeRoundTrip(r, 11, op.satNeg);
  }

  lemma PeriodicRoundTrip(op: EffectOp)
    requires op.SetPeriodic?
    ensures Decode(Report(op)) == Some(op)
  {
    hide WordAt;
    var r := Report(op);
    LeRoundTrip(r, 2, FromInt16(op.magnitude));
    LeRoundTrip(r, 4, FromInt16(op.offset));
    LeRoundTrip(r, 6, op.phase);
    LeRoundTrip(r, 8, op.period);
  }

  lemma EnvelopeRoundTrip(op: EffectOp)
    requires op.SetEnvelope?
    ensures Decode(Report(op)) == Some(op)
  {
    hide WordAt;
    var r := Report(op);
    LeRoundTrip(r, 2, op.attackLevel);
    LeRoundTrip(r, 4, op.fadeLevel);
    LeRoundTrip(r, 6, op.attackMs);
    LeRoundTrip(r, 8, op.fadeMs);
  }

  /** Every operation an output report can express survives the trip. */
  lemma ReportRoundTrip(op: EffectOp)
    requires Sayable(op)
    ensures Decode(Report(op)) == Some(op)
  {
    if op.SetEffect? { EffectRoundTrip(op); }
    else if op.SetCondition? { ConditionRoundTrip(op); }
    else if op.SetPeriodic? { PeriodicRoundTrip(op); }
    else if op.SetEnvelope? { EnvelopeRoundTrip(op); }
    else if op.SetConstant? { LeRoundTrip(Report(op), 2, FromInt16(op.magnitude)); }
  }

  lemma RampByteRoundTrip(b: Byte)
    ensures RampByte(RampLevel(b)) == b
  {
  }

  /** And nothing else is ever decoded. */
  lemma DecodedIsSayable(r: seq<Byte>)
    requires Decode(r).Some?
    ensures Sayable(Decode(r).value)
  {
    if Decode(r).value.SetRamp? {
      RampByteRoundTrip(r[2]);
      RampByteRoundTrip(r[3]);
    }
  }
}
