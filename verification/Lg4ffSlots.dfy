/**
 * The classic wheel's four command slots (mainline/dd-lg4ff.c): how a slot's command
 * is packed, when it is left unsent, and what the wheel makes of what it is sent.
 */
module Lg4ffSlots {
  import opened Words

  const SLOTS: nat := 4

  /** Effect types; `NoKind` is the zero of a cleared structure. */
  datatype Kind = NoKind | Constant | Ramp | Periodic | Spring | Damper | Friction | Inertia

  datatype Parameters = Parameters(level: int, d1: int, d2: int, k1: int, k2: int, clip: nat)

  const ZERO: Parameters := Parameters(0, 0, 0, 0, 0, 0)

  type Command = c: seq<Byte> | |c| == 7 witness [0, 0, 0, 0, 0, 0, 0]

  datatype Slot = Slot(id: nat, cmd: Command, op: Byte, updated: bool, kind: Kind)

  // ------------------------------------------------------------ scaling

  function ScaleU16(x: nat, bits: nat): (r: nat)
    requires bits == 4 || bits == 8 || bits == 11
    ensures bits == 4 ==> r < 16
    ensures bits == 8 ==> r < 256
    ensures bits == 11 ==> r < 2048
  {
    var clamped := if x > 0xffff then 0xffff else x;
    if bits == 4 then clamped / 0x1000 else if bits == 8 then clamped / 0x100 else clamped / 0x20
  }

  function ScaleCoeff(x: int, bits: nat): (r: nat)
    requires bits == 4 || bits == 8
    ensures bits == 4 ==> r < 16
    ensures bits == 8 ==> r < 256
  {
    ScaleU16(Abs(x) * 2, bits)
  }

  /** Clamped to 16 bits signed, stored unsigned, offset, and cut down to a byte. */
  function TranslateForce(x: int): (b: Byte) {
    var clamped := if x <= -0x8000 then -0x8000 else if x > 0x7fff then 0x7fff else x;
    (((clamped % U16) + 0x8000) / 0x100) % U8
  }

  /** The byte is the clamped force in offset binary: rising, centred on 0x80. */
  lemma ForceByteIsOffsetBinary(x: int, y: int)
    ensures -0x8000 <= x <= 0x7fff ==>
             (TranslateForce(x) as int - 0x80) * 0x100 <= x < (TranslateForce(x) as int - 0x80) * 0x100 + 0x100
    ensures x <= y ==> TranslateForce(x) <= TranslateForce(y)
    ensures x < -0x8000 ==> TranslateForce(x) == 0
    ensures x > 0x7fff ==> TranslateForce(x) == 0xff
  {
    forall v: int | -0x8000 <= v <= 0x7fff ensures TranslateForce(v) as int == (v + 0x8000) / 0x100 {
      if v < 0 { assert v % U16 == v + U16; }
    }
    assert TranslateForce(-0x8000) == 0 && TranslateForce(0x7fff) == 0xff;
  }

  // ------------------------------------------------------------ packing

  function Sign(k: int): (s: int)
    ensures s == 0 || s == 1
  {
    if k < 0 then 1 else 0
  }

  /** The spring's edges and coefficients as they are put on the wire. */
  datatype SpringWire = SpringWire(d1: nat, d2: nat, k1: nat, k2: nat, s1: int, s2: int, clip: nat) {
    predicate Valid() {
      d1 < 2048 && d2 < 2048 && k1 < 16 && k2 < 16 && 0 <= s1 <= 1 && 0 <= s2 <= 1 && clip < 256
    }
  }

  function SpringOf(p: Parameters): (w: SpringWire)
    ensures w.Valid()
  {
    var a1, a2 := Abs(p.k1), Abs(p.k2);
    SpringWire(
      if a1 < 2048 then 0 else ScaleU16((p.d1 + 0x8000) % U16, 11),
      if a2 < 2048 then 2047 else ScaleU16((p.d2 + 0x8000) % U16, 11),
      ScaleCoeff(if a1 < 2048 then a1 else a1 - 2048, 4),
      ScaleCoeff(if a2 < 2048 then a2 else a2 - 2048, 4),
      Sign(p.k1), Sign(p.k2), ScaleU16(p.clip, 8))
  }

  function PackSpring(w: SpringWire): (bytes: seq<Byte>)
    requires w.Valid()
    ensures |bytes| == 6
  {
    [0x0b, w.d1 / 8, w.d2 / 8, w.k2 * 16 + w.k1, (w.d2 % 8) * 32 + (w.d1 % 8) * 2 + w.s2 * 16 + w.s1, w.clip]
  }

  /** Bytes 1 to 6 of a command that plays an effect of the slot's type. */
  function Payload(kind: Kind, id: nat, last: seq<Byte>, p: Parameters): (bytes: seq<Byte>)
    requires id < SLOTS && |last| == 6
    ensures |bytes| == 6
  {
    match kind
    case Constant => [0, 0, 0, 0, 0, 0][1 + id := TranslateForce(p.level)]
    case Spring => PackSpring(SpringOf(p))
    case Damper => [0x0c, ScaleCoeff(p.k1, 4), Sign(p.k1), ScaleCoeff(p.k2, 4), Sign(p.k2), ScaleU16(p.clip, 8)]
    case Friction =>
        [0x0e, ScaleCoeff(p.k1, 8), ScaleCoeff(p.k2, 8), ScaleU16(p.clip, 8), Sign(p.k2) * 16 + Sign(p.k1), 0]
    case _ => last
  }

  /** What the wheel reads out of a spring payload. */
  function UnpackSpring(b: seq<Byte>): (w: SpringWire)
    requires |b| == 6
  {
    SpringWire(b[1] as int * 8 + b[4] % 16 / 2, b[2] as int * 8 + b[4] / 32, b[3] % 16, b[3] / 16, b[4] % 2,
        b[4] / 16 % 2, b[5])
  }

  /** No two springs that differ on the wire share a payload: the bit fields do not overlap. */
  lemma SpringRoundTrip(w: SpringWire)
    requires w.Valid()
    ensures UnpackSpring(PackSpring(w)) == w
  {
    var b := PackSpring(w);
    var lo := (w.d1 % 8) * 2 + w.s1;
    assert b[4] == (w.d2 % 8) * 32 + w.s2 * 16 + lo && lo < 16;
    assert b[4] % 16 == lo && b[4] / 16 == (w.d2 % 8) * 2 + w.s2;
    assert b[4] / 32 == w.d2 % 8;
    assert b[4] % 2 == w.s1;
  }

  // ------------------------------------------------------------ what the payloads say of the effect

  /** A coefficient on the wire: one step of 2^(16 - bits) for twice the magnitude, full from 0x8000 on. */
  lemma CoefficientSteps(x: int)
    ensures ScaleCoeff(x, 4) == Min(15, Abs(x) / 0x800)
    ensures ScaleCoeff(x, 8) == Min(255, Abs(x) / 0x80)
  {
  }

  /** One side of a spring on the wire, from that side's parameters alone; `out` is the edge fully out. */
  predicate SideSays(edge: nat, coeff: nat, sign: int, out: nat, d: int, k: int) {
    && sign == (if k < 0 then 1 else 0)
    && (Abs(k) < 0x800 ==> edge == out && coeff == 0)
    && (Abs(k) >= 0x800 ==>
          && edge * 32 <= (d + 0x8000) % 0x1_0000 < edge * 32 + 32
          && coeff == Min(15, (Abs(k) - 0x800) / 0x800))
  }

  /** The spring's six bytes: side 1 follows d1 and k1, side 2 follows d2 and k2, and the clip is the effect's. */
  lemma SpringSaysItsParameters(p: Parameters, id: nat, last: seq<Byte>)
    requires id < SLOTS && |last| == 6
    ensures var b := Payload(Spring, id, last, p);
            var w := UnpackSpring(b);
            && b[0] == 0x0b
            && SideSays(w.d1, w.k1, w.s1, 0, p.d1, p.k1)
            && SideSays(w.d2, w.k2, w.s2, 2047, p.d2, p.k2)
            && w.clip == Min(255, p.clip / 0x100)
  {
    SpringRoundTrip(SpringOf(p));
    var a1: int, a2: int := Abs(p.k1), Abs(p.k2);
    CoefficientSteps(a1);
    CoefficientSteps(a2);
    CoefficientSteps(a1 - 2048);
    CoefficientSteps(a2 - 2048);
    hide UnpackSpring, PackSpring, ScaleCoeff;
  }

  /** A damper's and a friction's bytes: coefficients, signs and clip at their places. */
  lemma ResistanceSaysItsParameters(p: Parameters, id: nat, last: seq<Byte>)
    requires id < SLOTS && |last| == 6
    ensures var b := Payload(Damper, id, last, p);
            && b[0] == 0x0c && b[1] == Min(15, Abs(p.k1) / 0x800) && b[2] == (if p.k1 < 0 then 1 else 0)
            && b[3] == Min(15, Abs(p.k2) / 0x800) && b[4] == (if p.k2 < 0 then 1 else 0)
            && b[5] == Min(255, p.clip / 0x100)
    ensures var b := Payload(Friction, id, last, p);
            && b[0] == 0x0e && b[1] == Min(255, Abs(p.k1) / 0x80) && b[2] == Min(255, Abs(p.k2) / 0x80)
            && b[3] == Min(255, p.clip / 0x100) && b[4] % 16 == (if p.k1 < 0 then 1 else 0)
            && b[4] / 16 == (if p.k2 < 0 then 1 else 0) && b[5] == 0
  {
    CoefficientSteps(p.k1);
    CoefficientSteps(p.k2);
  }

  /** A constant force goes to the byte of its own slot, and to no other. */
  lemma ConstantSaysItsLevel(p: Parameters, id: nat, last: seq<Byte>)
    requires id < SLOTS && |last| == 6
    ensures var b := Payload(Constant, id, last, p);
            b[1 + id] == TranslateForce(p.level) && forall i :: 0 <= i < 6 && i != 1 + id ==> b[i] == 0
  {
  }

  function NextOp(slot: Slot, p: Parameters): (op: Byte)
    ensures op == 1 || op == 3 || op == 12
  {
    if slot.kind.Constant? then (if slot.op == 0 then 1 else 12)
    else if p.clip == 0 || slot.kind.NoKind? then 3
    else if slot.op == 3 then 1 else 12
  }

  function SelectByte(id: nat, op: Byte): (b: Byte)
    requires id < SLOTS && op < 16
    ensures b % 16 == op && b / 16 == [1, 2, 4, 8][id]
  {
    [0x10, 0x20, 0x40, 0x80][id] + op
  }

  function Packed(slot: Slot, p: Parameters): (cmd: Command)
    requires slot.id < SLOTS
  {
    var op := NextOp(slot, p);
    [SelectByte(slot.id, op)] + if op == 3 then [0, 0, 0, 0, 0, 0] else Payload(slot.kind, slot.id, slot.cmd[1..], p)
  }

  /** The last command as it would look refreshed: a start reads as an update. */
  function Refreshed(cmd: Command): (r: Command) {
    if cmd[0] % 16 == 1 then cmd[0 := cmd[0] / 16 * 16 + 12] else cmd
  }

  function Updated(slot: Slot, p: Parameters): (s: Slot)
    requires slot.id < SLOTS
  {
    var cmd := Packed(slot, p);
    slot.(cmd := cmd, op := NextOp(slot, p), updated := slot.updated || Refreshed(slot.cmd) != cmd)
  }

  // ------------------------------------------------------------ the wheel

  datatype Playback = Stopped | Playing(payload: seq<Byte>)

  type Wheel = w: seq<Playback> | |w| == SLOTS witness [Stopped, Stopped, Stopped, Stopped]

  /** One slot's playback after a command that names it. */
  function Obey(was: Playback, cmd: Command): (now: Playback) {
    if cmd[0] % 16 == 1 || cmd[0] % 16 == 12 then Playing(cmd[1..])
    else if cmd[0] % 16 == 3 then Stopped
    else was
  }

  predicate Names(cmd: Command, i: nat)
    requires i < SLOTS
  {
    cmd[0] / 16 / [1, 2, 4, 8][i] % 2 == 1
  }

  function Receive(w: Wheel, cmd: Command): (w': Wheel)
    ensures forall i :: 0 <= i < SLOTS ==> w'[i] == if Names(cmd, i) then Obey(w[i], cmd) else w[i]
  {
    seq(SLOTS, i requires 0 <= i < SLOTS => if Names(cmd, i) then Obey(w[i], cmd) else w[i])
  }

  function ReceiveAll(w: Wheel, cmds: seq<Command>): (w': Wheel)
    decreases |cmds|
  {
    if cmds == [] then w else ReceiveAll(Receive(w, cmds[0]), cmds[1..])
  }

  lemma {:induction false} ReceiveConcat(w: Wheel, a: seq<Command>, b: seq<Command>)
    ensures ReceiveAll(w, a + b) == ReceiveAll(ReceiveAll(w, a), b)
    decreases |a|
  {
    if a == [] {
      assert a + b == b;
    } else {
      assert (a + b)[1..] == a[1..] + b;
      ReceiveConcat(Receive(w, a[0]), a[1..], b);
    }
  }

  // ------------------------------------------------------------ elision

  ghost predicate SlotsFit(slots: seq<Slot>) {
    && |slots| == SLOTS
    && (forall i :: 0 <= i < SLOTS ==> slots[i].id == i)
    && slots[0].kind.Constant?
    && (forall i :: 1 <= i < SLOTS ==>
          slots[i].kind.NoKind? || slots[i].kind.Spring? || slots[i].kind.Damper? || slots[i].kind.Friction?)
  }

  /** A start, a stop or an update of one slot. */
  predicate Addressed(cmd: Command, id: nat) {
    && id < SLOTS && cmd[0] / 16 == [1, 2, 4, 8][id]
    && (cmd[0] % 16 == 1 || cmd[0] % 16 == 3 || cmd[0] % 16 == 12)
  }

  /** The wheel plays what the slot's last command says. */
  ghost predicate Mirrors(w: Wheel, slot: Slot) {
    Addressed(slot.cmd, slot.id) && !slot.updated && w[slot.id] == Obey(w[slot.id], slot.cmd)
  }

  lemma AddressedNames(cmd: Command, id: nat)
    requires Addressed(cmd, id)
    ensures forall i :: 0 <= i < SLOTS ==> (Names(cmd, i) <==> i == id)
    ensures forall a, b :: Obey(a, cmd) == Obey(b, cmd)
    ensures Addressed(Refreshed(cmd), id) && forall a :: Obey(a, Refreshed(cmd)) == Obey(a, cmd)
  {
    assert Refreshed(cmd)[1..] == cmd[1..];
  }

  function Sent(slot: Slot, p: Parameters): (cmds: seq<Command>)
    requires slot.id < SLOTS
  {
    if Updated(slot, p).updated then [Updated(slot, p).cmd] else []
  }

  /** Leaving an unchanged command unsent makes no difference to the wheel. */
  lemma ElidedIsAsGoodAsSent(w: Wheel, slot: Slot, p: Parameters)
    requires Mirrors(w, slot)
    ensures ReceiveAll(w, Sent(slot, p)) == Receive(w, Packed(slot, p))
    ensures Mirrors(Receive(w, Packed(slot, p)), Updated(slot, p).(updated := false))
    ensures forall i :: 0 <= i < SLOTS && i != slot.id ==> Receive(w, Packed(slot, p))[i] == w[i]
  {
    hide Names, Payload, Refreshed;
    var cmd := Packed(slot, p);
    AddressedNames(cmd, slot.id);
    AddressedNames(slot.cmd, slot.id);
    if Refreshed(slot.cmd) == cmd {
      assert Receive(w, cmd) == w;
    } else {
      assert ReceiveAll(Receive(w, cmd), [cmd][1..]) == Receive(w, cmd);
    }
  }

  /**
   * The operation a slot sends: a stop with nothing to play, a start after a stop or at
   * the very first, an update otherwise; a constant force is never stopped.
   */
  lemma StartsThenUpdates(slot: Slot, p: Parameters)
    requires slot.id < SLOTS
    ensures var s := Updated(slot, p);
            && s.cmd[0] / 16 == [1, 2, 4, 8][slot.id] && s.op == s.cmd[0] % 16 && s.kind == slot.kind && s.id == slot.id
            && (slot.kind.Constant? ==> s.op == if slot.op == 0 then 1 else 12)
            && (!slot.kind.Constant? ==>
                  s.op == if p.clip == 0 || slot.kind.NoKind? then 3 else if slot.op == 3 then 1 else 12)
            && (s.op == 3 ==> forall i :: 1 <= i < 7 ==> s.cmd[i] == 0)
            && (s.op != 3 ==> s.cmd[1..] == Payload(slot.kind, slot.id, slot.cmd[1..], p))
  {
  }

  /** A slot whose parameters stay the same sends nothing on the next tick. */
  lemma SteadySlotIsSilent(slot: Slot, p: Parameters)
    requires slot.id < SLOTS
    ensures Sent(Updated(slot, p).(updated := false), p) == []
  {
    hide PackSpring, SpringOf, ScaleCoeff, ScaleU16, TranslateForce;
    var next := Updated(slot, p).(updated := false);
    assert next.cmd[1..] ==
           if NextOp(slot, p) == 3 then [0, 0, 0, 0, 0, 0] else Payload(slot.kind, slot.id, slot.cmd[1..], p);
    assert Packed(next, p)[1..] == next.cmd[1..];
    assert Refreshed(next.cmd)[1..] == next.cmd[1..];
    assert Refreshed(next.cmd)[0] == Packed(next, p)[0];
  }

  ghost predicate AllMirror(w: Wheel, slots: seq<Slot>) {
    |slots| == SLOTS && forall i :: 0 <= i < SLOTS ==> slots[i].id == i && Mirrors(w, slots[i])
  }

  /** The first n slots after a tick. */
  function SlotsAfter(slots: seq<Slot>, ps: seq<Parameters>, n: nat): (r: seq<Slot>)
    requires |slots| == |ps| == SLOTS && n <= SLOTS && forall i :: 0 <= i < SLOTS ==> slots[i].id == i
    ensures |r| == SLOTS && forall i :: 0 <= i < SLOTS ==>
             r[i] == if i < n then Updated(slots[i], ps[i]).(updated := false) else slots[i]
  {
    seq(SLOTS, i requires 0 <= i < SLOTS => if i < n then Updated(slots[i], ps[i]).(updated := false) else slots[i])
  }

  /** What a tick sends for the first n slots: only the commands that changed. */
  function Flush(slots: seq<Slot>, ps: seq<Parameters>, n: nat): (cmds: seq<Command>)
    requires |slots| == |ps| == SLOTS && n <= SLOTS && forall i :: 0 <= i < SLOTS ==> slots[i].id == i
  {
    if n == 0 then [] else Flush(slots, ps, n - 1) + Sent(slots[n - 1], ps[n - 1])
  }

  /** The same tick with nothing left unsent. */
  function FlushAll(slots: seq<Slot>, ps: seq<Parameters>, n: nat): (cmds: seq<Command>)
    requires |slots| == |ps| == SLOTS && n <= SLOTS && forall i :: 0 <= i < SLOTS ==> slots[i].id == i
  {
    if n == 0 then [] else FlushAll(slots, ps, n - 1) + [Packed(slots[n - 1], ps[n - 1])]
  }

  /** Sending all commands brings any wheel in step with them. */
  lemma {:induction false} SendingAllSets(w: Wheel, slots: seq<Slot>, ps: seq<Parameters>, n: nat)
    requires |slots| == |ps| == SLOTS && n <= SLOTS && forall i :: 0 <= i < SLOTS ==> slots[i].id == i
    ensures forall i :: 0 <= i < SLOTS ==>
             ReceiveAll(w, FlushAll(slots, ps, n))[i] == if i < n then Obey(w[i], Packed(slots[i], ps[i])) else w[i]
  {
    hide Packed, Obey, Names;
    if n > 0 {
      var k := n - 1;
      SendingAllSets(w, slots, ps, k);
      ReceiveConcat(w, FlushAll(slots, ps, k), [Packed(slots[k], ps[k])]);
      ReceiveOne(ReceiveAll(w, FlushAll(slots, ps, k)), Packed(slots[k], ps[k]));
      PackedIsAddressed(slots[k], ps[k]);
      AddressedNames(Packed(slots[k], ps[k]), k);
    }
  }

  lemma ReceiveOne(w: Wheel, cmd: Command)
    ensures ReceiveAll(w, [cmd]) == Receive(w, cmd)
  {
    assert ReceiveAll(Receive(w, cmd), [cmd][1..]) == Receive(w, cmd);
  }

  lemma PackedIsAddressed(slot: Slot, p: Parameters)
    requires slot.id < SLOTS
    ensures Addressed(Packed(slot, p), slot.id)
  {
  }

  lemma SetIsMirrored(w: Wheel, w': Wheel, slots: seq<Slot>, ps: seq<Parameters>)
    requires |slots| == |ps| == SLOTS && forall i :: 0 <= i < SLOTS ==> slots[i].id == i
    requires forall i :: 0 <= i < SLOTS ==> w'[i] == Obey(w[i], Packed(slots[i], ps[i]))
    ensures AllMirror(w', SlotsAfter(slots, ps, SLOTS))
  {
    var after := SlotsAfter(slots, ps, SLOTS);
    forall i | 0 <= i < SLOTS ensures after[i].id == i && Mirrors(w', after[i]) {
      hide Packed;
      PackedIsAddressed(slots[i], ps[i]);
      AddressedNames(Packed(slots[i], ps[i]), i);
    }
  }

  /** A tick with elision leaves the wheel as a tick that sends all four commands. */
  lemma {:induction false} ElisionRefinesSendingAll(w: Wheel, slots: seq<Slot>, ps: seq<Parameters>, n: nat)
    requires AllMirror(w, slots) && |ps| == SLOTS && n <= SLOTS
    ensures ReceiveAll(w, Flush(slots, ps, n)) == ReceiveAll(w, FlushAll(slots, ps, n))
  {
    hide Packed, Updated, Obey;
    if n > 0 {
      var k := n - 1;
      ElisionRefinesSendingAll(w, slots, ps, k);
      SendingAllSets(w, slots, ps, k);
      var w1 := ReceiveAll(w, Flush(slots, ps, k));
      ReceiveConcat(w, Flush(slots, ps, k), Sent(slots[k], ps[k]));
      ReceiveConcat(w, FlushAll(slots, ps, k), [Packed(slots[k], ps[k])]);
      ReceiveOne(w1, Packed(slots[k], ps[k]));
      assert Mirrors(w, slots[k]) && w1[k] == w[k];
      ElidedIsAsGoodAsSent(w1, slots[k], ps[k]);
    }
  }

  // ------------------------------------------------------------ at rest

  /** Slot 0 holds the centre force, the condition slots are stopped. */
  predicate Neutral(w: Wheel) {
    w == [Playing([0, 0x80, 0, 0, 0, 0]), Stopped, Stopped, Stopped]
  }

  predicate Idle(p: Parameters) {
    p.level == 0 && p.clip == 0
  }

  lemma IdleIsNeutral(w: Wheel, slots: seq<Slot>, ps: seq<Parameters>)
    requires SlotsFit(slots) && |ps| == SLOTS && forall i :: 0 <= i < SLOTS ==> Idle(ps[i])
    ensures Neutral(ReceiveAll(w, FlushAll(slots, ps, SLOTS)))
  {
    SendingAllSets(w, slots, ps, SLOTS);
    hide FlushAll, ReceiveAll;
    var w' := ReceiveAll(w, FlushAll(slots, ps, SLOTS));
    IdleConstant(slots[0], ps[0]);
    forall i | 1 <= i < SLOTS ensures w'[i] == Stopped {
      assert NextOp(slots[i], ps[i]) == 3;
    }
  }

  lemma IdleConstant(slot: Slot, p: Parameters)
    requires slot.id == 0 && slot.kind.Constant? && p.level == 0
    ensures forall was :: Obey(was, Packed(slot, p)) == Playing([0, 0x80, 0, 0, 0, 0])
  {
    assert Packed(slot, p)[1..] == [0, 0x80, 0, 0, 0, 0];
  }

  function BlankSlots(): (slots: seq<Slot>)
    ensures SlotsFit(slots)
  {
    seq(SLOTS, i requires 0 <= i < SLOTS =>
        Slot(i, [0, 0, 0, 0, 0, 0, 0], 0, false, if i == 0 then Constant else NoKind))
  }

  function ZeroParameters(): (ps: seq<Parameters>)
    ensures |ps| == SLOTS && forall i :: 0 <= i < SLOTS ==> ps[i] == ZERO
  {
    seq(SLOTS, i => ZERO)
  }

  function InitialSlots(): (slots: seq<Slot>)
    ensures SlotsFit(slots)
  {
    SlotsAfter(BlankSlots(), ZeroParameters(), SLOTS)
  }

  function InitialCommands(fixedLoop: bool): (cmds: seq<Command>) {
    [[0x0d, if fixedLoop then 1 else 0, 0, 0, 0, 0, 0]] + FlushAll(BlankSlots(), ZeroParameters(), SLOTS)
  }

  /** The loop mode goes first, then the four slots in order. */
  lemma InitialCommandsAre(fixedLoop: bool)
    ensures var cmds := InitialCommands(fixedLoop);
            && |cmds| == 5 && cmds[0] == [0x0d, if fixedLoop then 1 else 0, 0, 0, 0, 0, 0]
            && cmds[1] == [0x11, 0, 0x80, 0, 0, 0, 0] && cmds[2] == [0x23, 0, 0, 0, 0, 0, 0]
            && cmds[3] == [0x43, 0, 0, 0, 0, 0, 0] && cmds[4] == [0x83, 0, 0, 0, 0, 0, 0]
  {
    var slots, ps := BlankSlots(), ZeroParameters();
    FlushAllIs(slots, ps);
    forall i | 0 <= i < SLOTS
      ensures Packed(slots[i], ps[i]) ==
              [[0x11, 0, 0x80, 0, 0, 0, 0], [0x23, 0, 0, 0, 0, 0, 0],
               [0x43, 0, 0, 0, 0, 0, 0], [0x83, 0, 0, 0, 0, 0, 0]][i]
    {
      BlankPacked(i);
    }
  }

  lemma FlushAllIs(slots: seq<Slot>, ps: seq<Parameters>)
    requires |slots| == |ps| == SLOTS && forall i :: 0 <= i < SLOTS ==> slots[i].id == i
    ensures FlushAll(slots, ps, SLOTS) ==
            [Packed(slots[0], ps[0]), Packed(slots[1], ps[1]), Packed(slots[2], ps[2]), Packed(slots[3], ps[3])]
  {
    hide Packed;
    assert FlushAll(slots, ps, 1) == FlushAll(slots, ps, 0) + [Packed(slots[0], ps[0])];
    assert FlushAll(slots, ps, 2) == FlushAll(slots, ps, 1) + [Packed(slots[1], ps[1])];
    assert FlushAll(slots, ps, 3) == FlushAll(slots, ps, 2) + [Packed(slots[2], ps[2])];
  }

  lemma BlankPacked(i: nat)
    requires i < SLOTS
    ensures Packed(BlankSlots()[i], ZERO) ==
            if i == 0 then [0x11, 0, 0x80, 0, 0, 0, 0] else [SelectByte(i, 3), 0, 0, 0, 0, 0, 0]
    ensures SelectByte(1, 3) == 0x23 && SelectByte(2, 3) == 0x43 && SelectByte(3, 3) == 0x83
  {
  }

  /** Initialisation brings a wheel in any state to rest and in step with the slots. */
  lemma InitialisationIsNeutral(w: Wheel, fixedLoop: bool)
    ensures Neutral(ReceiveAll(w, InitialCommands(fixedLoop)))
    ensures AllMirror(ReceiveAll(w, InitialCommands(fixedLoop)), InitialSlots())
  {
    var loop: Command := [0x0d, if fixedLoop then 1 else 0, 0, 0, 0, 0, 0];
    var w1 := Receive(w, loop);
    ReceiveOne(w, loop);
    ReceiveConcat(w, [loop], FlushAll(BlankSlots(), ZeroParameters(), SLOTS));
    IdleIsNeutral(w1, BlankSlots(), ZeroParameters());
    SendingAllSets(w1, BlankSlots(), ZeroParameters(), SLOTS);
    SetIsMirrored(w1, ReceiveAll(w1, FlushAll(BlankSlots(), ZeroParameters(), SLOTS)), BlankSlots(), ZeroParameters());
  }
}
