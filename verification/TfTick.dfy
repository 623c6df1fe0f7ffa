/**
 * One millisecond of the stream thread, taken as a whole
 * (userspace/libtrueforce/src/stream.c, bounds in internal.h).
 */
module TfTick {
  import opened Words
  import opened TfPackets

  const NEW: nat := 4
  const CATCHUP_MAX: nat := 12
  const IDLE_GRACE_TICKS: nat := 500
  const STARVE_DECAY_TICKS: nat := 40
  /** 0x8000 spread over STARVE_DECAY_TICKS, rounded up. */
  const STARVE_DECAY_STEP: nat := 820
  const STARVE_HOLD_TICKS: nat := 8

  /** The device fields a tick reads and writes. */
  datatype Dev = Dev(
    window: seq<Word16>, current: Word16, idleTicks: nat, starvedTicks: nat, seqNo: Byte,
    queue: seq<Word16>, paused: bool, armed: bool, pending: bool)
  {
    predicate Valid() {
      && |window| == WINDOW
      && idleTicks < IDLE_GRACE_TICKS
      && starvedTicks <= STARVE_HOLD_TICKS + 1
    }

    /** The next packet takes `seqNo` and leaves its successor behind. */
    function Bump(): (d: Dev) {
      this.(seqNo := (seqNo + 1) % U8)
    }
  }

  /** Sample budget for the timer expirations one tick services. */
  function Want(expiries: nat): (n: nat)
    ensures NEW <= n <= CATCHUP_MAX
  {
    if expiries > 1 then if expiries >= 3 then CATCHUP_MAX else expiries * NEW else NEW
  }

  function Taken(d: Dev, want: nat): (block: seq<Word16>)
    ensures |block| <= want
  {
    d.queue[..Min(want, |d.queue|)]
  }

  function Decay(current: Word16): (c: Word16) {
    var distance := current - CENTRE;
    if distance > 0 then CENTRE + (if distance < STARVE_DECAY_STEP then 0 else distance - STARVE_DECAY_STEP)
    else if distance < 0 then CENTRE + (if distance + STARVE_DECAY_STEP > 0 then 0 else distance + STARVE_DECAY_STEP)
    else CENTRE
  }

  const FLUSH: seq<Word16> := [0x8000, 0x8000, 0x8000, 0x8000]

  /** A window holding nothing but centre. */
  const CENTRED: seq<Word16> :=
    [0x8000, 0x8000, 0x8000, 0x8000, 0x8000, 0x8000, 0x8000, 0x8000, 0x8000, 0x8000, 0x8000, 0x8000, 0x8000]

  /** The window, the held force and the starvation counter after a drain of `block`. */
  function Absorb(d: Dev, block: seq<Word16>): (d': Dev)
    requires d.Valid() && |block| <= CATCHUP_MAX
    ensures d'.Valid()
    ensures d' == d.(window := d'.window, current := d'.current, starvedTicks := d'.starvedTicks)
  {
    if block != [] then
      d.(window := d.window[|block|..] + block, current := block[|block| - 1], starvedTicks := 0)
    else if d.starvedTicks < STARVE_HOLD_TICKS then
      d.(starvedTicks := d.starvedTicks + 1)
    else
      d.(window := d.window[NEW..] + FLUSH, current := Decay(d.current), starvedTicks := STARVE_HOLD_TICKS + 1)
  }

  predicate Silent(block: seq<Word16>) {
    forall i :: 0 <= i < |block| ==> block[i] == CENTRE
  }

  /** What an absorbed block makes the thread do next. */
  datatype Verdict = Nothing | Keepalive | Gate | Resume

  function Decide(d: Dev, block: seq<Word16>, paused: bool, armed: bool): (v: Verdict) {
    if paused then Nothing
    else if !Silent(block) then Resume
    else if armed then Nothing
    else if d.current == CENTRE && d.idleTicks + 1 >= IDLE_GRACE_TICKS then Gate
    else Keepalive
  }

  /** The silence-gate counter after the decision. */
  function CountIdle(d: Dev, v: Verdict): (d': Dev)
    requires v.Keepalive? && d.current == CENTRE ==> d.idleTicks + 1 < IDLE_GRACE_TICKS
    ensures d.Valid() ==> d'.Valid()
    ensures d' == d.(idleTicks := d'.idleTicks)
  {
    match v
    case Nothing => d
    case Keepalive => d.(idleTicks := if d.current == CENTRE then d.idleTicks + 1 else 0)
    case Gate => d.(idleTicks := 0)
    case Resume => d.(idleTicks := 0)
  }

  function StopPair(d: Dev): (r: (Dev, seq<Packet>)) {
    if d.armed then (d, [])
    else (d.Bump().Bump().(armed := true), [Ctrl(STOP_CLEAR, d.seqNo), Ctrl(ARM, d.Bump().seqNo)])
  }

  /** What follows an absorbed block, given the flags sampled when the tick began. */
  function Respond(a: Dev, block: seq<Word16>, paused: bool, armed: bool): (r: (Dev, seq<Packet>))
    requires a.Valid() && |block| <= CATCHUP_MAX
    ensures r.0.Valid()
  {
    var v := Decide(a, block, paused, armed);
    var b := CountIdle(a, v);
    match v
    case Nothing => (b, [])
    case Keepalive => (b.Bump(), [Idle(b.seqNo, b.current)])
    case Gate => StopPair(b)
    case Resume => (b.Bump().(armed := false), [Stream(b.seqNo, b.current, b.window, |block|)])
  }

  /** A whole tick with every write succeeding: the new state and what went on the wire. */
  function Tick(d: Dev, expiries: nat): (r: (Dev, seq<Packet>))
    requires d.Valid()
    ensures r.0.Valid()
  {
    if d.pending then
      var (d', out) := StopPair(d);
      (d'.(pending := false), out)
    else
      var block := Taken(d, Want(expiries));
      Respond(Absorb(d.(queue := d.queue[|block|..]), block), block, d.paused, d.armed)
  }

  // ------------------------------------------------------------ a tick in one look

  /** How many samples a tick takes: four an expiration, three expirations at most, one at least. */
  function Due(d: Dev, expiries: nat): (n: nat)
    ensures n <= |d.queue| && n <= 12
  {
    Min(4 * (if expiries < 1 then 1 else if expiries > 3 then 3 else expiries), |d.queue|)
  }

  /** The held force is the newest sample taken; with none taken it stays for eight ticks and then closes in by 820. */
  function ForceNext(d: Dev, expiries: nat): (f: Word16) {
    var n := Due(d, expiries);
    if n > 0 then d.queue[n - 1]
    else if d.starvedTicks < 8 then d.current
    else if d.current > 0x8000 + 820 then d.current - 820
    else if d.current < 0x8000 - 820 then d.current + 820
    else 0x8000
  }

  predicate HearsSound(d: Dev, expiries: nat) {
    exists i :: 0 <= i < Due(d, expiries) && d.queue[i] != 0x8000
  }

  /** The state of a tick that services nobody's request: ring, window, force and hold. */
  lemma TickTakesItsShare(d: Dev, expiries: nat)
    requires d.Valid() && !d.pending
    ensures var d', n := Tick(d, expiries).0, Due(d, expiries);
            && d'.queue == d.queue[n..] && d'.current == ForceNext(d, expiries)
            && (n > 0 ==> d'.window == d.window[n..] + d.queue[..n] && d'.starvedTicks == 0)
            && (n == 0 && d.starvedTicks < 8 ==> d'.window == d.window && d'.starvedTicks == d.starvedTicks + 1)
            && (n == 0 && d.starvedTicks >= 8 ==>
                  d'.window == d.window[4..] + [0x8000, 0x8000, 0x8000, 0x8000] && d'.starvedTicks == 9)
            && d'.paused == d.paused && !d'.pending
  {
    assert Want(expiries) == 4 * (if expiries < 1 then 1 else if expiries > 3 then 3 else expiries);
  }

  /** What a tick writes, and what it leaves of the standby flag and the silence count, from what it found alone. */
  lemma TickWrites(d: Dev, expiries: nat)
    requires d.Valid()
    ensures var (d', out) := Tick(d, expiries);
            var force, n := ForceNext(d, expiries), Due(d, expiries);
            var pair := [Ctrl(0x04, d.seqNo), Ctrl(0x03, (d.seqNo + 1) % 256)];
            if d.pending then
              !d'.pending && d'.armed && out == (if d.armed then [] else pair) && d'.idleTicks == d.idleTicks
            else if d.paused then out == [] && d'.armed == d.armed && d'.idleTicks == d.idleTicks
            else if HearsSound(d, expiries) then
              out == [Stream(d.seqNo, force, d'.window, n)] && !d'.armed && d'.idleTicks == 0
            else if d.armed then out == [] && d'.armed && d'.idleTicks == d.idleTicks
            else if force == 0x8000 && d.idleTicks == 499 then out == pair && d'.armed && d'.idleTicks == 0
            else
              && out == [Idle(d.seqNo, force)] && !d'.armed
              && d'.idleTicks == if force == 0x8000 then d.idleTicks + 1 else 0
  {
    if !d.pending {
      TickTakesItsShare(d, expiries);
      HearsSoundIsNotSilent(d, expiries);
      hide HearsSound, Silent, ForceNext, Absorb;
    }
  }

  lemma HearsSoundIsNotSilent(d: Dev, expiries: nat)
    requires d.Valid()
    ensures |Taken(d, Want(expiries))| == Due(d, expiries)
    ensures HearsSound(d, expiries) <==> !Silent(Taken(d, Want(expiries)))
    ensures Absorb(d.(queue := d.queue[Due(d, expiries)..]), Taken(d, Want(expiries))).current == ForceNext(d, expiries)
  {
    var block := Taken(d, Want(expiries));
    if HearsSound(d, expiries) {
      var i :| 0 <= i < Due(d, expiries) && d.queue[i] != 0x8000;
      assert block[i] != CENTRE;
    }
    if !Silent(block) {
      var i :| 0 <= i < |block| && block[i] != CENTRE;
      assert d.queue[i] != 0x8000;
    }
  }

  /** Samples drained: the newest is the held force and in the packet, and eight ticks of hold lie ahead. */
  lemma HeldForceIsTheNewestSample(d: Dev, expiries: nat)
    requires d.Valid() && !d.pending && d.queue != []
    ensures var (d', out) := Tick(d, expiries);
            var newest := d.queue[Due(d, expiries) - 1];
            && Due(d, expiries) > 0 && d'.current == newest && HoldLeft(d') == 8
            && forall i :: 0 <= i < |out| && out[i].Stream? ==>
                 out[i].current == newest && out[i].window[12] == newest && out[i].count == Due(d, expiries)
  {
    TickTakesItsShare(d, expiries);
    TickWrites(d, expiries);
    hide Tick, HearsSound;
  }

  // ------------------------------------------------------------ starvation

  function Distance(d: Dev): (n: nat) {
    Abs(d.current - CENTRE)
  }

  /** Ticks the held force is still frozen for. */
  function HoldLeft(d: Dev): (n: nat) {
    if d.starvedTicks < STARVE_HOLD_TICKS then STARVE_HOLD_TICKS - d.starvedTicks else 0
  }

  /** Decay ticks from a given distance. */
  function DecayLeft(distance: nat): (n: nat) {
    (distance + STARVE_DECAY_STEP - 1) / STARVE_DECAY_STEP
  }

  /** The starved tick, counted from one, on which the teardown pair goes out. */
  function TicksToPair(d: Dev): (n: nat)
    requires d.Valid()
    ensures n >= 1
  {
    if d.current == CENTRE || HoldLeft(d) + DecayLeft(Distance(d)) == 1 then IDLE_GRACE_TICKS - d.idleTicks
    else HoldLeft(d) + DecayLeft(Distance(d)) - 1 + IDLE_GRACE_TICKS
  }

  /** Nothing to play, nobody asking for anything. */
  predicate Starving(d: Dev) {
    d.Valid() && d.queue == [] && !d.paused && !d.pending
  }

  lemma DecayMoves(c: Word16)
    ensures Abs(Decay(c) - CENTRE) ==
            if Abs(c - CENTRE) <= STARVE_DECAY_STEP then 0 else Abs(c - CENTRE) - STARVE_DECAY_STEP
    ensures c >= CENTRE ==> CENTRE <= Decay(c) <= c
    ensures c <= CENTRE ==> c <= Decay(c) <= CENTRE
  {
  }

  /** The step size makes a full-scale offset reach centre within forty ticks. */
  lemma DecayStep(c: Word16)
    ensures c != CENTRE ==> DecayLeft(Abs(Decay(c) - CENTRE)) == DecayLeft(Abs(c - CENTRE)) - 1
    ensures DecayLeft(Abs(c - CENTRE)) <= STARVE_DECAY_TICKS
    ensures DecayLeft(Abs(c - CENTRE)) == 0 <==> c == CENTRE
  {
    DecayMoves(c);
  }

  /** Ticks until the held force is centred. */
  function ToCentre(d: Dev): (n: nat) {
    HoldLeft(d) + DecayLeft(Distance(d))
  }

  /** The held force after a starved tick. */
  lemma StarvedForce(d: Dev)
    requires d.Valid()
    ensures var a := Absorb(d, []);
            && (d.current >= CENTRE ==> CENTRE <= a.current <= d.current)
            && (d.current <= CENTRE ==> d.current <= a.current <= CENTRE)
            && (d.current != CENTRE ==> ToCentre(a) == ToCentre(d) - 1 && (a.current == CENTRE <==> ToCentre(d) == 1))
  {
    if d.starvedTicks >= STARVE_HOLD_TICKS {
      DecayMoves(d.current);
      DecayStep(d.current);
      DecayStep(Decay(d.current));
      hide Decay, DecayLeft;
    } else {
      DecayStep(d.current);
      hide Decay, DecayLeft;
    }
  }

  /** One starved tick of a live session. */
  lemma StarvedTick(d: Dev)
    requires Starving(d) && !d.armed
    ensures TicksToPair(d) <= 547
    ensures var (d', out) := Tick(d, 1);
            && Starving(d') && d'.current == Absorb(d, []).current
            && (d.current >= CENTRE ==> CENTRE <= d'.current <= d.current)
            && (d.current <= CENTRE ==> d.current <= d'.current <= CENTRE)
            && (d.current != CENTRE ==> ToCentre(d') == ToCentre(d) - 1)
            && (if TicksToPair(d) > 1 then
                  && !d'.armed && TicksToPair(d') == TicksToPair(d) - 1
                  && out == [Idle(d.seqNo, d'.current)] && d'.seqNo == (d.seqNo + 1) % U8
                else
                  && d'.armed && d'.current == CENTRE
                  && out == [Ctrl(STOP_CLEAR, d.seqNo), Ctrl(ARM, (d.seqNo + 1) % U8)])
  {
    StarvedForce(d);
    DecayStep(d.current);
    assert Taken(d, Want(1)) == [] && d.queue[0..] == [];
    assert d.(queue := []) == d;
  }

  /** In standby a tick that drains nothing, or only silence, says nothing. */
  lemma StandbyIsSilent(d: Dev, expiries: nat)
    requires d.Valid() && d.armed && Silent(Taken(d, Want(expiries)))
    ensures Tick(d, expiries).1 == [] && Tick(d, expiries).0.armed
  {
  }

  /** `k` ticks in a row, one expiration each. */
  function Starve(d: Dev, k: nat): (r: (Dev, seq<Packet>))
    requires d.Valid()
    ensures r.0.Valid()
  {
    if k == 0 then (d, [])
    else
      var (d1, out1) := Starve(d, k - 1);
      var (d2, out2) := Tick(d1, 1);
      (d2, out1 + out2)
  }

  ghost predicate Keepalives(out: seq<Packet>, seqNo: Byte) {
    forall i :: 0 <= i < |out| ==> out[i].Idle? && out[i].seqNo == (seqNo + i) % U8
  }

  /** The outcome of `k` starved ticks: keepalives, then from the appointed tick on one pair and silence. */
  ghost predicate OnePair(d: Dev, k: nat, d': Dev, out: seq<Packet>)
    requires d.Valid() && d'.Valid()
  {
    var n := TicksToPair(d) - 1;
    if k <= n then
      && !d'.armed && TicksToPair(d') == n + 1 - k && d'.seqNo == (d.seqNo + k) % U8
      && |out| == k && Keepalives(out, d.seqNo)
    else
      && d'.armed && d'.current == CENTRE
      && |out| == n + 2 && Keepalives(out[..n], d.seqNo)
      && out[n..] == [Ctrl(STOP_CLEAR, (d.seqNo + n) % U8), Ctrl(ARM, (d.seqNo + n + 1) % U8)]
  }

  /**
   * Starving for `k` ticks from any live state: keepalives only, then exactly one
   * teardown pair, on tick TicksToPair(d) and never later than the 547th, then silence.
   */
  lemma {:induction false} StarvationEndsInOnePair(d: Dev, k: nat)
    requires Starving(d) && !d.armed
    ensures 1 <= TicksToPair(d) <= 547
    ensures var (d', out) := Starve(d, k);
            Starving(d') && (d'.armed ==> d'.current == CENTRE) && OnePair(d, k, d', out)
  {
    hide Tick, TicksToPair, Starving, OnePair, StarvedStep;
    PairIsNear(d);
    if k == 0 {
      NoPairYet(d);
    } else {
      StarvationEndsInOnePair(d, k - 1);
      var (d1, out1) := Starve(d, k - 1);
      StarvedTickSteps(d1);
      OnePairGoesOn(d, k, d1, out1, Tick(d1, 1).0, Tick(d1, 1).1);
    }
  }

  lemma PairIsNear(d: Dev)
    requires Starving(d) && !d.armed
    ensures d.Valid() && 1 <= TicksToPair(d) <= 547
  {
    StarvedTick(d);
  }

  lemma NoPairYet(d: Dev)
    requires d.Valid() && !d.armed
    ensures OnePair(d, 0, d, [])
  {
  }

  lemma StarvedTickSteps(d: Dev)
    requires Starving(d) && (d.armed ==> d.current == CENTRE)
    ensures var (d', out) := Tick(d, 1);
            Starving(d') && (d'.armed ==> d'.current == CENTRE) && StarvedStep(d, d', out)
  {
    if d.armed { StandbyTick(d); } else { StarvedTick(d); }
    hide Tick, TicksToPair;
  }

  /** What one starved tick does, standby or not. */
  ghost predicate StarvedStep(d: Dev, d': Dev, out: seq<Packet>)
    requires d.Valid() && d'.Valid()
  {
    if d.armed then
      d'.armed && d'.current == CENTRE && out == []
    else if TicksToPair(d) > 1 then
      && !d'.armed && TicksToPair(d') == TicksToPair(d) - 1
      && out == [Idle(d.seqNo, d'.current)] && d'.seqNo == (d.seqNo + 1) % U8
    else
      && d'.armed && d'.current == CENTRE
      && out == [Ctrl(STOP_CLEAR, d.seqNo), Ctrl(ARM, (d.seqNo + 1) % U8)]
  }

  lemma OneMoreKeepalive(out: seq<Packet>, seqNo: Byte, p: Packet)
    requires Keepalives(out, seqNo) && p.Idle? && p.seqNo == (seqNo + |out|) % U8
    ensures Keepalives(out + [p], seqNo)
  {
  }

  lemma OnePairGoesOn(d: Dev, k: nat, d1: Dev, out1: seq<Packet>, d2: Dev, out2: seq<Packet>)
    requires k > 0 && d.Valid() && d1.Valid() && d2.Valid()
    requires OnePair(d, k - 1, d1, out1) && StarvedStep(d1, d2, out2)
    ensures OnePair(d, k, d2, out1 + out2)
  {
    hide TicksToPair, Keepalives;
    var out := out1 + out2;
    if d1.armed {
      assert out == out1;
    } else if TicksToPair(d1) > 1 {
      OneMoreKeepalive(out1, d.seqNo, out2[0]);
    } else {
      assert out[..k - 1] == out1 && out[k - 1..] == out2;
    }
  }

  lemma StandbyTick(d: Dev)
    requires Starving(d) && d.armed && d.current == CENTRE
    ensures var (d', out) := Tick(d, 1); Starving(d') && d'.armed && d'.current == CENTRE && out == []
  {
    assert Taken(d, Want(1)) == [] && d.queue[0..] == [];
  }

  /**
   * The held force moves monotonically to centre: frozen for at most eight ticks,
   * then down for at most forty, so it is there after forty-eight.
   */
  lemma {:induction false} StarvationRecentres(d: Dev, k: nat)
    requires Starving(d) && !d.armed
    ensures var d' := Starve(d, k).0;
            && Starving(d') && (d'.armed ==> d'.current == CENTRE)
            && (d.current >= CENTRE ==> CENTRE <= d'.current <= d.current)
            && (d.current <= CENTRE ==> d.current <= d'.current <= CENTRE)
            && (d'.current != CENTRE ==> ToCentre(d') + k <= ToCentre(d))
    ensures k >= 48 ==> Starve(d, k).0.current == CENTRE
  {
    hide Tick, Decay;
    DecayStep(d.current);
    if k > 0 {
      StarvationRecentres(d, k - 1);
      var d1 := Starve(d, k - 1).0;
      if d1.armed {
        StandbyTick(d1);
      } else {
        StarvedTick(d1);
        DecayStep(Tick(d1, 1).0.current);
      }
    }
  }
}
