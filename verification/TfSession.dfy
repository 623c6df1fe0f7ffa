/**
 * The TrueForce session as an interleaving machine: the stream thread, one control
 * thread, and producers that may push and (re)start at any moment
 * (userspace/libtrueforce/src/stream.c, exports.c, session.c).
 *
 * One action is one critical section, or one stretch between two of them.  The
 * history fields of Sys are read by no action.
 */
module TfSession {
  import opened Words
  import opened TfPackets
  import opened TfTick
  import R = SampleRing

  const FIRST_SEQ: Byte := 69
  const BLANK: seq<Word16> := [0, 0, 0, 0, 0, 0, 0, 0, 0, 0, 0, 0, 0]

  /** What became of a drained block. */
  datatype Fate = Muted | Hushed | Voiced | Wiped
  datatype Block = Block(samples: seq<Word16>, fate: Fate)

  /** Where the stream thread is inside a tick. */
  datatype ThreadPc =
    | Dead
    | Ready
    | Sampled(paused: bool, armed: bool, want: nat)
    | Drained(paused: bool, armed: bool, block: seq<Word16>)
    | Resuming(block: seq<Word16>, wiped: bool)
    | Emitting(block: seq<Word16>, wiped: bool)
    | Gating
    | Gap(serving: bool)

  /** Where the control thread is inside a call. */
  datatype ControlPc =
    | Free
    | PauseWait
    | ClearHalf
    | Stopping(closing: bool)
    | Joining(closing: bool)
    | StopGap(closing: bool)
    | Closing
    | CloseGap
  {
    /** logiWheelClose is under way. */
    predicate IsClosing() {
      match this
      case Stopping(c) => c
      case Joining(c) => c
      case StopGap(c) => c
      case Closing => true
      case CloseGap => true
      case _ => false
    }
  }

  datatype Sys = Sys(
    dev: Dev, initialized: bool, running: bool, shutting: bool,
    pc: ThreadPc, ctl: ControlPc,
    // history
    serviced: bool,                 // the waiting Pause has had its request carried out
    wire: seq<Packet>,              // everything written since the init sequence
    starts: set<nat>,               // wire positions at which a stream run began
    history: seq<Word16>,           // samples and centres shifted into the window
    drained: seq<Word16>,           // everything taken from the ring this session
    blocks: seq<Block>,             // the same, block by block, once its fate is known
    sampled: seq<bool>,             // the pause flag as each tick of this session read it
    past: seq<seq<Packet>>)         // wires of closed sessions
  {
    /** One packet written by whoever may write now. */
    function Write(p: Packet): (s: Sys) {
      this.(wire := wire + [p], dev := dev.Bump())
    }

    function FinishStop(closing: bool): (s: Sys) {
      this.(running := false, shutting := false, ctl := if closing then Closing else Free)
    }

    function EndSession(): (s: Sys) {
      this.(initialized := false, dev := dev.(armed := false), ctl := Free,
            wire := [], starts := {}, drained := [], blocks := [], sampled := [],
            past := if initialized then past + [wire] else past)
    }
  }

  const INIT := Sys(Dev(BLANK, 0, 0, 0, 0, [], false, false, false), false, false, false,
                    Dead, Free, false, [], {}, BLANK, [], [], [], [])

  datatype Action =
    // any producer
    | Ensure | StartStream | Push(samples: seq<Int16>)
    // the control thread
    | PauseCall | PauseReturn | PauseTimeout | ResumeCall
    | ClearRing | ClearWindow
    | StopCall(closing: bool) | StopShut | StopLock | StopArm | CloseLock | CloseArm
    // the stream thread
    | TickBegin(expiries: nat) | TickDrain | TickUpdate | TickResume | TickEmit | TickGate | TickArm | ThreadExit

  predicate Enabled(s: Sys, a: Action) {
    match a
    case Ensure => !s.ctl.IsClosing()
    case StartStream => !s.ctl.IsClosing() && s.initialized
    case Push(_) => true
    case PauseCall => s.ctl.Free?
    case PauseReturn => s.ctl.PauseWait? && !s.dev.pending
    case PauseTimeout => s.ctl.PauseWait?
    case ResumeCall => s.ctl.Free?
    case ClearRing => s.ctl.Free?
    case ClearWindow => s.ctl.ClearHalf?
    case StopCall(_) => s.ctl.Free?
    case StopShut => s.ctl.Stopping?
    case StopLock => s.ctl.Joining? && s.pc.Dead?
    case StopArm => s.ctl.StopGap?
    case CloseLock => s.ctl.Closing?
    case CloseArm => s.ctl.CloseGap?
    case TickBegin(_) => s.pc.Ready?
    case TickDrain => s.pc.Sampled?
    case TickUpdate => s.pc.Drained?
    case TickResume => s.pc.Resuming?
    case TickEmit => s.pc.Emitting?
    case TickGate => s.pc.Gating?
    case TickArm => s.pc.Gap?
    case ThreadExit => s.pc.Ready? && s.ctl.Joining?
  }

  /** A Pause that returns at once: paused already, with the pair moot or on the wire. */
  predicate NothingToRedo(s: Sys) {
    s.dev.paused && (!s.initialized || s.dev.armed)
  }

  /** What a tick shifts into the window. */
  function ShiftedIn(d: Dev, block: seq<Word16>): (ws: seq<Word16>) {
    if block != [] then block else if d.starvedTicks < STARVE_HOLD_TICKS then [] else FLUSH
  }

  function DoProducer(s: Sys, a: Action): (s': Sys)
    requires a.Ensure? || a.StartStream? || a.Push?
  {
    match a
    case Ensure =>
      if s.initialized then s
      else s.(initialized := true,
              dev := s.dev.(paused := false, armed := false, idleTicks := 0, seqNo := FIRST_SEQ))
    case StartStream =>
      if s.running then s
      else s.(running := true, pc := Ready,
              dev := s.dev.(window := CENTRED, current := CENTRE, idleTicks := 0, starvedTicks := 0,
                            pending := false, seqNo := if s.dev.seqNo == 0 then FIRST_SEQ else s.dev.seqNo),
              history := s.history + CENTRED, starts := s.starts + {|s.wire|})
    case Push(ss) =>
      if s.shutting || !s.running then s
      else s.(dev := s.dev.(queue := R.PushQueue(s.dev.queue, ss)))
  }

  function Wipe(pc: ThreadPc): (pc': ThreadPc) {
    if pc.Resuming? || pc.Emitting? then pc.(wiped := true) else pc
  }

  function DoControl(s: Sys, a: Action): (s': Sys)
    requires Enabled(s, a)
    requires a.PauseCall? || a.PauseReturn? || a.PauseTimeout? || a.ResumeCall? || a.ClearRing? || a.ClearWindow?
             || a.StopCall? || a.StopShut? || a.StopLock? || a.StopArm? || a.CloseLock? || a.CloseArm?
  {
    match a
    case PauseCall =>
      if NothingToRedo(s) then s
      else if !s.initialized then s.(dev := s.dev.(paused := true))
      else s.(dev := s.dev.(paused := true, pending := true), ctl := PauseWait, serviced := false)
    case PauseReturn => s.(ctl := Free)
    case PauseTimeout => s.(ctl := Free, dev := s.dev.(pending := false))
    case ResumeCall => s.(dev := s.dev.(paused := false))
    case ClearRing => s.(ctl := ClearHalf, dev := s.dev.(queue := []))
    case ClearWindow =>
      s.(ctl := Free, dev := s.dev.(window := CENTRED, current := CENTRE), history := s.history + CENTRED,
          pc := Wipe(s.pc))
    case StopCall(closing) =>
      s.(ctl := if s.running then Stopping(closing) else if closing then Closing else Free)
    case StopShut => s.(shutting := true, ctl := Joining(s.ctl.closing))
    case StopLock =>
      if s.initialized && !s.dev.armed then s.Write(Ctrl(STOP_CLEAR, s.dev.seqNo)).(ctl := StopGap(s.ctl.closing))
      else s.FinishStop(s.ctl.closing)
    case StopArm =>
      var s1 := s.Write(Ctrl(ARM, s.dev.seqNo));
      s1.(dev := s1.dev.(armed := true)).FinishStop(s.ctl.closing)
    case CloseLock =>
      if s.initialized && !s.dev.armed then s.Write(Ctrl(STOP_CLEAR, s.dev.seqNo)).(ctl := CloseGap)
      else s.EndSession()
    case CloseArm => s.Write(Ctrl(ARM, s.dev.seqNo)).EndSession()
  }

  /** The state once block `pc.block` has been absorbed into `a` and judged `v`. */
  function Settle(s: Sys, a: Dev, v: Verdict): (s': Sys)
    requires s.pc.Drained?
    requires v.Keepalive? && a.current == CENTRE ==> a.idleTicks + 1 < IDLE_GRACE_TICKS
  {
    var s1 := s.(dev := CountIdle(a, v), history := s.history + ShiftedIn(s.dev, s.pc.block));
    if v.Resume? then s1.(pc := Resuming(s.pc.block, false))
    else
      var heard := s1.(blocks := s.blocks + [Block(s.pc.block, if s.pc.paused then Muted else Hushed)]);
      match v
      case Nothing => heard.(pc := Ready)
      case Keepalive => heard.(pc := Ready, wire := s.wire + [Idle(a.seqNo, a.current)], dev := s1.dev.Bump())
      case Gate => heard.(pc := Gating)
  }

  function DoUpdate(s: Sys): (s': Sys)
    requires s.pc.Drained? && s.dev.Valid() && |s.pc.block| <= CATCHUP_MAX
  {
    var a := Absorb(s.dev, s.pc.block);
    Settle(s, a, Decide(a, s.pc.block, s.pc.paused, s.pc.armed))
  }

  function DoBegin(s: Sys, expiries: nat): (s': Sys) {
    if !s.dev.pending then
      s.(pc := Sampled(s.dev.paused, s.dev.armed, Want(expiries)), sampled := s.sampled + [s.dev.paused])
    else if s.dev.armed then s.(dev := s.dev.(pending := false), serviced := true)
    else s.Write(Ctrl(STOP_CLEAR, s.dev.seqNo)).(pc := Gap(true))
  }

  function DoDrain(s: Sys): (s': Sys)
    requires s.pc.Sampled?
  {
    var block := Taken(s.dev, s.pc.want);
    s.(dev := s.dev.(queue := s.dev.queue[|block|..]), drained := s.drained + block,
       pc := Drained(s.pc.paused, s.pc.armed, block))
  }

  function DoEmit(s: Sys): (s': Sys)
    requires s.pc.Emitting? && |s.pc.block| < U8
  {
    s.Write(Stream(s.dev.seqNo, s.dev.current, s.dev.window, |s.pc.block|))
     .(pc := Ready, blocks := s.blocks + [Block(s.pc.block, if s.pc.wiped then Wiped else Voiced)])
  }

  function DoGate(s: Sys): (s': Sys) {
    if s.dev.armed then s.(pc := Ready)
    else s.Write(Ctrl(STOP_CLEAR, s.dev.seqNo)).(pc := Gap(false))
  }

  function DoArm(s: Sys): (s': Sys)
    requires s.pc.Gap?
  {
    var s1 := s.Write(Ctrl(ARM, s.dev.seqNo)).(pc := Ready);
    if s.pc.serving then s1.(dev := s1.dev.(armed := true, pending := false), serviced := true)
    else s1.(dev := s1.dev.(armed := true))
  }

  function DoThread(s: Sys, a: Action): (s': Sys)
    requires Enabled(s, a) && s.dev.Valid() && (s.pc.Drained? ==> |s.pc.block| <= CATCHUP_MAX)
    requires s.pc.Emitting? ==> |s.pc.block| < U8
    requires a.TickBegin? || a.TickDrain? || a.TickUpdate? || a.TickResume? || a.TickEmit? || a.TickGate? ||
             a.TickArm? || a.ThreadExit?
  {
    match a
    case TickBegin(expiries) => DoBegin(s, expiries)
    case TickDrain => DoDrain(s)
    case TickUpdate => DoUpdate(s)
    case TickResume => s.(dev := s.dev.(armed := false), pc := Emitting(s.pc.block, s.pc.wiped))
    case TickEmit => DoEmit(s)
    case TickGate => DoGate(s)
    case TickArm => DoArm(s)
    case ThreadExit => s.(pc := Dead)
  }

  // ------------------------------------------------------------ the wire's grammar

  predicate IsStop(p: Packet) {
    p.Ctrl? && p.kind == STOP_CLEAR
  }

  predicate IsArm(p: Packet) {
    p.Ctrl? && p.kind == ARM
  }

  /**
   * (S|I)* (P S (S|I)*)* P? with P exactly 0x04 then 0x03, or a prefix of such a
   * trace: an arm directly follows a stop and nothing else does, and the only packet
   * that may follow an arm is a stream packet.
   */
  ghost predicate WellFormed(w: seq<Packet>) {
    forall i :: 0 <= i < |w| ==> FitsAt(w, i)
  }

  predicate FitsAt(w: seq<Packet>, i: nat)
    requires i < |w|
  {
    && w[i].Valid()
    && (IsArm(w[i]) <==> i > 0 && IsStop(w[i - 1]))
    && (i > 0 && IsArm(w[i - 1]) ==> w[i].Stream?)
  }

  predicate EndsInStop(w: seq<Packet>) {
    w != [] && IsStop(w[|w| - 1])
  }

  predicate EndsInPair(w: seq<Packet>) {
    |w| >= 2 && IsStop(w[|w| - 2]) && IsArm(w[|w| - 1])
  }

  lemma WellFormedGrows(w: seq<Packet>, p: Packet)
    requires WellFormed(w) && p.Valid()
    requires if EndsInStop(w) then IsArm(p) else if EndsInPair(w) then p.Stream? else !IsArm(p)
    ensures WellFormed(w + [p])
    ensures EndsInStop(w + [p]) <==> IsStop(p)
    ensures EndsInPair(w + [p]) <==> IsArm(p)
  {
    var w' := w + [p];
    forall i | 0 <= i < |w'|
      ensures FitsAt(w', i)
    {
      if i < |w| {
        assert FitsAt(w, i);
      } else if i > 0 {
        assert FitsAt(w, i - 1);
        assert w'[i - 1] == w[|w| - 1];
      }
    }
  }

  // ------------------------------------------------------------ the protocol invariant

  predicate InGap(s: Sys) {
    s.pc.Gap? || s.ctl.StopGap? || s.ctl.CloseGap?
  }

  ghost predicate Protocol(s: Sys) {
    && s.dev.Valid()
    && WellFormed(s.wire)
    && (InGap(s) <==> EndsInStop(s.wire))
    && (s.initialized ==> (s.dev.armed <==> EndsInPair(s.wire) && !s.pc.Emitting?))
    && (!s.initialized ==> s.wire == [] && !s.dev.armed && !s.running)
    && (s.pc != Dead ==> s.running && !s.ctl.StopGap?)
    && (s.running ==> !s.ctl.Closing? && !s.ctl.CloseGap?)
    && (!s.running ==> s.pc.Dead? && !s.ctl.Stopping? && !s.ctl.Joining? && !s.ctl.StopGap?)
    && (s.ctl.CloseGap? ==> s.initialized)
    && (s.ctl.PauseWait? ==> s.initialized && s.dev.paused)
    && (s.dev.pending ==> s.ctl.PauseWait?)
    && (s.shutting <==> s.ctl.Joining? || s.ctl.StopGap?)
    && LocalsAgree(s)
    && forall i :: 0 <= i < |s.past| ==> WellFormed(s.past[i]) && EndsInPair(s.past[i])
  }

  /** What the stream thread's locals still say about the shared state. */
  ghost predicate LocalsAgree(s: Sys) {
    match s.pc
    case Sampled(_, armed, want) => armed == s.dev.armed && NEW <= want <= CATCHUP_MAX
    case Drained(_, armed, block) => armed == s.dev.armed && |block| <= CATCHUP_MAX
    case Resuming(block, _) => 1 <= |block| <= CATCHUP_MAX && !Silent(block)
    case Emitting(block, _) => 1 <= |block| <= CATCHUP_MAX && !Silent(block) && !s.dev.armed
    case Gating => !s.dev.armed
    case Gap(_) => !s.dev.armed
    case _ => true
  }

  function Do(s: Sys, a: Action): (s': Sys)
    requires Protocol(s) && Enabled(s, a)
  {
    match a
    case Ensure => DoProducer(s, a)
    case StartStream => DoProducer(s, a)
    case Push(_) => DoProducer(s, a)
    case TickBegin(_) => DoThread(s, a)
    case TickDrain => DoThread(s, a)
    case TickUpdate => DoThread(s, a)
    case TickResume => DoThread(s, a)
    case TickEmit => DoThread(s, a)
    case TickGate => DoThread(s, a)
    case TickArm => DoThread(s, a)
    case ThreadExit => DoThread(s, a)
    case _ => DoControl(s, a)
  }

  /** A write leaves the grammar intact; the caller says what it wrote and what came before. */
  lemma WriteKeepsGrammar(s: Sys, p: Packet)
    requires WellFormed(s.wire) && p.Valid()
    requires if EndsInStop(s.wire) then IsArm(p) else if EndsInPair(s.wire) then p.Stream? else !IsArm(p)
    ensures WellFormed(s.Write(p).wire)
    ensures EndsInStop(s.Write(p).wire) <==> IsStop(p)
    ensures EndsInPair(s.Write(p).wire) <==> IsArm(p)
  {
    WellFormedGrows(s.wire, p);
  }

  lemma ProducerKeepsProtocol(s: Sys, a: Action)
    requires Protocol(s) && Enabled(s, a) && (a.Ensure? || a.StartStream? || a.Push?)
    ensures Protocol(Do(s, a))
  {
  }

  lemma ControlKeepsProtocol(s: Sys, a: Action)
    requires Protocol(s) && Enabled(s, a)
    requires a.PauseCall? || a.PauseReturn? || a.PauseTimeout? || a.ResumeCall? || a.ClearRing? || a.ClearWindow?
             || a.StopCall? || a.StopShut?
    ensures Protocol(Do(s, a))
  {
  }

  lemma TeardownKeepsProtocol(s: Sys, a: Action)
    requires Protocol(s) && Enabled(s, a) && (a.StopLock? || a.StopArm? || a.CloseLock? || a.CloseArm?)
    ensures Protocol(Do(s, a))
  {
    if a.StopArm? || a.CloseArm? {
      WriteKeepsGrammar(s, Ctrl(ARM, s.dev.seqNo));
    } else if s.initialized && !s.dev.armed {
      WriteKeepsGrammar(s, Ctrl(STOP_CLEAR, s.dev.seqNo));
    }
  }

  lemma SettleKeepsProtocol(s: Sys, a: Dev, v: Verdict)
    requires Protocol(s) && s.pc.Drained? && a.Valid()
    requires a == s.dev.(window := a.window, current := a.current, starvedTicks := a.starvedTicks)
    requires v == Decide(a, s.pc.block, s.pc.paused, s.pc.armed)
    ensures Protocol(Settle(s, a, v))
  {
    if v.Keepalive? {
      WellFormedGrows(s.wire, Idle(a.seqNo, a.current));
    }
  }

  lemma UpdateIsSettle(s: Sys)
    requires Protocol(s) && Enabled(s, TickUpdate)
    ensures s.dev.Valid() && |s.pc.block| <= CATCHUP_MAX
    ensures var a := Absorb(s.dev, s.pc.block);
            Do(s, TickUpdate) == Settle(s, a, Decide(a, s.pc.block, s.pc.paused, s.pc.armed))
  {
  }

  lemma UpdateKeepsProtocol(s: Sys)
    requires Protocol(s) && Enabled(s, TickUpdate)
    ensures Protocol(Do(s, TickUpdate))
  {
    var a := Absorb(s.dev, s.pc.block);
    SettleKeepsProtocol(s, a, Decide(a, s.pc.block, s.pc.paused, s.pc.armed));
  }

  lemma ThreadKeepsProtocol(s: Sys, a: Action)
    requires Protocol(s) && Enabled(s, a) && (a.TickBegin? || a.TickDrain? || a.TickResume? || a.ThreadExit?)
    ensures Protocol(Do(s, a))
  {
    if a.TickBegin? && s.dev.pending && !s.dev.armed {
      WriteKeepsGrammar(s, Ctrl(STOP_CLEAR, s.dev.seqNo));
    }
  }

  lemma EmitKeepsProtocol(s: Sys)
    requires Protocol(s) && Enabled(s, TickEmit)
    ensures Protocol(Do(s, TickEmit))
  {
    WriteKeepsGrammar(s, Stream(s.dev.seqNo, s.dev.current, s.dev.window, |s.pc.block|));
  }

  lemma PairKeepsProtocol(s: Sys, a: Action)
    requires Protocol(s) && Enabled(s, a) && (a.TickGate? || a.TickArm?)
    ensures Protocol(Do(s, a))
  {
    WriteKeepsGrammar(s, Ctrl(if a.TickGate? then STOP_CLEAR else ARM, s.dev.seqNo));
  }

  lemma StepKeepsProtocol(s: Sys, a: Action)
    requires Protocol(s) && Enabled(s, a)
    ensures Protocol(Do(s, a))
  {
    hide Do, Protocol;
    match a
    case Ensure => ProducerKeepsProtocol(s, a);
    case StartStream => ProducerKeepsProtocol(s, a);
    case Push(_) => ProducerKeepsProtocol(s, a);
    case StopLock => TeardownKeepsProtocol(s, a);
    case StopArm => TeardownKeepsProtocol(s, a);
    case CloseLock => TeardownKeepsProtocol(s, a);
    case CloseArm => TeardownKeepsProtocol(s, a);
    case TickUpdate => UpdateKeepsProtocol(s);
    case TickBegin(_) => ThreadKeepsProtocol(s, a);
    case TickDrain => ThreadKeepsProtocol(s, a);
    case TickResume => ThreadKeepsProtocol(s, a);
    case TickEmit => EmitKeepsProtocol(s);
    case TickGate => PairKeepsProtocol(s, a);
    case TickArm => PairKeepsProtocol(s, a);
    case ThreadExit => ThreadKeepsProtocol(s, a);
    case _ => ControlKeepsProtocol(s, a);
  }
}
