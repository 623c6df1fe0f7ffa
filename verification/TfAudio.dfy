/**
 * The audio half of the TrueForce session's invariant: which samples the window and
 * the stream packets carry.
 */
module TfAudio {
  import opened Words
  import opened TfPackets
  import opened TfTick
  import opened TfSession

  /** Everything the blocks hold, in order. */
  function Samples(bs: seq<Block>): (ws: seq<Word16>) {
    if bs == [] then [] else Samples(bs[..|bs| - 1]) + bs[|bs| - 1].samples
  }

  function Centres(n: nat): (ws: seq<Word16>)
    ensures |ws| == n
  {
    seq(n, _ => 0x8000)
  }

  /** What the wheel is told to play of a block. */
  function Voice(b: Block): (ws: seq<Word16>) {
    match b.fate
    case Voiced => b.samples
    case Wiped => Centres(|b.samples|)
    case _ => []
  }

  function Said(bs: seq<Block>): (ws: seq<Word16>) {
    if bs == [] then [] else Said(bs[..|bs| - 1]) + Voice(bs[|bs| - 1])
  }

  /** What the packets declare new, in order. */
  function Heard(w: seq<Packet>): (ws: seq<Word16>) {
    if w == [] then [] else Heard(w[..|w| - 1]) + w[|w| - 1].Fresh()
  }

  /** Silence is hushed, anything else is voiced unless a clear wiped it; a paused block is muted either way. */
  ghost predicate FateFits(b: Block) {
    match b.fate
    case Muted => true
    case Hushed => Silent(b.samples)
    case _ => !Silent(b.samples)
  }

  function InFlight(pc: ThreadPc): (ws: seq<Word16>) {
    if pc.Drained? || pc.Resuming? || pc.Emitting? then pc.block else []
  }

  /** The window still ends in the block about to be sent, or was re-centred under it. */
  predicate WindowReady(s: Sys) {
    (s.pc.Resuming? || s.pc.Emitting?) && |s.pc.block| <= WINDOW && |s.dev.window| == WINDOW ==>
      if s.pc.wiped then s.dev.window == CENTRED else s.dev.window[WINDOW - |s.pc.block|..] == s.pc.block
  }

  ghost predicate AudioAccounted(s: Sys) {
    && |s.history| >= WINDOW && s.dev.window == LastN(s.history, WINDOW)
    && s.drained == Samples(s.blocks) + InFlight(s.pc)
    && Heard(s.wire) == Said(s.blocks)
    && (forall i :: 0 <= i < |s.blocks| ==> FateFits(s.blocks[i]))
    && WindowReady(s)
  }

  lemma OneMoreBlock(bs: seq<Block>, b: Block)
    ensures Samples(bs + [b]) == Samples(bs) + b.samples
    ensures Said(bs + [b]) == Said(bs) + Voice(b)
  {
    assert (bs + [b])[..|bs|] == bs;
  }

  lemma OneMorePacket(w: seq<Packet>, p: Packet)
    ensures Heard(w + [p]) == Heard(w) + p.Fresh()
  {
    assert (w + [p])[..|w|] == w;
  }

  lemma WindowFollows(history: seq<Word16>, ws: seq<Word16>)
    requires |history| >= WINDOW && |ws| <= WINDOW
    ensures LastN(history + ws, WINDOW) == LastN(history, WINDOW)[|ws|..] + ws
  {
  }

  /** Nothing the audio accounts speak of has changed, save perhaps a packet without new slots. */
  lemma AudioUntouched(s: Sys, s': Sys)
    requires AudioAccounted(s)
    requires s'.wire == s.wire || (|s'.wire| == |s.wire| + 1 && s.wire <= s'.wire && !s'.wire[|s.wire|].Stream?)
    requires s'.blocks == s.blocks && s'.drained == s.drained && s'.history == s.history &&
             s'.dev.window == s.dev.window
    requires InFlight(s'.pc) == InFlight(s.pc)
    requires (s'.pc.Resuming? || s'.pc.Emitting?) ==> (s.pc.Resuming? || s.pc.Emitting?) && s'.pc.wiped == s.pc.wiped
    ensures AudioAccounted(s')
  {
    if s'.wire != s.wire {
      OneMorePacket(s.wire, s'.wire[|s.wire|]);
      assert s.wire + [s'.wire[|s.wire|]] == s'.wire;
    }
  }

  lemma ProducerKeepsAudio(s: Sys, a: Action)
    requires Protocol(s) && Enabled(s, a) && AudioAccounted(s) && (a.Ensure? || a.StartStream? || a.Push?)
    ensures AudioAccounted(Do(s, a))
  {
    if a.StartStream? && !s.running {
      WindowFollows(s.history, CENTRED);
    } else {
      AudioUntouched(s, Do(s, a));
    }
  }

  lemma ControlKeepsAudio(s: Sys, a: Action)
    requires Protocol(s) && Enabled(s, a) && AudioAccounted(s)
    requires a.PauseCall? || a.PauseReturn? || a.PauseTimeout? || a.ResumeCall? || a.ClearRing? ||
             a.StopCall? || a.StopShut?
    ensures AudioAccounted(Do(s, a))
  {
    AudioUntouched(s, Do(s, a));
  }

  lemma ClearKeepsAudio(s: Sys)
    requires Protocol(s) && Enabled(s, ClearWindow) && AudioAccounted(s)
    ensures AudioAccounted(Do(s, ClearWindow))
  {
    WindowFollows(s.history, CENTRED);
  }

  lemma TeardownKeepsAudio(s: Sys, a: Action)
    requires Protocol(s) && Enabled(s, a) && AudioAccounted(s) &&
             (a.StopLock? || a.StopArm? || a.CloseLock? || a.CloseArm?)
    ensures AudioAccounted(Do(s, a))
  {
    var s' := Do(s, a);
    if s'.initialized {
      hide AudioAccounted;
      AudioUntouched(s, s');
    }
  }

  lemma BeginKeepsAudio(s: Sys, expiries: nat)
    requires Protocol(s) && Enabled(s, TickBegin(expiries)) && AudioAccounted(s)
    ensures AudioAccounted(Do(s, TickBegin(expiries)))
  {
    hide AudioAccounted, Protocol, DoControl, DoProducer, DoUpdate, DoDrain, DoEmit, DoGate, DoArm;
    AudioUntouched(s, Do(s, TickBegin(expiries)));
  }

  lemma GateKeepsAudio(s: Sys)
    requires Protocol(s) && Enabled(s, TickGate) && AudioAccounted(s)
    ensures AudioAccounted(Do(s, TickGate))
  {
    hide AudioAccounted, Protocol, DoControl, DoProducer, DoUpdate, DoBegin, DoDrain, DoEmit, DoArm;
    AudioUntouched(s, Do(s, TickGate));
  }

  lemma ArmKeepsAudio(s: Sys)
    requires Protocol(s) && Enabled(s, TickArm) && AudioAccounted(s)
    ensures AudioAccounted(Do(s, TickArm))
  {
    hide AudioAccounted, Protocol, DoControl, DoProducer, DoUpdate, DoBegin, DoDrain, DoEmit, DoGate;
    AudioUntouched(s, Do(s, TickArm));
  }

  lemma ThreadKeepsAudio(s: Sys, a: Action)
    requires Protocol(s) && Enabled(s, a) && AudioAccounted(s) && (a.TickResume? || a.ThreadExit?)
    ensures AudioAccounted(Do(s, a))
  {
    hide AudioAccounted, Protocol, DoControl, DoProducer, DoUpdate, DoBegin, DoDrain, DoEmit, DoGate, DoArm;
    AudioUntouched(s, Do(s, a));
  }

  /** The block in flight meets its fate. */
  lemma BlockSettles(s: Sys, s': Sys, b: Block)
    requires AudioAccounted(s) && InFlight(s.pc) == b.samples && FateFits(b)
    requires s'.blocks == s.blocks + [b] && s'.drained == s.drained
    requires InFlight(s'.pc) == [] && !s'.pc.Resuming? && !s'.pc.Emitting?
    requires (s'.wire == s.wire && Voice(b) == []) || exists p :: s'.wire == s.wire + [p] && p.Fresh() == Voice(b)
    requires |s'.history| >= WINDOW && s'.dev.window == LastN(s'.history, WINDOW)
    ensures AudioAccounted(s')
  {
    OneMoreBlock(s.blocks, b);
    if s'.wire == s.wire && Voice(b) == [] {
      assert Said(s.blocks) + [] == Said(s.blocks);
    } else {
      var p :| s'.wire == s.wire + [p] && p.Fresh() == Voice(b);
      OneMorePacket(s.wire, p);
    }
    assert Samples(s'.blocks) + [] == s.drained;
  }

  lemma FreshIsVoice(window: seq<Word16>, block: seq<Word16>, wiped: bool, p: Packet)
    requires |window| == WINDOW && |block| <= WINDOW
    requires if wiped then window == CENTRED else window[WINDOW - |block|..] == block
    requires p.Stream? && p.window == window && p.count == |block|
    ensures p.Fresh() == Voice(Block(block, if wiped then Wiped else Voiced))
  {
    assert LastN(window, |block|) == window[WINDOW - |block|..];
  }

  lemma EmitKeepsAudio(s: Sys)
    requires Protocol(s) && Enabled(s, TickEmit) && AudioAccounted(s)
    ensures AudioAccounted(Do(s, TickEmit))
  {
    var p := Stream(s.dev.seqNo, s.dev.current, s.dev.window, |s.pc.block|);
    var b := Block(s.pc.block, if s.pc.wiped then Wiped else Voiced);
    FreshIsVoice(s.dev.window, s.pc.block, s.pc.wiped, p);
    assert FateFits(b) && |s.history| >= WINDOW && s.dev.window == LastN(s.history, WINDOW);
    hide Protocol, AudioAccounted, FateFits, LastN, Voice;
    assert Do(s, TickEmit).wire == s.wire + [p];
    BlockSettles(s, Do(s, TickEmit), b);
  }

  lemma AbsorbShifts(s: Sys)
    requires s.pc.Drained? && s.dev.Valid() && |s.pc.block| <= CATCHUP_MAX && |s.history| >= WINDOW
    requires s.dev.window == LastN(s.history, WINDOW)
    ensures Absorb(s.dev, s.pc.block).window == LastN(s.history + ShiftedIn(s.dev, s.pc.block), WINDOW)
  {
    WindowFollows(s.history, ShiftedIn(s.dev, s.pc.block));
  }

  lemma JudgedFate(block: seq<Word16>, paused: bool, a: Dev, armed: bool)
    ensures FateFits(Block(block, if paused then Muted else Hushed)) || Decide(a, block, paused, armed).Resume?
  {
  }

  lemma SettleKeepsAudio(s: Sys, a: Dev, v: Verdict)
    requires Protocol(s) && s.pc.Drained? && AudioAccounted(s)
    requires v.Keepalive? && a.current == CENTRE ==> a.idleTicks + 1 < IDLE_GRACE_TICKS
    requires a.window == LastN(s.history + ShiftedIn(s.dev, s.pc.block), WINDOW)
    requires v == Decide(a, s.pc.block, s.pc.paused, s.pc.armed)
    ensures AudioAccounted(Settle(s, a, v))
  {
    var s' := Settle(s, a, v);
    if v.Resume? {
      assert s.pc.block != [] && s'.history == s.history + s.pc.block;
    } else {
      hide Protocol, LastN, FateFits, Samples, Said, Heard;
      JudgedFate(s.pc.block, s.pc.paused, a, s.pc.armed);
      if v.Keepalive? {
        assert s'.wire == s.wire + [Idle(a.seqNo, a.current)] && Idle(a.seqNo, a.current).Fresh() == [];
      }
      BlockSettles(s, s', Block(s.pc.block, if s.pc.paused then Muted else Hushed));
    }
  }

  lemma DrainKeepsAudio(s: Sys)
    requires Protocol(s) && Enabled(s, TickDrain) && AudioAccounted(s)
    ensures AudioAccounted(Do(s, TickDrain))
  {
    assert s.drained == Samples(s.blocks);
  }

  lemma UpdateKeepsAudio(s: Sys)
    requires Protocol(s) && Enabled(s, TickUpdate) && AudioAccounted(s)
    ensures AudioAccounted(Do(s, TickUpdate))
  {
    UpdateIsSettle(s);
    AbsorbShifts(s);
    hide AudioAccounted, Absorb, Protocol, Do;
    var d := Absorb(s.dev, s.pc.block);
    SettleKeepsAudio(s, d, Decide(d, s.pc.block, s.pc.paused, s.pc.armed));
  }

  lemma StepKeepsAudio(s: Sys, a: Action)
    requires Protocol(s) && Enabled(s, a) && AudioAccounted(s)
    ensures AudioAccounted(Do(s, a))
  {
    hide Do, Protocol, AudioAccounted;
    match a
    case Ensure => ProducerKeepsAudio(s, a);
    case StartStream => ProducerKeepsAudio(s, a);
    case Push(_) => ProducerKeepsAudio(s, a);
    case ClearWindow => ClearKeepsAudio(s);
    case StopLock => TeardownKeepsAudio(s, a);
    case StopArm => TeardownKeepsAudio(s, a);
    case CloseLock => TeardownKeepsAudio(s, a);
    case CloseArm => TeardownKeepsAudio(s, a);
    case TickBegin(expiries) => BeginKeepsAudio(s, expiries);
    case TickDrain => DrainKeepsAudio(s);
    case TickUpdate => UpdateKeepsAudio(s);
    case TickResume => ThreadKeepsAudio(s, a);
    case TickEmit => EmitKeepsAudio(s);
    case TickGate => GateKeepsAudio(s);
    case TickArm => ArmKeepsAudio(s);
    case ThreadExit => ThreadKeepsAudio(s, a);
    case _ => ControlKeepsAudio(s, a);
  }

  // ------------------------------------------------------------ muted means paused

  /** A tick that has sampled the flags and whose block has not met its fate. */
  predicate TickOpen(pc: ThreadPc) {
    pc.Sampled? || pc.Drained? || pc.Resuming? || pc.Emitting?
  }

  /** Every tick left one block, muted exactly when the tick found the session paused. */
  ghost predicate PauseRecorded(s: Sys) {
    && |s.sampled| == |s.blocks| + (if TickOpen(s.pc) then 1 else 0)
    && (forall i :: 0 <= i < |s.blocks| ==> (s.blocks[i].fate.Muted? <==> s.sampled[i]))
    && (TickOpen(s.pc) ==> s.sampled[|s.blocks|] == ((s.pc.Sampled? || s.pc.Drained?) && s.pc.paused))
  }

  lemma PauseUntouched(s: Sys, s': Sys)
    requires PauseRecorded(s) && s'.sampled == s.sampled && s'.blocks == s.blocks && TickOpen(s'.pc) == TickOpen(s.pc)
    requires TickOpen(s.pc) ==>
               ((s'.pc.Sampled? || s'.pc.Drained?) && s'.pc.paused) == ((s.pc.Sampled? || s.pc.Drained?) && s.pc.paused)
    ensures PauseRecorded(s')
  {
  }

  lemma ControlKeepsPause(s: Sys, a: Action)
    requires Protocol(s) && Enabled(s, a) && PauseRecorded(s)
    requires a.Ensure? || a.StartStream? || a.Push? || a.PauseCall? || a.PauseReturn? || a.PauseTimeout? ||
             a.ResumeCall?
             || a.ClearRing? || a.ClearWindow? || a.StopCall? || a.StopShut?
    ensures PauseRecorded(Do(s, a))
  {
    hide PauseRecorded;
    PauseUntouched(s, Do(s, a));
  }

  lemma TeardownKeepsPause(s: Sys, a: Action)
    requires Protocol(s) && Enabled(s, a) && PauseRecorded(s)
    requires a.StopLock? || a.StopArm? || a.CloseLock? || a.CloseArm?
    ensures PauseRecorded(Do(s, a))
  {
  }

  lemma PauseSampled(s: Sys, s': Sys)
    requires PauseRecorded(s) && s.pc.Ready? && s'.pc.Sampled?
    requires s'.blocks == s.blocks && s'.sampled == s.sampled + [s'.pc.paused]
    ensures PauseRecorded(s')
  {
  }

  lemma BeginKeepsPause(s: Sys, expiries: nat)
    requires Protocol(s) && Enabled(s, TickBegin(expiries)) && PauseRecorded(s)
    ensures PauseRecorded(Do(s, TickBegin(expiries)))
  {
    hide PauseRecorded, Protocol, DoControl, DoProducer, DoUpdate, DoDrain, DoEmit, DoGate, DoArm;
    if s.dev.pending {
      PauseUntouched(s, Do(s, TickBegin(expiries)));
    } else {
      PauseSampled(s, Do(s, TickBegin(expiries)));
    }
  }

  lemma EmitKeepsPause(s: Sys)
    requires Protocol(s) && Enabled(s, TickEmit) && PauseRecorded(s)
    ensures PauseRecorded(Do(s, TickEmit))
  {
    hide Protocol, DoControl, DoProducer, DoUpdate, DoBegin, DoDrain, DoGate, DoArm;
  }

  lemma ThreadKeepsPause(s: Sys, a: Action)
    requires Protocol(s) && Enabled(s, a) && PauseRecorded(s)
    requires a.TickDrain? || a.TickResume? || a.ThreadExit?
    ensures PauseRecorded(Do(s, a))
  {
    hide PauseRecorded, Protocol, DoControl, DoProducer, DoUpdate, DoBegin, DoEmit, DoGate, DoArm;
    PauseUntouched(s, Do(s, a));
  }

  lemma PairKeepsPause(s: Sys, a: Action)
    requires Protocol(s) && Enabled(s, a) && PauseRecorded(s) && (a.TickGate? || a.TickArm?)
    ensures PauseRecorded(Do(s, a))
  {
    hide PauseRecorded, Protocol, DoControl, DoProducer, DoUpdate, DoBegin, DoDrain, DoEmit;
    PauseUntouched(s, Do(s, a));
  }

  lemma SettleKeepsPause(s: Sys, a: Dev, v: Verdict)
    requires s.pc.Drained? && PauseRecorded(s)
    requires v.Keepalive? && a.current == CENTRE ==> a.idleTicks + 1 < IDLE_GRACE_TICKS
    requires v == Decide(a, s.pc.block, s.pc.paused, s.pc.armed)
    ensures PauseRecorded(Settle(s, a, v))
  {
  }

  lemma StepKeepsPause(s: Sys, a: Action)
    requires Protocol(s) && Enabled(s, a) && PauseRecorded(s)
    ensures PauseRecorded(Do(s, a))
  {
    hide Do, Protocol, PauseRecorded;
    if a.TickUpdate? {
      UpdateIsSettle(s);
      var d := Absorb(s.dev, s.pc.block);
      SettleKeepsPause(s, d, Decide(d, s.pc.block, s.pc.paused, s.pc.armed));
    } else if a.StopLock? || a.StopArm? || a.CloseLock? || a.CloseArm? {
      TeardownKeepsPause(s, a);
    } else if a.TickBegin? {
      BeginKeepsPause(s, a.expiries);
    } else if a.TickEmit? {
      EmitKeepsPause(s);
    } else if a.TickGate? || a.TickArm? {
      PairKeepsPause(s, a);
    } else if a.TickDrain? || a.TickResume? || a.ThreadExit? {
      ThreadKeepsPause(s, a);
    } else {
      ControlKeepsPause(s, a);
    }
  }

  // ------------------------------------------------------------ the force is the newest sample

  predicate ForceIsNewest(p: Packet) {
    p.Stream? && |p.window| == WINDOW ==> p.current == p.window[WINDOW - 1]
  }

  predicate ForceReady(pc: ThreadPc, dev: Dev) {
    (pc.Resuming? || pc.Emitting?) && |dev.window| == WINDOW ==> dev.current == dev.window[WINDOW - 1]
  }

  /** Every stream packet commands the newest slot of its own window. */
  ghost predicate ForceRecorded(s: Sys) {
    ForceReady(s.pc, s.dev) && forall i :: 0 <= i < |s.wire| ==> ForceIsNewest(s.wire[i])
  }

  lemma ForceUntouched(s: Sys, s': Sys)
    requires ForceRecorded(s) && ForceReady(s'.pc, s'.dev)
    requires s'.wire == s.wire || s'.wire == [] || (exists p :: s'.wire == s.wire + [p] && ForceIsNewest(p))
    ensures ForceRecorded(s')
  {
  }

  lemma OneMoreForce(s: Sys, s': Sys, p: Packet)
    requires ForceRecorded(s) && ForceReady(s'.pc, s'.dev) && s'.wire == s.wire + [p] && ForceIsNewest(p)
    ensures ForceRecorded(s')
  {
  }

  lemma ProducerKeepsForce(s: Sys, a: Action)
    requires Protocol(s) && Enabled(s, a) && ForceRecorded(s) && (a.Ensure? || a.StartStream? || a.Push?)
    ensures ForceRecorded(Do(s, a))
  {
    assert ForceReady(s.pc, s.dev);
    assert a.StartStream? && !s.running ==> s.pc.Dead?;
    hide Protocol, ForceRecorded;
    ForceUntouched(s, Do(s, a));
  }

  lemma ControlKeepsForce(s: Sys, a: Action)
    requires Protocol(s) && Enabled(s, a) && ForceRecorded(s)
    requires a.PauseCall? || a.PauseReturn? || a.PauseTimeout? || a.ResumeCall? || a.ClearRing? || a.ClearWindow?
             || a.StopCall? || a.StopShut?
    ensures ForceRecorded(Do(s, a))
  {
    assert ForceReady(s.pc, s.dev);
    hide Protocol, ForceRecorded;
    ForceUntouched(s, Do(s, a));
  }

  lemma TeardownKeepsForce(s: Sys, a: Action)
    requires Protocol(s) && Enabled(s, a) && ForceRecorded(s)
    requires a.StopLock? || a.StopArm? || a.CloseLock? || a.CloseArm?
    ensures ForceRecorded(Do(s, a))
  {
    assert ForceReady(s.pc, s.dev);
    var p := Ctrl(if a.StopArm? || a.CloseArm? then ARM else STOP_CLEAR, s.dev.seqNo);
    assert ForceIsNewest(p);
    hide Protocol, ForceRecorded;
    if Do(s, a).wire == s.wire + [p] {
      OneMoreForce(s, Do(s, a), p);
    } else {
      ForceUntouched(s, Do(s, a));
    }
  }

  lemma BeginKeepsForce(s: Sys, expiries: nat)
    requires Protocol(s) && Enabled(s, TickBegin(expiries)) && ForceRecorded(s)
    ensures ForceRecorded(Do(s, TickBegin(expiries)))
  {
    var p := Ctrl(STOP_CLEAR, s.dev.seqNo);
    hide Protocol, ForceRecorded;
    if s.dev.pending && !s.dev.armed {
      OneMoreForce(s, Do(s, TickBegin(expiries)), p);
    } else {
      ForceUntouched(s, Do(s, TickBegin(expiries)));
    }
  }

  lemma PairKeepsForce(s: Sys, a: Action)
    requires Protocol(s) && Enabled(s, a) && ForceRecorded(s) && (a.TickGate? || a.TickArm?)
    ensures ForceRecorded(Do(s, a))
  {
    var p := Ctrl(if a.TickArm? then ARM else STOP_CLEAR, s.dev.seqNo);
    hide Protocol, ForceRecorded;
    if Do(s, a).wire == s.wire + [p] {
      OneMoreForce(s, Do(s, a), p);
    } else {
      ForceUntouched(s, Do(s, a));
    }
  }

  lemma ThreadKeepsForce(s: Sys, a: Action)
    requires Protocol(s) && Enabled(s, a) && ForceRecorded(s) && (a.TickDrain? || a.TickResume? || a.ThreadExit?)
    ensures ForceRecorded(Do(s, a))
  {
    assert ForceReady(s.pc, s.dev);
    hide Protocol, ForceRecorded;
    ForceUntouched(s, Do(s, a));
  }

  lemma EmitKeepsForce(s: Sys)
    requires Protocol(s) && Enabled(s, TickEmit) && ForceRecorded(s)
    ensures ForceRecorded(Do(s, TickEmit))
  {
    var p := Stream(s.dev.seqNo, s.dev.current, s.dev.window, |s.pc.block|);
    assert ForceIsNewest(p);
    hide Protocol, ForceRecorded;
    OneMoreForce(s, Do(s, TickEmit), p);
  }

  lemma SettleKeepsForce(s: Sys, a: Dev, v: Verdict)
    requires s.pc.Drained? && ForceRecorded(s) && s.dev.Valid() && |s.pc.block| <= CATCHUP_MAX
    requires v.Keepalive? && a.current == CENTRE ==> a.idleTicks + 1 < IDLE_GRACE_TICKS
    requires a == Absorb(s.dev, s.pc.block) && v == Decide(a, s.pc.block, s.pc.paused, s.pc.armed)
    ensures ForceRecorded(Settle(s, a, v))
  {
    hide ForceRecorded;
    if v.Keepalive? {
      OneMoreForce(s, Settle(s, a, v), Idle(a.seqNo, a.current));
    } else {
      ForceUntouched(s, Settle(s, a, v));
    }
  }

  lemma StepKeepsForce(s: Sys, a: Action)
    requires Protocol(s) && Enabled(s, a) && ForceRecorded(s)
    ensures ForceRecorded(Do(s, a))
  {
    hide Do, Protocol, ForceRecorded;
    if a.TickUpdate? {
      UpdateIsSettle(s);
      UpdateValid(s);
      var d := Absorb(s.dev, s.pc.block);
      SettleKeepsForce(s, d, Decide(d, s.pc.block, s.pc.paused, s.pc.armed));
    } else if a.StopLock? || a.StopArm? || a.CloseLock? || a.CloseArm? {
      TeardownKeepsForce(s, a);
    } else if a.TickBegin? {
      BeginKeepsForce(s, a.expiries);
    } else if a.TickEmit? {
      EmitKeepsForce(s);
    } else if a.TickGate? || a.TickArm? {
      PairKeepsForce(s, a);
    } else if a.TickDrain? || a.TickResume? || a.ThreadExit? {
      ThreadKeepsForce(s, a);
    } else if a.Ensure? || a.StartStream? || a.Push? {
      ProducerKeepsForce(s, a);
    } else {
      ControlKeepsForce(s, a);
    }
  }

  lemma UpdateValid(s: Sys)
    requires Protocol(s) && Enabled(s, TickUpdate)
    ensures s.dev.Valid() && |s.pc.block| <= CATCHUP_MAX
  {
  }
}
