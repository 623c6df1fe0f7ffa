/**
 * What every run of the TrueForce session machine keeps: the wire's grammar, its
 * sequence bytes, the silence after a Pause, and the audio it carries.
 */
module TfRuns {
  import opened Words
  import opened TfPackets
  import opened TfTick
  import opened TfSession
  import opened TfAudio
  import R = SampleRing

  /** One action, which keeps the protocol invariant. */
  ghost function Step(s: Sys, a: Action): (s': Sys)
    requires Protocol(s) && Enabled(s, a)
    ensures Protocol(s') && s' == Do(s, a)
  {
    StepKeepsProtocol(s, a);
    Do(s, a)
  }

  ghost predicate Runnable(s: Sys, acts: seq<Action>)
    requires Protocol(s)
    decreases |acts|
  {
    acts != [] ==> Enabled(s, acts[0]) && Runnable(Step(s, acts[0]), acts[1..])
  }

  /** The state a run ends in; every state of every run satisfies the protocol invariant. */
  ghost function Exec(s: Sys, acts: seq<Action>): (s': Sys)
    requires Protocol(s) && Runnable(s, acts)
    ensures Protocol(s')
    decreases |acts|
  {
    if acts == [] then s else Exec(Step(s, acts[0]), acts[1..])
  }

  /** Everything that holds in every state of every run. */
  ghost predicate Sound(s: Sys) {
    Protocol(s) && SeqInOrder(s) && ServicedIsQuiet(s) && AudioAccounted(s) && PauseRecorded(s) && ForceRecorded(s)
  }

  lemma StepKeepsSound(s: Sys, a: Action)
    requires Sound(s) && Enabled(s, a)
    ensures Sound(Step(s, a))
  {
    hide Do, Enabled, Protocol, SeqInOrder, ServicedIsQuiet, AudioAccounted, PauseRecorded, ForceRecorded;
    StepKeepsSeq(s, a);
    StepKeepsServiced(s, a);
    StepKeepsAudio(s, a);
    StepKeepsPause(s, a);
    StepKeepsForce(s, a);
  }

  lemma {:induction false} RunKeepsSound(s: Sys, acts: seq<Action>)
    requires Sound(s) && Runnable(s, acts)
    ensures Sound(Exec(s, acts))
    decreases |acts|
  {
    if acts != [] {
      StepKeepsSound(s, acts[0]);
      RunKeepsSound(Step(s, acts[0]), acts[1..]);
    }
  }

  lemma InitIsSound(s: Sys)
    requires s == INIT
    ensures Sound(s)
  {
  }

  ghost predicate Reachable(s: Sys) {
    exists s0, acts :: s0 == INIT && Protocol(s0) && Runnable(s0, acts) && Exec(s0, acts) == s
  }

  lemma ReachableIsSound(s: Sys)
    requires Reachable(s)
    ensures Sound(s)
  {
    var s0, acts :| s0 == INIT && Protocol(s0) && Runnable(s0, acts) && Exec(s0, acts) == s;
    InitIsSound(s0);
    RunKeepsSound(s0, acts);
  }

  // ------------------------------------------------------------ grammar

  /** (S|I)* (P S (S|I)*)* P?, read off as a right-linear grammar. */
  predicate Session(w: seq<Packet>)
    decreases |w|
  {
    if w == [] then true
    else if w[0].Stream? || w[0].Idle? then w[0].Valid() && Session(w[1..])
    else
      && |w| >= 2 && IsStop(w[0]) && IsArm(w[1])
      && (|w| == 2 || (w[2].Stream? && Session(w[2..])))
  }

  /** The invariant's local conditions are exactly the grammar, cut inside a pair or not. */
  lemma {:induction false} WellFormedIsTheGrammar(w: seq<Packet>)
    ensures WellFormed(w) && !EndsInStop(w) <==> Session(w)
    decreases |w|
  {
    if w == [] {
    } else if w[0].Stream? || w[0].Idle? {
      WellFormedIsTheGrammar(w[1..]);
      SuffixFits(w, 1);
      if WellFormed(w) { assert FitsAt(w, 0); }
    } else if |w| >= 2 && IsStop(w[0]) && IsArm(w[1]) {
      WellFormedIsTheGrammar(w[2..]);
      SuffixFits(w, 2);
      if |w| > 2 && WellFormed(w) { assert FitsAt(w, 2); }
    } else if |w| == 1 {
      assert WellFormed(w) ==> FitsAt(w, 0);
    } else {
      assert !FitsAt(w, 0) || !FitsAt(w, 1);
    }
  }

  /** Cutting off a sample packet, or a pair followed by a stream packet, changes nothing else. */
  lemma SuffixFits(w: seq<Packet>, k: nat)
    requires (k == 1 && |w| >= 1 && (w[0].Stream? || w[0].Idle?)) || (k == 2 && |w| >= 2 && IsStop(w[0]) && IsArm(w[1]))
    ensures WellFormed(w) ==> WellFormed(w[k..])
    ensures WellFormed(w[k..]) && (k == 1 ==> w[0].Valid()) && (k == 2 && |w| > 2 ==> w[2].Stream?) ==> WellFormed(w)
    ensures |w| > k ==> (EndsInStop(w) <==> EndsInStop(w[k..]))
  {
    var v := w[k..];
    if WellFormed(w) {
      forall i | 0 <= i < |v| ensures FitsAt(v, i) {
        assert FitsAt(w, i + k);
      }
    }
    if WellFormed(v) && (k == 1 ==> w[0].Valid()) && (k == 2 && |w| > 2 ==> w[2].Stream?) {
      forall i | 0 <= i < |w| ensures FitsAt(w, i) {
        if i >= k {
          assert FitsAt(v, i - k);
        }
      }
    }
  }

  /** No session's wire ever leaves the grammar, and every closed session ends in a pair. */
  lemma WireSpeaksTheGrammar(s: Sys)
    requires Reachable(s)
    ensures if InGap(s) then EndsInStop(s.wire) && Session(s.wire[..|s.wire| - 1]) else Session(s.wire)
    ensures forall i :: 0 <= i < |s.past| ==> Session(s.past[i]) && EndsInPair(s.past[i])
  {
    ReachableIsSound(s);
    WellFormedIsTheGrammar(s.wire);
    forall i | 0 <= i < |s.past| ensures Session(s.past[i]) {
      WellFormedIsTheGrammar(s.past[i]);
    }
    if InGap(s) {
      CutInsidePair(s.wire);
      WellFormedIsTheGrammar(s.wire[..|s.wire| - 1]);
    }
  }

  lemma CutInsidePair(w: seq<Packet>)
    requires WellFormed(w) && EndsInStop(w)
    ensures WellFormed(w[..|w| - 1]) && !EndsInStop(w[..|w| - 1])
  {
    var v := w[..|w| - 1];
    forall i | 0 <= i < |v| ensures FitsAt(v, i) {
      assert FitsAt(w, i);
    }
    assert FitsAt(w, |v|);
  }

  /** A stop that completes leaves a pair at the end of the wire, adding nothing when one was there. */
  lemma StopEndsInPair(s: Sys, a: Action)
    requires Protocol(s) && Enabled(s, a) && (a.StopLock? || a.StopArm?) && !Do(s, a).running
    ensures EndsInPair(Do(s, a).wire)
    ensures s.dev.armed ==> Do(s, a).wire == s.wire
  {
    TeardownKeepsProtocol(s, a);
  }

  // ------------------------------------------------------------ sequence bytes

  /** One more than the last, save that a restart which finds the counter at zero sets it to the first value. */
  predicate SeqStep(a: Byte, b: Byte, restart: bool) {
    b == if restart && a == 255 then FIRST_SEQ else (a + 1) % U8
  }

  predicate SeqAt(s: Sys, i: nat, n: Byte)
    requires i <= |s.wire|
  {
    if i == 0 then n == FIRST_SEQ else SeqStep(s.wire[i - 1].seqNo, n, i in s.starts)
  }

  ghost predicate SeqInOrder(s: Sys) {
    && (forall i :: 0 <= i < |s.wire| ==> SeqAt(s, i, s.wire[i].seqNo))
    && (s.initialized ==> SeqAt(s, |s.wire|, s.dev.seqNo))
    && (forall i :: i in s.starts ==> i <= |s.wire|)
  }

  lemma WriteKeepsSeq(s: Sys, s': Sys, p: Packet)
    requires SeqInOrder(s) && s.initialized && p.seqNo == s.dev.seqNo
    requires s'.wire == s.wire + [p] && s'.starts == s.starts && s'.dev.seqNo == (s.dev.seqNo + 1) % U8
    ensures SeqInOrder(s')
  {
    assert |s'.wire| !in s'.starts;
    assert SeqStep(p.seqNo, s'.dev.seqNo, |s'.wire| in s'.starts);
    hide SeqStep;
    forall i | 0 <= i < |s'.wire| ensures SeqAt(s', i, s'.wire[i].seqNo) {
      if i < |s.wire| {
        assert SeqAt(s, i, s.wire[i].seqNo);
      }
    }
  }

  /** A restart noted, the counter moved off zero. */
  ghost predicate Restarted(s: Sys, s': Sys) {
    && s.initialized && s'.wire == s.wire && s'.starts == s.starts + {|s.wire|}
    && s'.dev.seqNo == if s.dev.seqNo == 0 then FIRST_SEQ else s.dev.seqNo
  }

  lemma RestartSeqStep(a: Byte, b: Byte, was: bool)
    requires SeqStep(a, b, was)
    ensures SeqStep(a, if b == 0 then FIRST_SEQ else b, true)
  {
  }

  lemma RestartKeepsSeq(s: Sys, s': Sys)
    requires SeqInOrder(s) && Restarted(s, s')
    ensures SeqInOrder(s')
  {
    hide SeqStep;
    forall i | 0 <= i < |s'.wire| ensures SeqAt(s', i, s'.wire[i].seqNo) {
      assert SeqAt(s, i, s.wire[i].seqNo);
    }
    if s'.initialized && s.wire != [] {
      RestartSeqStep(s.wire[|s.wire| - 1].seqNo, s.dev.seqNo, |s.wire| in s.starts);
    }
  }

  /** No packet went out and no stream run began. */
  ghost predicate Unheard(s: Sys, s': Sys) {
    && s'.wire == s.wire && s'.starts == s.starts
    && (s'.initialized ==>
          (s.initialized && s'.dev.seqNo == s.dev.seqNo) || (s.wire == [] && s'.dev.seqNo == FIRST_SEQ))
  }

  lemma SilenceKeepsSeq(s: Sys, s': Sys)
    requires SeqInOrder(s) && Unheard(s, s')
    ensures SeqInOrder(s')
  {
    hide SeqStep;
    forall i | 0 <= i < |s'.wire| ensures SeqAt(s', i, s'.wire[i].seqNo) {
      assert SeqAt(s, i, s.wire[i].seqNo);
    }
  }

  ghost predicate Wrote(s: Sys, s': Sys) {
    && s.initialized && |s'.wire| == |s.wire| + 1 && s'.wire == s.wire + [s'.wire[|s.wire|]]
    && s'.wire[|s.wire|].seqNo == s.dev.seqNo && s'.dev.seqNo == (s.dev.seqNo + 1) % U8 && s'.starts == s.starts
  }

  ghost predicate Ended(s': Sys) {
    s'.wire == [] && s'.starts == {} && !s'.initialized
  }

  /** What an action does to the wire and the counter. */
  ghost predicate WireStep(s: Sys, s': Sys) {
    Wrote(s, s') || Unheard(s, s') || Restarted(s, s') || Ended(s')
  }

  lemma ThreadWireStep(s: Sys, a: Action)
    requires Protocol(s) && Enabled(s, a) && (a.TickBegin? || a.TickDrain? || a.TickResume? || a.ThreadExit?)
    ensures WireStep(s, Do(s, a))
  {
  }

  lemma EmissionWireStep(s: Sys, a: Action)
    requires Protocol(s) && Enabled(s, a) && (a.TickEmit? || a.TickGate? || a.TickArm?)
    ensures WireStep(s, Do(s, a))
  {
  }

  lemma UpdateWireStep(s: Sys)
    requires Protocol(s) && Enabled(s, TickUpdate)
    ensures WireStep(s, Do(s, TickUpdate))
  {
    UpdateIsSettle(s);
    assert s.initialized;
    hide Absorb, Protocol, Do;
  }

  lemma TeardownWireStep(s: Sys, a: Action)
    requires Protocol(s) && Enabled(s, a) && (a.StopLock? || a.StopArm? || a.CloseLock? || a.CloseArm?)
    ensures WireStep(s, Do(s, a))
  {
  }

  lemma ProducerWireStep(s: Sys, a: Action)
    requires Protocol(s) && Enabled(s, a) && (a.Ensure? || a.StartStream? || a.Push?)
    ensures WireStep(s, Do(s, a))
  {
  }

  lemma ControlWireStep(s: Sys, a: Action)
    requires Protocol(s) && Enabled(s, a)
    requires a.PauseCall? || a.PauseReturn? || a.PauseTimeout? || a.ResumeCall? || a.ClearRing? || a.ClearWindow?
             || a.StopCall? || a.StopShut?
    ensures WireStep(s, Do(s, a))
  {
  }

  lemma AnyWireStep(s: Sys, a: Action)
    requires Protocol(s) && Enabled(s, a)
    ensures WireStep(s, Do(s, a))
  {
    hide Do, Protocol, Enabled, WireStep;
    if a.TickUpdate? {
      UpdateWireStep(s);
    } else if a.TickBegin? || a.TickDrain? || a.TickResume? || a.ThreadExit? {
      ThreadWireStep(s, a);
    } else if a.TickEmit? || a.TickGate? || a.TickArm? {
      EmissionWireStep(s, a);
    } else if a.StopLock? || a.StopArm? || a.CloseLock? || a.CloseArm? {
      TeardownWireStep(s, a);
    } else if a.Ensure? || a.StartStream? || a.Push? {
      ProducerWireStep(s, a);
    } else {
      ControlWireStep(s, a);
    }
  }

  lemma WireStepKeepsSeq(s: Sys, s': Sys)
    requires SeqInOrder(s) && WireStep(s, s')
    ensures SeqInOrder(s')
  {
    if Wrote(s, s') {
      hide SeqInOrder;
      WriteKeepsSeq(s, s', s'.wire[|s.wire|]);
    } else if Unheard(s, s') {
      SilenceKeepsSeq(s, s');
    } else if Restarted(s, s') {
      RestartKeepsSeq(s, s');
    }
  }

  lemma StepKeepsSeq(s: Sys, a: Action)
    requires Protocol(s) && Enabled(s, a) && SeqInOrder(s)
    ensures SeqInOrder(Do(s, a))
  {
    hide Do, Protocol, Enabled, SeqInOrder, WireStep;
    AnyWireStep(s, a);
    WireStepKeepsSeq(s, Do(s, a));
  }

  /**
   * In every run the first byte is 69 and each next one is the last plus one, modulo
   * 256, except exactly where a stream run begins after byte 255: there it is 69.
   */
  lemma SequenceBytesAreConsecutive(s: Sys, i: nat)
    requires Reachable(s) && i < |s.wire|
    ensures i == 0 ==> s.wire[i].seqNo == FIRST_SEQ
    ensures i > 0 ==>
              var last, next := s.wire[i - 1].seqNo, s.wire[i].seqNo;
              && (next != (last + 1) % U8 <==> i in s.starts && last == 255)
              && (i in s.starts && last == 255 ==> next == FIRST_SEQ)
  {
    hide Reachable;
    ReachableInOrder(s);
    assert SeqAt(s, i, s.wire[i].seqNo);
  }

  lemma ReachableInOrder(s: Sys)
    requires Reachable(s)
    ensures SeqInOrder(s)
  {
    hide Reachable, SeqInOrder, Protocol, AudioAccounted, PauseRecorded, ForceRecorded;
    ReachableIsSound(s);
  }

  // ------------------------------------------------------------ silence after a Pause

  /** No tick is under way that could still put a packet on a paused, armed wire. */
  predicate Mute(pc: ThreadPc) {
    match pc
    case Dead => true
    case Ready => true
    case Sampled(paused, _, _) => paused
    case Drained(paused, _, block) => paused || Silent(block)
    case _ => false
  }

  predicate Quiet(s: Sys) {
    s.initialized && s.dev.paused && s.dev.armed && Mute(s.pc)
  }

  /** Nothing but a Resume, or the end of the session, breaks the quiet. */
  lemma QuietPersists(s: Sys, a: Action)
    requires Protocol(s) && Enabled(s, a) && Quiet(s) && !a.ResumeCall? && !a.CloseLock?
    ensures Quiet(Do(s, a)) && Do(s, a).wire == s.wire
  {
  }

  ghost predicate StaysDown(acts: seq<Action>) {
    forall i :: 0 <= i < |acts| ==> !acts[i].ResumeCall? && !acts[i].CloseLock?
  }

  lemma {:induction false} QuietRun(s: Sys, acts: seq<Action>)
    requires Protocol(s) && Runnable(s, acts) && Quiet(s) && StaysDown(acts)
    ensures Quiet(Exec(s, acts)) && Exec(s, acts).wire == s.wire
    decreases |acts|
  {
    if acts != [] {
      StepKeepsProtocol(s, acts[0]);
      QuietPersists(s, acts[0]);
      QuietRun(Do(s, acts[0]), acts[1..]);
    }
  }

  /** A waiting Pause whose request has been carried out is already quiet. */
  predicate ServicedIsQuiet(s: Sys) {
    s.ctl.PauseWait? && s.serviced ==> Quiet(s)
  }

  lemma StepKeepsServiced(s: Sys, a: Action)
    requires Protocol(s) && Enabled(s, a) && ServicedIsQuiet(s)
    ensures ServicedIsQuiet(Do(s, a))
  {
    if s.ctl.PauseWait? && s.serviced {
      QuietPersists(s, a);
    }
  }

  /**
   * Whatever tick was in flight when Pause took the lock: if its request was carried
   * out before it returns, the wire ends in a teardown pair and nothing follows it on
   * any continuation without a Resume or a Close.
   */
  lemma ServicedPauseSilencesTheWire(s: Sys, later: seq<Action>)
    requires Reachable(s) && Protocol(s) && Enabled(s, PauseReturn) && s.serviced
    requires Runnable(Step(s, PauseReturn), later) && StaysDown(later)
    ensures var s' := Exec(Step(s, PauseReturn), later);
            s'.wire == s.wire && EndsInPair(s'.wire) && s'.dev.paused
  {
    ReachableIsSound(s);
    QuietPersists(s, PauseReturn);
    QuietRun(Step(s, PauseReturn), later);
  }

  /**
   * A repeated Pause asks again exactly when the pair is not the last thing on the wire, or
   * is about to stop being so.
   */
  lemma RetriedPauseAsksAgain(s: Sys)
    requires Protocol(s) && s.ctl.Free? && s.initialized && s.dev.paused
    ensures Do(s, PauseCall).dev.pending <==> !EndsInPair(s.wire) || s.pc.Emitting?
  {
  }

  /** 512 loud samples: enough to displace whatever the ring holds. */
  function Loud(): (ss: seq<Int16>)
    ensures |ss| == 512 && forall i :: 0 <= i < 512 ==> ss[i] == 1
  {
    seq(512, _ => 1)
  }

  /** The rest of a tick that ends in a stream packet. */
  function Finish(pc: ThreadPc): (acts: seq<Action>) {
    if pc.Sampled? then [Push(Loud()), TickDrain, TickUpdate, TickResume, TickEmit]
    else if pc.Drained? then [TickUpdate, TickResume, TickEmit]
    else [TickResume, TickEmit]
  }

  lemma ResumingTickEmits(s: Sys)
    requires Protocol(s) && s.pc.Resuming?
    ensures Runnable(s, [TickResume, TickEmit])
    ensures Exec(s, [TickResume, TickEmit]).wire != s.wire
  {
    var acts := [TickResume, TickEmit];
    StepKeepsProtocol(s, TickResume);
    var s1 := Do(s, TickResume);
    StepKeepsProtocol(s1, TickEmit);
    assert acts[1..] == [TickEmit] && acts[1..][1..] == [];
    assert Runnable(s1, [TickEmit]) && Exec(s1, [TickEmit]) == Do(s1, TickEmit);
  }

  lemma DrainedTickEmits(s: Sys)
    requires Protocol(s) && s.pc.Drained? && !s.pc.paused && !Silent(s.pc.block)
    ensures Runnable(s, [TickUpdate, TickResume, TickEmit])
    ensures Exec(s, [TickUpdate, TickResume, TickEmit]).wire != s.wire
  {
    var acts := [TickUpdate, TickResume, TickEmit];
    StepKeepsProtocol(s, TickUpdate);
    var s1 := Do(s, TickUpdate);
    assert s1.pc.Resuming? && s1.wire == s.wire;
    ResumingTickEmits(s1);
    assert acts[1..] == [TickResume, TickEmit];
  }

  lemma SampledTickEmits(s: Sys)
    requires Protocol(s) && s.pc.Sampled? && !s.pc.paused && !s.shutting
    ensures Runnable(s, Finish(s.pc))
    ensures Exec(s, Finish(s.pc)).wire != s.wire
  {
    var acts := Finish(s.pc);
    StepKeepsProtocol(s, Push(Loud()));
    var s1 := Do(s, Push(Loud()));
    LoudPush(s.dev.queue);
    StepKeepsProtocol(s1, TickDrain);
    var s2 := Do(s1, TickDrain);
    assert s2.pc.block[0] == 0x8001;
    DrainedTickEmits(s2);
    assert acts[1..] == [TickDrain, TickUpdate, TickResume, TickEmit];
    assert acts[1..][1..] == [TickUpdate, TickResume, TickEmit];
  }

  /**
   * The early return of a repeated Pause is sound exactly when no tick is under way
   * that could still put a packet on the wire.  The source takes the flag it reads there to be stable while
   * paused; a tick that sampled the flags before the first Pause can still clear it.
   */
  lemma EarlyReturnIsQuietIffMute(s: Sys)
    requires Protocol(s) && s.ctl.Free? && s.initialized && NothingToRedo(s)
    ensures (forall acts :: Runnable(s, acts) && StaysDown(acts) ==> Exec(s, acts).wire == s.wire) <==> Mute(s.pc)
  {
    hide Do, Enabled;
    if Mute(s.pc) {
      forall acts | Runnable(s, acts) && StaysDown(acts) ensures Exec(s, acts).wire == s.wire {
        QuietRun(s, acts);
      }
    } else {
      var acts := Finish(s.pc);
      if s.pc.Sampled? {
        SampledTickEmits(s);
      } else if s.pc.Drained? {
        DrainedTickEmits(s);
      } else {
        ResumingTickEmits(s);
      }
      assert Runnable(s, acts) && StaysDown(acts) && Exec(s, acts).wire != s.wire;
    }
  }

  // ------------------------------------------------------------ audio

  /**
   * Over every session: what left the ring is the blocks in order plus the one in
   * flight; what the stream packets declare new, concatenated, is the un-paused,
   * non-silent blocks in order, save that a block whose window was cleared under it
   * is heard as centre; and each stream packet declares one to twelve new slots.
   */
  lemma StreamPacketsReplayTheDrainedBlocks(s: Sys)
    requires Reachable(s)
    ensures s.drained == Samples(s.blocks) + InFlight(s.pc)
    ensures Heard(s.wire) == Said(s.blocks)
    ensures forall i :: 0 <= i < |s.blocks| ==> FateFits(s.blocks[i])
    ensures |s.blocks| <= |s.sampled| && forall i :: 0 <= i < |s.blocks| ==> (s.blocks[i].fate.Muted? <==> s.sampled[i])
    ensures s.dev.window == LastN(s.history, WINDOW)
    ensures forall i :: 0 <= i < |s.wire| && s.wire[i].Stream? ==> 1 <= s.wire[i].count <= 12
  {
    ReachableIsSound(s);
    forall i | 0 <= i < |s.wire| && s.wire[i].Stream? ensures 1 <= s.wire[i].count <= 12 {
      assert FitsAt(s.wire, i);
    }
  }

  /**
   * In every session every stream packet commands the newest sample it carries, and a
   * packet about to go out for a block that no clear has wiped commands the block's last.
   */
  lemma StreamPacketsCommandTheirNewestSample(s: Sys)
    requires Reachable(s)
    ensures forall i :: 0 <= i < |s.wire| && s.wire[i].Stream? ==>
              |s.wire[i].window| == WINDOW && s.wire[i].current == s.wire[i].window[12]
    ensures s.pc.Emitting? ==>
              |s.pc.block| > 0 && s.dev.current == if s.pc.wiped then 0x8000 else s.pc.block[|s.pc.block| - 1]
  {
    ReachableIsSound(s);
    forall i | 0 <= i < |s.wire| && s.wire[i].Stream?
      ensures |s.wire[i].window| == WINDOW && s.wire[i].current == s.wire[i].window[12]
    {
      assert FitsAt(s.wire, i) && ForceIsNewest(s.wire[i]);
    }
  }

  /** A stream packet's new slots are the drained block exactly when no clear hit the window in between. */
  lemma PacketCarriesItsBlockIffNotWiped(s: Sys)
    requires Reachable(s) && s.pc.Emitting?
    ensures var p := Stream(s.dev.seqNo, s.dev.current, s.dev.window, |s.pc.block|);
            p.Valid() && (p.Fresh() == s.pc.block <==> !s.pc.wiped)
  {
    ReachableIsSound(s);
    FreshIffNotWiped(s.dev.window, s.pc.block, s.pc.wiped);
  }

  lemma FreshIffNotWiped(window: seq<Word16>, block: seq<Word16>, wiped: bool)
    requires |window| == WINDOW && 1 <= |block| <= CATCHUP_MAX && !Silent(block)
    requires if wiped then window == CENTRED else window[WINDOW - |block|..] == block
    ensures LastN(window, |block|) == block <==> !wiped
  {
    var newest := LastN(window, |block|);
    assert newest == window[WINDOW - |block|..];
    if wiped {
      assert Silent(window) && Silent(newest);
    }
  }

  // ------------------------------------------------------------ ticks, uninterrupted

  lemma ExecOne(s: Sys, a: Action, rest: seq<Action>)
    requires Protocol(s) && Enabled(s, a) && Runnable(Step(s, a), rest)
    ensures Runnable(s, [a] + rest) && Exec(s, [a] + rest) == Exec(Step(s, a), rest)
  {
    assert ([a] + rest)[1..] == rest;
  }

  lemma TwoMore(s: Sys, a: Action, b: Action)
    requires Protocol(s) && Enabled(s, a) && Enabled(Step(s, a), b)
    ensures Runnable(s, [a, b]) && Exec(s, [a, b]) == Step(Step(s, a), b)
  {
    var s1 := Step(s, a);
    assert Runnable(Step(s1, b), []);
    ExecOne(s1, b, []);
    assert [b] + [] == [b] && [a] + [b] == [a, b];
    ExecOne(s, a, [b]);
  }

  lemma GateEnds(s: Sys)
    requires Protocol(s) && s.pc.Gating?
    ensures Runnable(s, [TickGate, TickArm])
    ensures var s' := Exec(s, [TickGate, TickArm]);
            s'.pc.Ready? && s'.dev == StopPair(s.dev).0 && s'.wire == s.wire + StopPair(s.dev).1
  {
    TwoMore(s, TickGate, TickArm);
  }

  lemma ResumeEnds(s: Sys)
    requires Protocol(s) && s.pc.Resuming?
    ensures Runnable(s, [TickResume, TickEmit])
    ensures var s' := Exec(s, [TickResume, TickEmit]);
            && s'.pc.Ready? && s'.dev == s.dev.Bump().(armed := false)
            && s'.wire == s.wire + [Stream(s.dev.seqNo, s.dev.current, s.dev.window, |s.pc.block|)]
  {
    TwoMore(s, TickResume, TickEmit);
  }

  /** What is left of a tick after its update. */
  function Rest(v: Verdict): (acts: seq<Action>) {
    if v.Gate? then [TickGate, TickArm] else if v.Resume? then [TickResume, TickEmit] else []
  }

  /** From the drain on: what is left of the tick does what Respond says. */
  lemma UpdatedTickEnds(s: Sys, a: Dev, v: Verdict)
    requires Protocol(s) && s.pc.Drained? && a == Absorb(s.dev, s.pc.block)
    requires v == Decide(a, s.pc.block, s.pc.paused, s.pc.armed)
    ensures Enabled(s, TickUpdate) && Runnable(Step(s, TickUpdate), Rest(v))
    ensures var r := Respond(a, s.pc.block, s.pc.paused, s.pc.armed);
            var s' := Exec(Step(s, TickUpdate), Rest(v));
            s'.pc.Ready? && s'.dev == r.0 && s'.wire == s.wire + r.1
  {
    var s1 := Step(s, TickUpdate);
    assert s1 == Settle(s, a, v);
    if v.Gate? {
      GateEnds(s1);
    } else if v.Resume? {
      ResumeEnds(s1);
    }
  }

  lemma PairTickEnds(s: Sys, expiries: nat)
    requires Protocol(s) && s.pc.Ready? && s.dev.pending
    ensures var acts := if s.dev.armed then [TickBegin(expiries)] else [TickBegin(expiries), TickArm];
            && Runnable(s, acts) && Exec(s, acts).pc.Ready?
            && Exec(s, acts).dev == StopPair(s.dev).0.(pending := false)
            && Exec(s, acts).wire == s.wire + StopPair(s.dev).1
  {
    if s.dev.armed {
      assert Runnable(Step(s, TickBegin(expiries)), []);
      ExecOne(s, TickBegin(expiries), []);
      assert [TickBegin(expiries)] + [] == [TickBegin(expiries)];
    } else {
      TwoMore(s, TickBegin(expiries), TickArm);
    }
  }

  /** The actions of one tick when nothing interrupts it. */
  function TickActions(d: Dev, expiries: nat): (acts: seq<Action>)
    requires d.Valid()
  {
    if d.pending then if d.armed then [TickBegin(expiries)] else [TickBegin(expiries), TickArm]
    else
      var block := Taken(d, Want(expiries));
      var a := Absorb(d.(queue := d.queue[|block|..]), block);
      [TickBegin(expiries)] + ([TickDrain] + ([TickUpdate] + Rest(Decide(a, block, d.paused, d.armed))))
  }

  /** Without interruption the actions of a tick add up to the one-call tick. */
  lemma UninterruptedTickIsTick(s: Sys, expiries: nat)
    requires Protocol(s) && s.pc.Ready?
    ensures var acts := TickActions(s.dev, expiries);
            && Runnable(s, acts)
            && Exec(s, acts).pc.Ready?
            && Exec(s, acts).dev == Tick(s.dev, expiries).0
            && Exec(s, acts).wire == s.wire + Tick(s.dev, expiries).1
  {
    if s.dev.pending {
      PairTickEnds(s, expiries);
    } else {
      var s1 := Step(s, TickBegin(expiries));
      var s2 := Step(s1, TickDrain);
      var a := Absorb(s2.dev, s2.pc.block);
      var v := Decide(a, s2.pc.block, s2.pc.paused, s2.pc.armed);
      UpdatedTickEnds(s2, a, v);
      ExecOne(s2, TickUpdate, Rest(v));
      ExecOne(s1, TickDrain, [TickUpdate] + Rest(v));
      ExecOne(s, TickBegin(expiries), [TickDrain] + ([TickUpdate] + Rest(v)));
    }
  }

  lemma {:induction false} ExecConcat(s: Sys, a: seq<Action>, b: seq<Action>)
    requires Protocol(s) && Runnable(s, a) && Runnable(Exec(s, a), b)
    ensures Runnable(s, a + b) && Exec(s, a + b) == Exec(Exec(s, a), b)
    decreases |a|
  {
    hide Do, Enabled, Protocol;
    if a == [] {
      assert a + b == b;
    } else {
      var s1 := Step(s, a[0]);
      assert Exec(s, a) == Exec(s1, a[1..]);
      ExecConcat(s1, a[1..], b);
      ExecOne(s, a[0], a[1..] + b);
      assert [a[0]] + (a[1..] + b) == a + b;
    }
  }

  // ------------------------------------------------------------ what the calls leave behind

  /** A session comes up un-paused, out of standby, at the first sequence byte; one that is up stays as it is. */
  lemma EnsureLeaves(s: Sys)
    requires Protocol(s) && Enabled(s, Ensure)
    ensures var s' := Do(s, Ensure);
            if s.initialized then s' == s
            else
              && s'.initialized && !s'.dev.paused && !s'.dev.armed && s'.dev.idleTicks == 0 && s'.dev.seqNo == 69
              && s'.dev.queue == s.dev.queue && s'.dev.window == s.dev.window && s'.dev.current == s.dev.current
  {
  }

  /** A stream starts centred, with nothing owed and nothing requested, on a ring left as it was. */
  lemma StartLeaves(s: Sys)
    requires Protocol(s) && Enabled(s, StartStream)
    ensures var s' := Do(s, StartStream);
            if s.running then s' == s
            else
              && s'.running && s'.pc.Ready? && s'.dev.current == 0x8000 && s'.dev.idleTicks == 0
              && s'.dev.starvedTicks == 0 && !s'.dev.pending && |s'.dev.window| == 13
              && (forall i :: 0 <= i < 13 ==> s'.dev.window[i] == 0x8000)
              && s'.dev.seqNo == (if s.dev.seqNo == 0 then 69 else s.dev.seqNo)
              && s'.dev.queue == s.dev.queue && s'.dev.paused == s.dev.paused && s'.dev.armed == s.dev.armed
  {
  }

  /** A clear with nothing in between empties the ring and centres window and force; nothing else changes. */
  lemma ClearLeaves(s: Sys)
    requires Protocol(s) && Enabled(s, ClearRing)
    ensures Runnable(s, [ClearRing, ClearWindow])
    ensures var s' := Exec(s, [ClearRing, ClearWindow]);
            && s'.ctl.Free? && s'.wire == s.wire
            && s'.dev == s.dev.(queue := [], window := CENTRED, current := 0x8000)
  {
    TwoMore(s, ClearRing, ClearWindow);
  }

  /** Samples are taken while the stream runs and no stop has told it to shut down; at any other time nothing is. */
  lemma PushLeaves(s: Sys, samples: seq<Int16>)
    requires Protocol(s)
    ensures var s' := Do(s, Push(samples));
            if s.running && !s.ctl.Joining? && !s.ctl.StopGap? then
              s' == s.(dev := s.dev.(queue := R.PushQueue(s.dev.queue, samples)))
            else s' == s
  {
  }

  /** Resume takes the pause flag down and does nothing else. */
  lemma ResumeLeaves(s: Sys)
    requires Protocol(s) && Enabled(s, ResumeCall)
    ensures Do(s, ResumeCall) == s.(dev := s.dev.(paused := false))
  {
  }

  /** A pause that is serviced at once: paused, in standby, one pair unless standby it was. */
  lemma PauseLeaves(s: Sys, expiries: nat) returns (acts: seq<Action>)
    requires Protocol(s) && s.ctl.Free? && s.initialized && s.pc.Ready? && !s.dev.paused
    ensures Runnable(s, acts)
    ensures var s' := Exec(s, acts);
            && s'.ctl.Free? && s'.pc.Ready? && s'.dev.paused && s'.dev.armed && !s'.dev.pending
            && s'.wire == s.wire + StopPair(s.dev).1
            && s'.dev.queue == s.dev.queue && s'.dev.window == s.dev.window && s'.dev.current == s.dev.current
  {
    hide Do, Protocol;
    assert Do(s, PauseCall).pc.Ready? && Do(s, PauseCall).ctl.PauseWait? && Do(s, PauseCall).wire == s.wire
           && Do(s, PauseCall).dev == s.dev.(paused := true, pending := true) by { PauseAsks(s); }
    var s1 := Step(s, PauseCall);
    PairTickEnds(s1, expiries);
    var tick := if s1.dev.armed then [TickBegin(expiries)] else [TickBegin(expiries), TickArm];
    TickKeepsControl(s1, expiries, tick);
    var s2 := Exec(s1, tick);
    ReturnLeaves(s2);
    assert Runnable(s2, [PauseReturn]) && Exec(s2, [PauseReturn]) == Step(s2, PauseReturn) by {
      assert [PauseReturn][1..] == [];
    }
    ExecConcat(s1, tick, [PauseReturn]);
    ExecOne(s, PauseCall, tick + [PauseReturn]);
    acts := [PauseCall] + (tick + [PauseReturn]);
  }

  /** A session brought up and its stream started: live, un-paused, centred, byte 69 next, on the ring as it was. */
  lemma SessionStartsFresh(s: Sys)
    requires Protocol(s) && !s.ctl.IsClosing() && !s.initialized
    ensures Runnable(s, [Ensure, StartStream])
    ensures var s' := Exec(s, [Ensure, StartStream]);
            && s'.initialized && s'.running && s'.pc.Ready? && s'.wire == []
            && s'.dev == Dev(CENTRED, 0x8000, 0, 0, 69, s.dev.queue, false, false, false)
  {
    EnsureLeaves(s);
    var s1 := Step(s, Ensure);
    assert !s1.running && !s1.ctl.IsClosing();
    StartLeaves(s1);
    TwoMore(s, Ensure, StartStream);
  }

  /** Paused for a moment and resumed: nothing is lost but the standby flag, and nothing is written but one pair. */
  lemma PauseAndResumeKeepTheStream(s: Sys, expiries: nat) returns (acts: seq<Action>)
    requires Protocol(s) && s.ctl.Free? && s.initialized && s.pc.Ready? && !s.dev.paused
    ensures Runnable(s, acts)
    ensures var s' := Exec(s, acts);
            && s'.ctl.Free? && s'.pc.Ready? && !s'.dev.paused && s'.dev.armed && !s'.dev.pending
            && s'.wire == s.wire + StopPair(s.dev).1
            && s'.dev.queue == s.dev.queue && s'.dev.window == s.dev.window && s'.dev.current == s.dev.current
  {
    hide Do, Protocol;
    var pause := PauseLeaves(s, expiries);
    var s1 := Exec(s, pause);
    ResumeLeaves(s1) by { assert Enabled(s1, ResumeCall); }
    assert Runnable(s1, [ResumeCall]) && Exec(s1, [ResumeCall]) == Step(s1, ResumeCall) by {
      assert [ResumeCall][1..] == [];
    }
    ExecConcat(s, pause, [ResumeCall]);
    acts := pause + [ResumeCall];
  }

  lemma PauseAsks(s: Sys)
    requires Protocol(s) && s.ctl.Free? && s.initialized && !s.dev.paused
    ensures var s' := Do(s, PauseCall);
            && s'.pc == s.pc && s'.ctl.PauseWait? && s'.wire == s.wire
            && s'.dev == s.dev.(paused := true, pending := true)
  {
  }

  lemma TickKeepsControl(s: Sys, expiries: nat, acts: seq<Action>)
    requires Protocol(s) && s.pc.Ready? && s.dev.pending
    requires acts == if s.dev.armed then [TickBegin(expiries)] else [TickBegin(expiries), TickArm]
    ensures Runnable(s, acts) && Exec(s, acts).ctl == s.ctl
  {
    PairTickEnds(s, expiries);
    if s.dev.armed {
      assert Runnable(Step(s, TickBegin(expiries)), []);
      ExecOne(s, TickBegin(expiries), []);
      assert [TickBegin(expiries)] + [] == acts;
    } else {
      TwoMore(s, TickBegin(expiries), TickArm);
    }
  }

  lemma ReturnLeaves(s: Sys)
    requires Protocol(s) && s.ctl.PauseWait? && !s.dev.pending
    ensures Enabled(s, PauseReturn) && Do(s, PauseReturn) == s.(ctl := Free)
  {
  }

  // ------------------------------------------------------------ two races, exhibited

  lemma ReachStep(s: Sys, a: Action)
    requires Reachable(s) && Protocol(s) && Enabled(s, a)
    ensures Reachable(Step(s, a))
  {
    hide Do, Enabled, Protocol;
    var s0, acts :| s0 == INIT && Protocol(s0) && Runnable(s0, acts) && Exec(s0, acts) == s;
    assert [a][1..] == [] && Runnable(s, [a]) && Exec(s, [a]) == Step(s, a);
    ExecConcat(s0, acts, [a]);
    assert Runnable(s0, acts + [a]) && Exec(s0, acts + [a]) == Step(s, a);
  }

  lemma ReachInit(s: Sys)
    requires s == INIT
    ensures Reachable(s) && Protocol(s)
  {
    InitIsSound(s);
    assert Runnable(s, []) && Exec(s, []) == s;
  }

  lemma ReachStreaming() returns (s: Sys)
    ensures Reachable(s) && Protocol(s) && s.pc.Ready? && s.ctl.Free? && s.running && !s.shutting && s.initialized
    ensures !s.dev.paused && !s.dev.pending && !s.dev.armed && s.dev.queue == []
    ensures s.dev.seqNo == FIRST_SEQ && s.dev.current == CENTRE && s.dev.idleTicks == 0
  {
    var s0 := INIT;
    ReachInit(s0);
    ReachStep(s0, Ensure);
    var s1 := Step(s0, Ensure);
    ReachStep(s1, StartStream);
    s := Step(s1, StartStream);
  }

  lemma ReachPaused() returns (s: Sys)
    ensures Reachable(s) && Protocol(s) && s.pc.Ready? && s.ctl.PauseWait? && s.initialized
    ensures !s.dev.pending && s.dev.armed
  {
    hide Protocol, Reachable;
    var s1 := ReachStreaming();
    ReachStep(s1, PauseCall);
    var s2 := Step(s1, PauseCall);
    ReachStep(s2, TickBegin(1));
    var s3 := Step(s2, TickBegin(1));
    ReachStep(s3, TickArm);
    s := Step(s3, TickArm);
  }

  /** Paused and resumed once: standby, with the stream thread between ticks. */
  lemma ReachStandby() returns (s: Sys)
    ensures Reachable(s) && Protocol(s) && s.pc.Ready? && s.ctl.Free? && s.initialized
    ensures !s.dev.paused && !s.dev.pending && s.dev.armed
  {
    hide Protocol, Reachable;
    var s1 := ReachPaused();
    ReachStep(s1, PauseReturn);
    var s2 := Step(s1, PauseReturn);
    ReachStep(s2, ResumeCall);
    s := Step(s2, ResumeCall);
  }

  /** A Pause that timed out over a stalled tick can be followed by one that returns early and is not quiet. */
  lemma EarlyReturnCanBeLoud() returns (s: Sys)
    ensures Reachable(s) && Protocol(s) && s.ctl.Free? && s.initialized && NothingToRedo(s)
    ensures exists acts :: Runnable(s, acts) && StaysDown(acts) && Exec(s, acts).wire != s.wire
  {
    hide Protocol, Reachable;
    var s1 := ReachStandby();
    ReachStep(s1, TickBegin(1));
    var s2 := Step(s1, TickBegin(1));
    ReachStep(s2, PauseCall);
    var s3 := Step(s2, PauseCall);
    ReachStep(s3, PauseTimeout);
    s := Step(s3, PauseTimeout);
    EarlyReturnIsQuietIffMute(s);
  }

  lemma LoudPush(q: seq<Word16>)
    ensures |R.PushQueue(q, Loud())| == 512 && R.PushQueue(q, Loud())[0] == 0x8001
  {
    var all := q + R.WireOf(Loud());
    assert R.PushQueue(q, Loud()) == all[|all| - 512..];
  }

  lemma ReachDrained() returns (s: Sys)
    ensures Reachable(s) && Protocol(s) && s.ctl.Free? && s.pc.Drained? && !s.pc.paused && !Silent(s.pc.block)
  {
    hide R.PushQueue, Protocol, Reachable;
    var s1 := ReachStreaming();
    LoudPush(s1.dev.queue);
    ReachStep(s1, Push(Loud()));
    var s2 := Step(s1, Push(Loud()));
    ReachStep(s2, TickBegin(1));
    var s3 := Step(s2, TickBegin(1));
    ReachStep(s3, TickDrain);
    s := Step(s3, TickDrain);
    assert s.pc.block[0] == 0x8001;
  }

  lemma ReachResuming() returns (s: Sys)
    ensures Reachable(s) && Protocol(s) && s.ctl.Free? && s.pc.Resuming?
  {
    hide Protocol, Reachable;
    var s1 := ReachDrained();
    ReachStep(s1, TickUpdate);
    s := Step(s1, TickUpdate);
  }

  /** A clear can land between the window update and the packet, which then announces centre as new. */
  lemma ClearCanWipeAPacket() returns (s: Sys)
    ensures Reachable(s) && s.pc.Emitting? && s.pc.wiped
  {
    hide Protocol, Reachable;
    var s1 := ReachResuming();
    ReachStep(s1, ClearRing);
    var s2 := Step(s1, ClearRing);
    ReachStep(s2, ClearWindow);
    var s3 := Step(s2, ClearWindow);
    ReachStep(s3, TickResume);
    s := Step(s3, TickResume);
  }
}
