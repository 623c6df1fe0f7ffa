/**
 * Starvation of a TrueForce session, over every run of the stream thread, and the
 * sequence counter's jump at a restart.
 */
module TfStarved {
  import opened Words
  import opened TfPackets
  import opened TfTick
  import opened TfSession
  import opened TfRuns
  import R = SampleRing

  // ------------------------------------------------------------ any schedule

  /** What may happen while nobody plays, pauses, clears or stops anything. */
  predicate Idles(a: Action) {
    || a.TickBegin? || a.TickDrain? || a.TickUpdate? || a.TickResume? || a.TickEmit? || a.TickGate? || a.TickArm?
    || a.Ensure? || a.StartStream? || a == Push([])
  }

  function Begun(acts: seq<Action>): (k: nat) {
    if acts == [] then 0 else (if acts[0].TickBegin? then 1 else 0) + Begun(acts[1..])
  }

  /** The gate's share of a starved tick, before the pair. */
  function Gated(d: Dev): (d': Dev)
    requires d.Valid()
  {
    Absorb(d, []).(idleTicks := 0)
  }

  predicate GateTrips(d: Dev)
    requires d.Valid()
  {
    !d.armed && Decide(Absorb(d, []), [], false, false).Gate?
  }

  /** Inside a starved tick that began with device d and wire w. */
  predicate MidTick(d: Dev, w: seq<Packet>, pc: ThreadPc, dev: Dev, wire: seq<Packet>)
    requires d.Valid()
  {
    match pc
    case Sampled(paused, armed, _) => !paused && armed == d.armed && dev == d && wire == w
    case Drained(paused, armed, block) => !paused && armed == d.armed && block == [] && dev == d && wire == w
    case Gating => GateTrips(d) && dev == Gated(d) && wire == w
    case Gap(serving) =>
      !serving && GateTrips(d) && dev == Gated(d).Bump() && wire == w + [Ctrl(STOP_CLEAR, d.seqNo)]
    case _ => false
  }

  /** A starved tick that began with d and w is under way, or over. */
  predicate InTick(d: Dev, w: seq<Packet>, s: Sys)
    requires d.Valid()
  {
    if s.pc.Ready? then s.dev == Tick(d, 1).0 && s.wire == w + Tick(d, 1).1
    else MidTick(d, w, s.pc, s.dev, s.wire)
  }

  lemma StarvedTickIs(d: Dev)
    requires Starving(d)
    ensures Tick(d, 1) == Respond(Absorb(d, []), [], false, d.armed)
    ensures Starving(Tick(d, 1).0)
  {
    assert Taken(d, Want(1)) == [] && d.queue[0..] == [];
    assert d.(queue := []) == d;
  }

  lemma GatedTick(d: Dev)
    requires Starving(d) && GateTrips(d)
    ensures Tick(d, 1).0 == Gated(d).Bump().Bump().(armed := true)
    ensures Tick(d, 1).1 == [Ctrl(STOP_CLEAR, d.seqNo), Ctrl(ARM, d.Bump().seqNo)]
  {
    StarvedTickIs(d);
    hide Tick;
  }

  lemma BeginStarves(s: Sys, expiries: nat)
    requires Protocol(s) && Enabled(s, TickBegin(expiries)) && Starving(s.dev)
    ensures InTick(s.dev, s.wire, Do(s, TickBegin(expiries)))
  {
    hide Protocol, Tick, Absorb;
  }

  lemma DrainStarves(d: Dev, w: seq<Packet>, s: Sys)
    requires Protocol(s) && Enabled(s, TickDrain) && Starving(d) && InTick(d, w, s)
    ensures InTick(d, w, Do(s, TickDrain))
  {
    hide Protocol, Tick, Absorb;
    assert Taken(d, s.pc.want) == [] && d.queue[0..] == [];
    assert d.(queue := []) == d;
  }

  lemma UpdateStarves(d: Dev, w: seq<Packet>, s: Sys)
    requires Protocol(s) && Enabled(s, TickUpdate) && Starving(d) && InTick(d, w, s)
    ensures InTick(d, w, Do(s, TickUpdate))
  {
    UpdateIsSettle(s);
    StarvedTickIs(d);
    hide Protocol, Do, Tick, Absorb;
    SettledStarves(d, w, s, Absorb(d, []), Decide(Absorb(d, []), [], false, d.armed));
  }

  lemma SettledStarves(d: Dev, w: seq<Packet>, s: Sys, a: Dev, v: Verdict)
    requires s.pc.Drained? && d.Valid() && MidTick(d, w, s.pc, s.dev, s.wire)
    requires a == Absorb(d, []) && v == Decide(a, [], false, d.armed)
    requires Tick(d, 1) == Respond(a, [], false, d.armed)
    ensures InTick(d, w, Settle(s, a, v))
  {
    hide Tick, Absorb;
  }

  lemma GateStarves(d: Dev, w: seq<Packet>, s: Sys)
    requires Protocol(s) && Enabled(s, TickGate) && Starving(d) && InTick(d, w, s)
    ensures InTick(d, w, Do(s, TickGate))
  {
    hide Protocol, Tick, Absorb, Decide;
    assert Gated(d).armed == d.armed && Gated(d).seqNo == d.seqNo by { GatedKeeps(d); }
  }

  lemma GatedKeeps(d: Dev)
    requires d.Valid()
    ensures Gated(d).armed == d.armed && Gated(d).seqNo == d.seqNo
  {
  }

  lemma ArmStarves(d: Dev, w: seq<Packet>, s: Sys)
    requires Protocol(s) && Enabled(s, TickArm) && Starving(d) && InTick(d, w, s)
    ensures InTick(d, w, Do(s, TickArm))
  {
    GatedTick(d);
    hide Protocol, Tick, Absorb;
    assert Do(s, TickArm).wire == w + [Ctrl(STOP_CLEAR, d.seqNo), Ctrl(ARM, d.Bump().seqNo)];
  }

  /** Starting what runs and pushing nothing change nothing. */
  lemma NoOpProducer(s: Sys, a: Action)
    requires Protocol(s) && Enabled(s, a) && (a.Ensure? || a.StartStream? || a == Push([]))
    requires s.running && s.dev.queue == []
    ensures Do(s, a) == s
  {
    assert R.PushQueue([], []) == [];
    assert s.dev.(queue := []) == s.dev;
  }

  lemma MidTickIsOpen(d: Dev, w: seq<Packet>, s: Sys)
    requires Starving(d) && InTick(d, w, s)
    ensures s.pc.Ready? || s.pc.Sampled? || s.pc.Drained? || s.pc.Gating? || s.pc.Gap?
    ensures s.dev.queue == []
  {
    StarvedTickIs(d);
    hide Tick;
  }

  lemma StepInTick(d: Dev, w: seq<Packet>, s: Sys, a: Action)
    requires Protocol(s) && Enabled(s, a) && Idles(a) && !a.TickBegin? && Starving(d) && InTick(d, w, s)
    ensures InTick(d, w, Do(s, a))
  {
    MidTickIsOpen(d, w, s);
    assert s.running;
    hide Do, Protocol, InTick, Starving;
    if a.TickDrain? {
      DrainStarves(d, w, s);
    } else if a.TickUpdate? {
      UpdateStarves(d, w, s);
    } else if a.TickGate? {
      GateStarves(d, w, s);
    } else if a.TickArm? {
      ArmStarves(d, w, s);
    } else if a.Ensure? || a.StartStream? || a.Push? {
      NoOpProducer(s, a);
    }
  }

  /** With k ticks begun since s0, the session is where k whole ticks put it, or inside the k-th. */
  ghost predicate Starved(s0: Sys, s: Sys, k: nat)
    requires s0.dev.Valid()
  {
    if k == 0 then s.pc.Ready? && s.dev == s0.dev && s.wire == s0.wire
    else InTick(Starve(s0.dev, k - 1).0, s0.wire + Starve(s0.dev, k - 1).1, s)
  }

  lemma StarvedWhole(s0: Sys, s: Sys, k: nat)
    requires s0.dev.Valid() && Starved(s0, s, k) && s.pc.Ready?
    ensures s.dev == Starve(s0.dev, k).0 && s.wire == s0.wire + Starve(s0.dev, k).1
  {
    hide Tick;
    if k > 0 {
      var (d, out) := Starve(s0.dev, k - 1);
      assert s0.wire + out + Tick(d, 1).1 == s0.wire + (out + Tick(d, 1).1);
    }
  }

  lemma {:induction false} StarveKeepsStarving(d: Dev, k: nat)
    requires Starving(d)
    ensures d.Valid() && Starving(Starve(d, k).0)
  {
    assert d.Valid();
    hide Tick;
    if k > 0 {
      StarveKeepsStarving(d, k - 1);
      StarvedTickIs(Starve(d, k - 1).0);
    }
  }

  lemma TickBegins(s0: Sys, s: Sys, k: nat, expiries: nat)
    requires Protocol(s) && Enabled(s, TickBegin(expiries)) && Starving(s0.dev) && s0.dev.Valid() && Starved(s0, s, k)
    ensures Starved(s0, Do(s, TickBegin(expiries)), k + 1)
  {
    hide Do, Protocol, InTick, Starving;
    StarveKeepsStarving(s0.dev, k);
    StarvedWhole(s0, s, k);
    hide Starve;
    BeginStarves(s, expiries);
  }

  lemma TickGoesOn(s0: Sys, s: Sys, k: nat, a: Action)
    requires Protocol(s) && Enabled(s, a) && Idles(a) && !a.TickBegin?
    requires Starving(s0.dev) && s0.dev.Valid() && Starved(s0, s, k)
    ensures Starved(s0, Do(s, a), k)
  {
    hide Do, Protocol, Enabled, InTick, Starving, Idles;
    if k > 0 {
      StarveKeepsStarving(s0.dev, k - 1);
      hide Starve;
      StepInTick(Starve(s0.dev, k - 1).0, s0.wire + Starve(s0.dev, k - 1).1, s, a);
    } else {
      StarvingIsIdle(s0.dev);
      NotBegunGoesOn(s, a);
    }
  }

  lemma StarvingIsIdle(d: Dev)
    requires Starving(d)
    ensures d.queue == []
  {
  }

  lemma NotBegunGoesOn(s: Sys, a: Action)
    requires Protocol(s) && Enabled(s, a) && Idles(a) && !a.TickBegin? && s.pc.Ready? && s.dev.queue == []
    ensures Do(s, a) == s
  {
    assert s.running;
    hide Do, Protocol;
    NoOpProducer(s, a);
  }

  lemma {:induction false} RunStarves(s0: Sys, s: Sys, k: nat, acts: seq<Action>)
    requires Protocol(s) && Runnable(s, acts) && (forall i :: 0 <= i < |acts| ==> Idles(acts[i]))
    requires Starving(s0.dev) && s0.dev.Valid() && Starved(s0, s, k)
    ensures Starved(s0, Exec(s, acts), k + Begun(acts))
    decreases |acts|
  {
    hide Do, Protocol, Enabled, Starved, Starving, Idles;
    StarvingIsValid(s0.dev);
    if acts != [] {
      assert Idles(acts[0]);
      if acts[0].TickBegin? { TickBegins(s0, s, k, acts[0].expiries); } else { TickGoesOn(s0, s, k, acts[0]); }
      RunStarves(s0, Step(s, acts[0]), if acts[0].TickBegin? then k + 1 else k, acts[1..]);
    }
  }

  lemma StarvingIsValid(d: Dev)
    requires Starving(d)
    ensures d.Valid()
  {
  }

  lemma StarvedFromHere(s: Sys)
    requires s.dev.Valid() && s.pc.Ready?
    ensures Starved(s, s, 0)
  {
  }

  /** Between ticks exactly the k ticks begun; inside one, on the way from the last to the next. */
  ghost predicate ShowsTicks(s0: Sys, s: Sys, k: nat)
    requires s0.dev.Valid()
  {
    if s.pc.Ready? then s.dev == Starve(s0.dev, k).0 && s.wire == s0.wire + Starve(s0.dev, k).1
    else k > 0 && s0.wire + Starve(s0.dev, k - 1).1 <= s.wire <= s0.wire + Starve(s0.dev, k).1
  }

  lemma StarvedShowsTicks(s0: Sys, s: Sys, k: nat)
    requires Starving(s0.dev) && s0.dev.Valid() && Starved(s0, s, k)
    ensures ShowsTicks(s0, s, k)
  {
    hide Tick, InTick, Starving;
    if s.pc.Ready? {
      StarvedWhole(s0, s, k);
    } else {
      StarveKeepsStarving(s0.dev, k - 1);
      var (d, out) := Starve(s0.dev, k - 1);
      PrefixOfTick(d, s0.wire + out, s);
      assert s0.wire + out + Tick(d, 1).1 == s0.wire + (out + Tick(d, 1).1);
    }
  }

  lemma PrefixOfTick(d: Dev, w: seq<Packet>, s: Sys)
    requires Starving(d) && InTick(d, w, s)
    ensures w <= s.wire <= w + Tick(d, 1).1
  {
    if s.pc.Gap? { GatedTick(d); }
    hide Tick, Absorb;
  }

  /**
   * From any live state between ticks with an empty ring and nobody pausing, on every
   * schedule of the stream thread, with any number of expirations a tick and producers
   * that start what runs or push nothing: the wire holds what the ticks begun say, that
   * is keepalives, one pair no later than the 547th tick, and nothing more.
   */
  lemma StarvedSessionEndsInOnePair(s: Sys, acts: seq<Action>)
    requires Protocol(s) && s.pc.Ready? && Starving(s.dev) && !s.dev.armed
    requires Runnable(s, acts) && forall i :: 0 <= i < |acts| ==> Idles(acts[i])
    ensures s.dev.Valid() && TicksToPair(s.dev) <= 547
    ensures var k := Begun(acts);
            ShowsTicks(s, Exec(s, acts), k) && OnePair(s.dev, k, Starve(s.dev, k).0, Starve(s.dev, k).1)
  {
    hide Exec, Runnable, Protocol, OnePair, TicksToPair, Idles, Starved, Starving, ShowsTicks, Starve, Begun;
    StarvingIsValid(s.dev);
    StarvedFromHere(s);
    StarvationEndsInOnePair(s.dev, Begun(acts));
    RunStarves(s, s, 0, acts);
    StarvedShowsTicks(s, Exec(s, acts), Begun(acts));
  }

  // ------------------------------------------------------------ a schedule, and a counter brought to its end

  predicate AllIdle(acts: seq<Action>) {
    forall i :: 0 <= i < |acts| ==> Idles(acts[i])
  }

  lemma OneMoreTick(s: Sys, front: seq<Action>)
    requires Protocol(s) && Runnable(s, front) && Exec(s, front).pc.Ready? && AllIdle(front)
    ensures var s1 := Exec(s, front);
            var acts := front + TickActions(s1.dev, 1);
            && Runnable(s, acts) && Exec(s, acts).pc.Ready? && AllIdle(acts)
            && Exec(s, acts).dev == Tick(s1.dev, 1).0 && Exec(s, acts).wire == s1.wire + Tick(s1.dev, 1).1
  {
    var s1 := Exec(s, front);
    UninterruptedTickIsTick(s1, 1);
    ExecConcat(s, front, TickActions(s1.dev, 1));
    TickIsIdle(s1.dev);
  }

  lemma TickIsIdle(d: Dev)
    requires d.Valid()
    ensures AllIdle(TickActions(d, 1))
  {
  }

  /** k whole ticks in a row can always be had. */
  lemma {:induction false} StarvedTicks(s: Sys, k: nat) returns (acts: seq<Action>)
    requires Protocol(s) && s.pc.Ready?
    ensures Runnable(s, acts) && Exec(s, acts).pc.Ready? && AllIdle(acts)
    ensures Exec(s, acts).dev == Starve(s.dev, k).0 && Exec(s, acts).wire == s.wire + Starve(s.dev, k).1
  {
    hide Do, Enabled, Protocol, Tick, TickActions, Idles;
    if k == 0 {
      acts := [];
    } else {
      var front := StarvedTicks(s, k - 1);
      OneMoreTick(s, front);
      acts := front + TickActions(Exec(s, front).dev, 1);
    }
  }

  lemma IdleKeepsControl(s: Sys, a: Action)
    requires Protocol(s) && Enabled(s, a) && Idles(a)
    ensures Do(s, a).ctl == s.ctl && Do(s, a).shutting == s.shutting
  {
    if a.TickUpdate? {
      UpdateKeepsControl(s);
    } else {
      hide Protocol, DoUpdate, DoControl, Absorb, Decide, R.PushQueue, Taken;
    }
  }

  lemma UpdateKeepsControl(s: Sys)
    requires Protocol(s) && Enabled(s, TickUpdate)
    ensures Do(s, TickUpdate).ctl == s.ctl && Do(s, TickUpdate).shutting == s.shutting
  {
    UpdateIsSettle(s);
    hide Protocol, Do, Absorb, Decide;
  }

  lemma {:induction false} IdleRunKeepsControl(s: Sys, acts: seq<Action>)
    requires Protocol(s) && Runnable(s, acts) && AllIdle(acts)
    ensures Exec(s, acts).ctl == s.ctl && Exec(s, acts).shutting == s.shutting
    decreases |acts|
  {
    hide Do, Enabled, Protocol, Idles;
    if acts != [] {
      assert Idles(acts[0]);
      IdleKeepsControl(s, acts[0]);
      IdleRunKeepsControl(Step(s, acts[0]), acts[1..]);
    }
  }

  lemma ReachRun(s: Sys, acts: seq<Action>)
    requires Reachable(s) && Protocol(s) && Runnable(s, acts)
    ensures Reachable(Exec(s, acts))
  {
    hide Do, Enabled, Protocol;
    var s0, run :| s0 == INIT && Protocol(s0) && Runnable(s0, run) && Exec(s0, run) == s;
    ExecConcat(s0, run, acts);
  }

  /** Keepalives up to byte 253. */
  lemma ReachByte254() returns (s: Sys)
    ensures Reachable(s) && Protocol(s) && s.pc.Ready? && s.ctl.Free? && s.running && s.initialized
    ensures s.dev.seqNo == 254 && !s.dev.armed && !s.dev.paused && !s.dev.pending
  {
    var s0 := ReachStreaming();
    assert s0.dev.Valid() && Starving(s0.dev) && TicksToPair(s0.dev) == 500;
    hide Do, Enabled, Protocol, Reachable, Runnable, Exec, Starve, Tick, TicksToPair;
    var acts := StarvedTicks(s0, 185);
    IdleRunKeepsControl(s0, acts);
    ReachRun(s0, acts);
    s := Exec(s0, acts);
    StarvationEndsInOnePair(s0.dev, 185);
    ReadyRuns(s);
  }

  lemma ReadyRuns(s: Sys)
    requires Protocol(s) && s.pc.Ready?
    ensures s.running && s.initialized
  {
  }

  lemma ReachJoined() returns (s: Sys)
    ensures Reachable(s) && Protocol(s) && s.ctl == Joining(false) && s.pc.Dead? && s.initialized
    ensures s.dev.seqNo == 254 && !s.dev.armed && !s.dev.paused
  {
    hide Protocol, Reachable;
    var s1 := ReachByte254();
    ReachStep(s1, StopCall(false));
    var s2 := Step(s1, StopCall(false));
    ReachStep(s2, StopShut);
    var s3 := Step(s2, StopShut);
    ReachStep(s3, ThreadExit);
    s := Step(s3, ThreadExit);
  }

  /** A stop whose pair takes bytes 254 and 255. */
  lemma ReachByte255() returns (s: Sys)
    ensures Reachable(s) && Protocol(s) && s.ctl.Free? && !s.running && !s.shutting && s.initialized
    ensures !s.dev.paused && s.dev.seqNo == 0 && |s.wire| > 0 && s.wire[|s.wire| - 1].seqNo == 255
  {
    hide Protocol, Reachable;
    var s1 := ReachJoined();
    ReachStep(s1, StopLock);
    var s2 := Step(s1, StopLock);
    ReachStep(s2, StopArm);
    s := Step(s2, StopArm);
  }

  /** The stream started again, with something to play. */
  lemma ReachRestarted() returns (s: Sys)
    ensures Reachable(s) && Protocol(s) && s.pc.Drained? && !s.pc.paused && !Silent(s.pc.block)
    ensures s.dev.seqNo == FIRST_SEQ && |s.wire| > 0 && s.wire[|s.wire| - 1].seqNo == 255 && |s.wire| in s.starts
  {
    hide R.PushQueue, Protocol, Reachable;
    var s0 := ReachByte255();
    ReachStep(s0, StartStream);
    var s1 := Step(s0, StartStream);
    LoudPush(s1.dev.queue);
    ReachStep(s1, Push(Loud()));
    var s2 := Step(s1, Push(Loud()));
    ReachStep(s2, TickBegin(1));
    var s3 := Step(s2, TickBegin(1));
    ReachStep(s3, TickDrain);
    s := Step(s3, TickDrain);
    assert s.pc.block[0] == 0x8001;
  }

  /** A reachable wire on which byte 255 is followed by byte 69. */
  lemma RestartCanJump() returns (s: Sys, i: nat)
    ensures Reachable(s) && 0 < i < |s.wire| && i in s.starts
    ensures s.wire[i - 1].seqNo == 255 && s.wire[i].seqNo == FIRST_SEQ
  {
    hide Protocol, Reachable;
    var s1 := ReachRestarted();
    ReachStep(s1, TickUpdate);
    var s2 := Step(s1, TickUpdate);
    ReachStep(s2, TickResume);
    var s3 := Step(s2, TickResume);
    ReachStep(s3, TickEmit);
    s, i := Step(s3, TickEmit), |s1.wire|;
  }
}
