/**
 * Play values, gain and refusals of the sink, read off the log of operations
 * (userspace/logi-wheel/crates/logi-ffb/src/sink.rs).
 */
module FfPlays {
  import opened Words
  import opened PidReports
  import opened FfEffects
  import opened FfSink
  import opened FfMirror

  /** Reports that start or stop block b. */
  predicate Commands(op: EffectOp, b: Byte) {
    op == Control(StopAllEffects) || (op.Operation? && op.block == b)
  }

  /** The last start, stop or stop-all to find block b in the kernel, since it was put there. */
  function LastWord(log: seq<Entry>, b: Byte): (r: Option<EffectOp>)
    ensures r.Some? ==> Shown(log, b).Some?
    ensures r.Some? ==> Commands(r.value, b)
  {
    if log == [] then None
    else
      var before, op := log[..|log| - 1], log[|log| - 1].op;
      if Frees(op, b) then None
      else if Commands(op, b) && Shown(before, b).Some? then Some(op)
      else LastWord(before, b)
  }

  /** The device gain the log asks for: 257 kernel steps to one of the host's, full from the outset. */
  function GainOf(log: seq<Entry>): (gain: int) {
    if log == [] then 0xffff
    else
      var op := log[|log| - 1].op;
      if op.Gain? then 257 * op.value
      else if op == Control(EnableActuators) || op == Control(Reset) then 0xffff
      else if op == Control(DisableActuators) then 0
      else GainOf(log[..|log| - 1])
  }

  /** How often the kernel should repeat an effect after its last word. */
  function Repeats(word: Option<EffectOp>): (n: int) {
    match word
    case Some(Operation(_, starts, count)) => if starts then (if count == 0 then 1 else count) else 0
    case _ => 0
  }

  ghost predicate PlaysBlock(s: State, log: seq<Entry>, b: Byte) {
    b in s.effects ==> ValueOf(s, b) == Some(Repeats(LastWord(log, b)))
  }

  /** What the kernel last had written to block b's effect, if it has one. */
  function ValueOf(s: State, b: Byte): (v: Option<int>) {
    if b in s.effects && s.effects[b] in s.kernel.plays then Some(s.kernel.plays[s.effects[b]]) else None
  }

  lemma SettingLeavesPlays(s: State, op: EffectOp, a: Answer, b: Byte)
    requires Bound(s) && Fits(s, a) && Sets(op)
    ensures var t := Applied(s, op, a).0;
            && (b in s.effects ==> b in t.effects && ValueOf(t, b) == ValueOf(s, b))
            && (b !in s.effects && b in t.effects ==> ValueOf(t, b) == Some(0))
  {
    hide ToFf, Folded;
    assert b in s.effects ==> s.effects[b] in s.effects.Values;
  }

  lemma ControlOnPlays(s: State, c: DeviceControl, b: Byte)
    requires Bound(s)
    ensures var t := Controlled(s, c);
            if c.Reset? then b !in t.effects
            else t.effects == s.effects &&
                 ValueOf(t, b) == if c.StopAllEffects? && b in s.effects then Some(0) else ValueOf(s, b)
  {
    assert b in s.effects ==> s.effects[b] in s.effects.Values;
  }

  lemma SetKeepsPlays(s: State, log: seq<Entry>, e: Entry, b: Byte)
    requires Bound(s) && (b in s.effects <==> Shown(log, b).Some?) && PlaysBlock(s, log, b)
    requires Fits(s, e.answer) && Sets(e.op)
    ensures PlaysBlock(Applied(s, e.op, e.answer).0, log + [e], b)
  {
    hide Bound, Applied, Fits, LastWord, Shown;
    LastWordStep(log, e, b);
    SettingLeavesPlays(s, e.op, e.answer, b);
  }

  lemma OperateKeepsPlays(s: State, log: seq<Entry>, e: Entry, b: Byte)
    requires Bound(s) && (b in s.effects <==> Shown(log, b).Some?) && PlaysBlock(s, log, b) && e.op.Operation?
    ensures PlaysBlock(Applied(s, e.op, e.answer).0, log + [e], b)
  {
    hide Bound, ToFf, Folded, Shown, LastWord, Repeats, PlayValue;
    LastWordStep(log, e, b);
    StartedRepeats(e.op);
    if e.op.block != b { Apart(s, e.op.block, b); }
  }

  lemma Apart(s: State, b: Byte, c: Byte)
    requires Bound(s) && b != c
    ensures b in s.effects && c in s.effects ==> s.effects[b] != s.effects[c]
  {
  }

  lemma StartedRepeats(op: EffectOp)
    requires op.Operation?
    ensures Repeats(Some(op)) == PlayValue(op.starts, op.loopCount)
  {
  }

  lemma ControlKeepsPlays(s: State, log: seq<Entry>, e: Entry, b: Byte)
    requires Bound(s) && (b in s.effects <==> Shown(log, b).Some?) && PlaysBlock(s, log, b) && e.op.Control?
    ensures PlaysBlock(Applied(s, e.op, e.answer).0, log + [e], b)
  {
    hide Bound, Controlled, Shown, LastWord;
    LastWordStep(log, e, b);
    ControlOnPlays(s, e.op.op, b);
  }

  lemma OtherKeepsPlays(s: State, log: seq<Entry>, e: Entry, b: Byte)
    requires Bound(s) && (b in s.effects <==> Shown(log, b).Some?) && PlaysBlock(s, log, b)
    requires !Sets(e.op) && !e.op.Operation? && !e.op.Control?
    ensures PlaysBlock(Applied(s, e.op, e.answer).0, log + [e], b)
  {
    hide ToFf, Folded, Shown, LastWord, Repeats;
    LastWordStep(log, e, b);
  }

  lemma LastWordStep(log: seq<Entry>, e: Entry, b: Byte)
    ensures LastWord(log + [e], b) ==
            if Frees(e.op, b) then None
            else if Commands(e.op, b) && Shown(log, b).Some? then Some(e.op)
            else LastWord(log, b)
  {
    assert (log + [e])[..|log|] == log;
  }

  lemma OpenedPlays(b: Byte)
    ensures PlaysBlock(OPENED, [], b)
  {
  }

  lemma {:induction false} RunPlays(log: seq<Entry>, b: Byte)
    requires Answered(OPENED, log)
    ensures PlaysBlock(After(OPENED, log), log, b)
  {
    hide Bound, Applied, Mirrors, MirrorsBlock, PlaysBlock, Fits, Answered;
    if log == [] {
      OpenedPlays(b);
    } else {
      AnsweredPrefix(OPENED, log);
      var before, e := log[..|log| - 1], log[|log| - 1];
      RunPlays(before, b);
      RunMirrors(before);
      OneBlock(After(OPENED, before), before, b);
      if Sets(e.op) {
        SetKeepsPlays(After(OPENED, before), before, e, b);
      } else if e.op.Operation? {
        OperateKeepsPlays(After(OPENED, before), before, e, b);
      } else if e.op.Control? {
        ControlKeepsPlays(After(OPENED, before), before, e, b);
      } else {
        OtherKeepsPlays(After(OPENED, before), before, e, b);
      }
    }
  }

  lemma OneBlock(s: State, log: seq<Entry>, b: Byte)
    requires Mirrors(s, log)
    ensures MirrorsBlock(s, log, b) && (b in s.effects <==> Shown(log, b).Some?)
  {
  }

  /**
   * After any run: a block in the kernel plays exactly when its last word was a start,
   * as often as that start said and at least once; a stop, a stop-all, or no word since
   * its upload leaves it still.
   */
  lemma PlaysIffLastStarted(log: seq<Entry>, b: Byte)
    requires Answered(OPENED, log) && Shown(log, b).Some?
    ensures var s, word := After(OPENED, log), LastWord(log, b);
            && b in s.effects && s.effects[b] in s.kernel.plays
            && var value := s.kernel.plays[s.effects[b]];
               && (value != 0 <==> word.Some? && word.value.Operation? && word.value.starts)
               && (value != 0 ==> value >= 1 && value == if word.value.loopCount == 0 then 1 else word.value.loopCount)
  {
    RunPlays(log, b);
    KernelIsLastWriterWins(log, b);
    hide After, Answered, Shown, LastWord, KindOf, ParamsOf, ToFf, Ops, UpToDate;
  }

  lemma GainStep(s: State, op: EffectOp, a: Answer)
    ensures Applied(s, op, a).0.kernel.gain ==
            if op.Gain? then 257 * op.value
            else if op == Control(EnableActuators) || op == Control(Reset) then 0xffff
            else if op == Control(DisableActuators) then 0
            else s.kernel.gain
  {
    hide ToFf, Folded;
  }

  /** After any run the gain is what the last report to set it said: all of it at 255, none at 0. */
  lemma {:induction false} GainIsLastSet(log: seq<Entry>)
    ensures After(OPENED, log).kernel.gain == GainOf(log)
  {
    if log != [] {
      GainIsLastSet(log[..|log| - 1]);
      GainStep(After(OPENED, log[..|log| - 1]), log[|log| - 1].op, log[|log| - 1].answer);
      hide Applied;
    }
  }

  /**
   * After any run an operation fails exactly when it sets a block that was never created
   * since it was freed or that the kernel turns down, or operates one not in the kernel;
   * a failed one leaves the kernel as it was.
   */
  lemma FailsIffNotThere(log: seq<Entry>, op: EffectOp, a: Answer)
    requires Answered(OPENED, log)
    ensures var s := After(OPENED, log);
            var r := Applied(s, op, a);
            && (!r.1 <==> || (Sets(op) && (KindOf(Ops(log), op.block).None? || !a.accepts))
                          || (op.Operation? && Shown(log, op.block).None?))
            && (!r.1 ==> r.0.kernel == s.kernel)
  {
    RunMirrors(log);
    if Sets(op) || op.Operation? { OneBlock(After(OPENED, log), log, op.block); }
    hide After, Answered, Shown, KindOf, ParamsOf, Known, ToFf, Ops, Folded, Bound, Mirrors;
  }
}
