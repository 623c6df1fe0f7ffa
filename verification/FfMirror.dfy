/**
 * The sink against a last-writer-wins reading of the operations it was given
 * (userspace/logi-wheel/crates/logi-ffb/src/sink.rs).
 */
module FfMirror {
  import opened Words
  import opened PidReports
  import opened FfEffects
  import opened FfSink

  /** What one report decides about a block. */
  datatype Group = OfKind | OfEffect | OfConstant | OfRamp | OfPeriodic | OfCondition | OfEnvelope

  predicate Decides(op: EffectOp, b: Byte, g: Group) {
    match g
    case OfKind => op.Create? && op.block == b
    case OfEffect => op.SetEffect? && op.block == b
    case OfConstant => op.SetConstant? && op.block == b
    case OfRamp => op.SetRamp? && op.block == b
    case OfPeriodic => op.SetPeriodic? && op.block == b
    case OfCondition => op.SetCondition? && op.block == b
    case OfEnvelope => op.SetEnvelope? && op.block == b
  }

  predicate Frees(op: EffectOp, b: Byte) {
    op == Destroy(b) || op == Control(Reset)
  }

  /** The last report of a group for block b since the block was last freed. */
  function LastOf(log: seq<EffectOp>, b: Byte, g: Group): (r: Option<EffectOp>)
    ensures r.Some? ==> Decides(r.value, b, g)
  {
    if log == [] then None
    else
      var op := log[|log| - 1];
      if Frees(op, b) then None
      else if Decides(op, b, g) then Some(op)
      else LastOf(log[..|log| - 1], b, g)
  }

  function KindOf(log: seq<EffectOp>, b: Byte): (k: Option<EffectKind>) {
    var r := LastOf(log, b, OfKind);
    if r.Some? then Some(r.value.kind) else None
  }

  /** Every field from the last report of its own group, defaults where there was none. */
  function ParamsOf(log: seq<EffectOp>, b: Byte): (p: Params) {
    var e, c, r := LastOf(log, b, OfEffect), LastOf(log, b, OfConstant), LastOf(log, b, OfRamp);
    var w, n, v := LastOf(log, b, OfPeriodic), LastOf(log, b, OfCondition), LastOf(log, b, OfEnvelope);
    Params(
      if e.Some? then e.value.duration else 0, if e.Some? then e.value.direction else 0,
      if c.Some? then c.value.magnitude else 0,
      if r.Some? then r.value.start else 0, if r.Some? then r.value.end else 0,
      if w.Some? then w.value.magnitude else 0, if w.Some? then w.value.offset else 0,
      if w.Some? then w.value.phase else 0, if w.Some? then w.value.period else 0,
      if n.Some? then n.value.centre else 0, if n.Some? then n.value.coeffPos else 0,
      if n.Some? then n.value.coeffNeg else 0,
      if n.Some? then n.value.satPos else 0, if n.Some? then n.value.satNeg else 0,
      if v.Some? then v.value.attackMs else 0, if v.Some? then v.value.attackLevel else 0,
      if v.Some? then v.value.fadeMs else 0, if v.Some? then v.value.fadeLevel else 0)
  }

  /** Some report named block b since it was freed. */
  predicate Known(log: seq<EffectOp>, b: Byte) {
    if log == [] then false
    else
      var op := log[|log| - 1];
      if Frees(op, b) then false else (Names(op, b) || Known(log[..|log| - 1], b))
  }

  predicate Names(op: EffectOp, b: Byte) {
    (op.Create? || Sets(op)) && op.block == b
  }

  // ------------------------------------------------------------ runs of the worker

  /** Operations with the kernel's answers. */
  datatype Entry = Entry(op: EffectOp, answer: Answer)

  function Ops(log: seq<Entry>): (ops: seq<EffectOp>)
    ensures |ops| == |log|
  {
    seq(|log|, i requires 0 <= i < |log| => log[i].op)
  }

  function After(s: State, log: seq<Entry>): (r: State) {
    if log == [] then s else Applied(After(s, log[..|log| - 1]), log[|log| - 1].op, log[|log| - 1].answer).0
  }

  /** Each answer is one the kernel could give at that point. */
  ghost predicate Answered(s: State, log: seq<Entry>) {
    forall i :: 0 <= i < |log| ==> Fits(After(s, log[..i]), log[i].answer)
  }

  /** What the kernel should be playing for block b: the fold as it stood at the last upload that went through. */
  function Shown(log: seq<Entry>, b: Byte): (r: Option<(EffectKind, Params)>) {
    if log == [] then None
    else
      var before, e := log[..|log| - 1], log[|log| - 1];
      if Frees(e.op, b) then None
      else if Sets(e.op) && e.op.block == b && KindOf(Ops(before), b).Some? && e.answer.accepts then
        Some((KindOf(Ops(before), b).value, Folded(ParamsOf(Ops(before), b), e.op)))
      else Shown(before, b)
  }

  ghost predicate Mirrors(s: State, log: seq<Entry>) {
    forall b: Byte :: MirrorsBlock(s, log, b)
  }

  ghost predicate MirrorsBlock(s: State, log: seq<Entry>, b: Byte) {
    && ParamsIn(s, b) == ParamsOf(Ops(log), b)
    && (b in s.params <==> Known(Ops(log), b))
    && (b in s.kinds <==> KindOf(Ops(log), b).Some?)
    && (b in s.kinds ==> s.kinds[b] == KindOf(Ops(log), b).value)
    && (b in s.effects <==> Shown(log, b).Some?)
    && (b in s.effects ==>
          && s.effects[b] in s.kernel.effects
          && s.kernel.effects[s.effects[b]] == ToFf(Shown(log, b).value.0, Shown(log, b).value.1, s.effects[b]))
  }

  // ------------------------------------------------------------ one operation at a time

  lemma ParamsStep(log: seq<EffectOp>, op: EffectOp, b: Byte)
    ensures ParamsOf(log + [op], b) ==
            if Frees(op, b) then DEFAULT
            else if Sets(op) && op.block == b then Folded(ParamsOf(log, b), op) else ParamsOf(log, b)
    ensures KindOf(log + [op], b) ==
            if Frees(op, b) then None else if op.Create? && op.block == b then Some(op.kind) else KindOf(log, b)
    ensures Known(log + [op], b) <==> !Frees(op, b) && (Names(op, b) || Known(log, b))
  {
    assert (log + [op])[..|log|] == log;
  }

  lemma ShownStep(log: seq<Entry>, e: Entry, b: Byte)
    ensures Ops(log + [e]) == Ops(log) + [e.op]
    ensures Shown(log + [e], b) ==
            if Frees(e.op, b) then None
            else if Sets(e.op) && e.op.block == b && KindOf(Ops(log), b).Some? && e.answer.accepts then
              Some((KindOf(Ops(log), b).value, Folded(ParamsOf(Ops(log), b), e.op)))
            else Shown(log, b)
  {
    assert (log + [e])[..|log|] == log;
  }

  lemma SetStep(s: State, log: seq<Entry>, e: Entry, b: Byte)
    requires Bound(s) && MirrorsBlock(s, log, b) && Fits(s, e.answer) && Sets(e.op)
    ensures MirrorsBlock(Applied(s, e.op, e.answer).0, log + [e], b)
  {
    hide ToFf, Folded, KindOf, ParamsOf, Known, Shown, Ops;
    ShownStep(log, e, b);
    ParamsStep(Ops(log), e.op, b);
    assert b in s.effects ==> s.effects[b] in s.kernel.effects;
  }

  lemma DestroyStep(s: State, log: seq<Entry>, e: Entry, b: Byte)
    requires Bound(s) && MirrorsBlock(s, log, b) && e.op.Destroy?
    ensures MirrorsBlock(Applied(s, e.op, e.answer).0, log + [e], b)
  {
    hide ToFf, Folded, KindOf, ParamsOf, Known, Shown, Ops;
    ShownStep(log, e, b);
    ParamsStep(Ops(log), e.op, b);
  }

  lemma OtherStep(s: State, log: seq<Entry>, e: Entry, b: Byte)
    requires Bound(s) && MirrorsBlock(s, log, b) && !Sets(e.op) && !e.op.Destroy?
    ensures MirrorsBlock(Applied(s, e.op, e.answer).0, log + [e], b)
  {
    hide ToFf, Folded, KindOf, ParamsOf, Known, Shown, Ops;
    ShownStep(log, e, b);
    ParamsStep(Ops(log), e.op, b);
  }

  lemma StepMirrors(s: State, log: seq<Entry>, e: Entry)
    requires Bound(s) && Mirrors(s, log) && Fits(s, e.answer)
    ensures Mirrors(Applied(s, e.op, e.answer).0, log + [e])
  {
    hide Bound, Applied, MirrorsBlock, Fits;
    forall b: Byte ensures MirrorsBlock(Applied(s, e.op, e.answer).0, log + [e], b) {
      if Sets(e.op) { SetStep(s, log, e, b); }
      else if e.op.Destroy? { DestroyStep(s, log, e, b); }
      else { OtherStep(s, log, e, b); }
    }
  }

  lemma AnsweredPrefix(s: State, log: seq<Entry>)
    requires Answered(s, log) && log != []
    ensures var before := log[..|log| - 1];
            Answered(s, before) && Fits(After(s, before), log[|log| - 1].answer) && log == before + [log[|log| - 1]]
  {
    hide After, Fits;
    var before := log[..|log| - 1];
    forall i | 0 <= i < |before| ensures Fits(After(s, before[..i]), before[i].answer) {
      assert before[..i] == log[..i];
    }
  }

  lemma {:induction false} RunMirrors(log: seq<Entry>)
    requires Answered(OPENED, log)
    ensures Bound(After(OPENED, log)) && Mirrors(After(OPENED, log), log)
  {
    hide Bound, Applied, Mirrors, Fits, Answered;
    if log == [] {
      OpenedMirrors();
    } else {
      AnsweredPrefix(OPENED, log);
      var before, e := log[..|log| - 1], log[|log| - 1];
      RunMirrors(before);
      ApplyKeepsBound(After(OPENED, before), e.op, e.answer);
      StepMirrors(After(OPENED, before), before, e);
    }
  }

  lemma OpenedMirrors()
    ensures Bound(OPENED) && Mirrors(OPENED, [])
  {
    forall b: Byte ensures MirrorsBlock(OPENED, [], b) {
    }
  }

  // ------------------------------------------------------------ what the mirror promises

  /** The last report that touched block b since it was freed was a setting that got through. */
  predicate UpToDate(log: seq<Entry>, b: Byte) {
    if log == [] then false
    else
      var e := log[|log| - 1];
      if Frees(e.op, b) || (e.op.Create? && e.op.block == b) then false
      else if Sets(e.op) && e.op.block == b then e.answer.accepts && KindOf(Ops(log), b).Some?
      else UpToDate(log[..|log| - 1], b)
  }

  lemma {:induction false} UpToDateIsCurrent(log: seq<Entry>, b: Byte)
    requires UpToDate(log, b)
    ensures KindOf(Ops(log), b).Some? && Shown(log, b) == Some((KindOf(Ops(log), b).value, ParamsOf(Ops(log), b)))
  {
    hide KindOf, ParamsOf, Folded;
    var before, e := log[..|log| - 1], log[|log| - 1];
    assert log == before + [e];
    ShownStep(before, e, b);
    ParamsStep(Ops(before), e.op, b);
    if !(Sets(e.op) && e.op.block == b) {
      UpToDateIsCurrent(before, b);
    }
  }

  /**
   * After any run, with uploads refused at will: a block is in the kernel exactly when an
   * upload of it went through since it was freed, no two blocks share a kernel effect and
   * the kernel holds none besides; and a block whose last report got through is played
   * exactly as the last report of every group reads.
   */
  lemma KernelIsLastWriterWins(log: seq<Entry>, b: Byte)
    requires Answered(OPENED, log)
    ensures var s := After(OPENED, log);
            && s.kernel.effects.Keys == s.effects.Values
            && (forall c :: b in s.effects && c in s.effects && s.effects[b] == s.effects[c] ==> b == c)
            && (b in s.effects <==> Shown(log, b).Some?)
            && (UpToDate(log, b) ==>
                  && KindOf(Ops(log), b).Some?
                  && b in s.effects && s.effects[b] in s.kernel.effects
                  && s.kernel.effects[s.effects[b]] ==
                     ToFf(KindOf(Ops(log), b).value, ParamsOf(Ops(log), b), s.effects[b]))
  {
    RunMirrors(log);
    assert MirrorsBlock(After(OPENED, log), log, b);
    hide After, KindOf, ParamsOf, Ops, Shown, ToFf, UpToDate;
    if UpToDate(log, b) { UpToDateIsCurrent(log, b); }
  }

  /** Two settings that decide different things. */
  ghost predicate Independent(x: EffectOp, y: EffectOp) {
    Sets(x) && Sets(y) && (x.block != y.block || forall g :: !(Decides(x, x.block, g) && Decides(y, y.block, g)))
  }

  /** Reports of different groups, or for different blocks, may come in either order. */
  lemma {:induction false} GroupsCommute(before: seq<EffectOp>, x: EffectOp, y: EffectOp, after: seq<EffectOp>, b: Byte)
    requires Independent(x, y)
    ensures var one, other := before + [x, y] + after, before + [y, x] + after;
            && ParamsOf(one, b) == ParamsOf(other, b) && KindOf(one, b) == KindOf(other, b)
            && Known(one, b) == Known(other, b)
    decreases |after|
  {
    if after == [] {
      assert before + [x, y] + after == before + [x] + [y] && before + [y, x] + after == before + [y] + [x];
      ParamsStep(before, x, b);
      ParamsStep(before + [x], y, b);
      ParamsStep(before, y, b);
      ParamsStep(before + [y], x, b);
      hide ParamsOf, KindOf, Known;
      if x.block == y.block == b { FoldsCommute(ParamsOf(before, b), x, y); }
    } else {
      var n := |after| - 1;
      hide ParamsOf, KindOf, Known, Folded, Decides;
      GroupsCommute(before, x, y, after[..n], b);
      assert before + [x, y] + after == before + [x, y] + after[..n] + [after[n]];
      assert before + [y, x] + after == before + [y, x] + after[..n] + [after[n]];
      ParamsStep(before + [x, y] + after[..n], after[n], b);
      ParamsStep(before + [y, x] + after[..n], after[n], b);
    }
  }

  lemma FoldsCommute(p: Params, x: EffectOp, y: EffectOp)
    requires Independent(x, y) && x.block == y.block
    ensures Folded(Folded(p, x), y) == Folded(Folded(p, y), x)
  {
    assert !(Decides(x, x.block, OfEffect) && Decides(y, y.block, OfEffect));
    assert !(Decides(x, x.block, OfConstant) && Decides(y, y.block, OfConstant));
    assert !(Decides(x, x.block, OfRamp) && Decides(y, y.block, OfRamp));
    assert !(Decides(x, x.block, OfPeriodic) && Decides(y, y.block, OfPeriodic));
    assert !(Decides(x, x.block, OfCondition) && Decides(y, y.block, OfCondition));
    assert !(Decides(x, x.block, OfEnvelope) && Decides(y, y.block, OfEnvelope));
  }

  // ------------------------------------------------------------ the sink itself under a swap

  /** The same run with two neighbouring reports swapped, each position keeping its answer. */
  function Swapped(before: seq<Entry>, x: Entry, y: Entry, after: seq<Entry>): (log: seq<Entry>) {
    before + [Entry(y.op, x.answer), Entry(x.op, y.answer)] + after
  }

  lemma SwapOps(before: seq<Entry>, x: Entry, y: Entry, after: seq<Entry>)
    ensures Ops(before + [x, y] + after) == Ops(before) + [x.op, y.op] + Ops(after)
    ensures Ops(Swapped(before, x, y, after)) == Ops(before) + [y.op, x.op] + Ops(after)
  {
  }

  lemma UpToDateStep(log: seq<Entry>, e: Entry, b: Byte)
    ensures UpToDate(log + [e], b) <==>
            !Frees(e.op, b) && !(e.op.Create? && e.op.block == b) &&
            if Sets(e.op) && e.op.block == b then e.answer.accepts && KindOf(Ops(log), b).Some? else UpToDate(log, b)
  {
    assert (log + [e])[..|log|] == log;
    ShownStep(log, e, b);
    ParamsStep(Ops(log), e.op, b);
  }

  /** Both reports accepted: which blocks are up to date does not depend on their order. */
  lemma {:induction false} UpToDateCommutes(before: seq<Entry>, x: Entry, y: Entry, after: seq<Entry>, b: Byte)
    requires Independent(x.op, y.op) && x.answer.accepts && y.answer.accepts
    ensures UpToDate(before + [x, y] + after, b) <==> UpToDate(Swapped(before, x, y, after), b)
    decreases |after|
  {
    var x', y' := Entry(x.op, y.answer), Entry(y.op, x.answer);
    if after == [] {
      assert before + [x, y] + after == before + [x] + [y] && Swapped(before, x, y, after) == before + [y'] + [x'];
      UpToDateStep(before, x, b);
      UpToDateStep(before + [x], y, b);
      UpToDateStep(before, y', b);
      UpToDateStep(before + [y'], x', b);
      SettingKeepsKind(before, x, b);
      SettingKeepsKind(before, y', b);
    } else {
      var n := |after| - 1;
      UpToDateCommutes(before, x, y, after[..n], b);
      assert before + [x, y] + after == before + [x, y] + after[..n] + [after[n]];
      assert Swapped(before, x, y, after) == Swapped(before, x, y, after[..n]) + [after[n]];
      UpToDateStep(before + [x, y] + after[..n], after[n], b);
      UpToDateStep(Swapped(before, x, y, after[..n]), after[n], b);
      SwapOps(before, x, y, after[..n]);
      GroupsCommute(Ops(before), x.op, y.op, Ops(after[..n]), b);
    }
  }

  lemma SettingKeepsKind(log: seq<Entry>, e: Entry, b: Byte)
    requires Sets(e.op)
    ensures KindOf(Ops(log + [e]), b) == KindOf(Ops(log), b)
  {
    ShownStep(log, e, b);
    ParamsStep(Ops(log), e.op, b);
  }

  /**
   * The sink after a run does not depend on the order of two independent reports: the
   * same kinds, the same parameters, and, where a block is up to date in both, the same
   * kernel effect up to its id; with both reports accepted it is up to date in both or
   * in neither.
   */
  lemma SinkForgetsTheOrder(before: seq<Entry>, x: Entry, y: Entry, after: seq<Entry>)
    requires Independent(x.op, y.op)
    requires Answered(OPENED, before + [x, y] + after) && Answered(OPENED, Swapped(before, x, y, after))
    ensures var one, other := before + [x, y] + after, Swapped(before, x, y, after);
            var s, t := After(OPENED, one), After(OPENED, other);
            && s.kinds == t.kinds && s.params == t.params
            && forall b: Byte ::
                 && (x.answer.accepts && y.answer.accepts ==> (UpToDate(one, b) <==> UpToDate(other, b)))
                 && (UpToDate(one, b) && UpToDate(other, b) ==> SameEffect(s, t, b))
  {
    var one, other := before + [x, y] + after, Swapped(before, x, y, after);
    var s, t := After(OPENED, one), After(OPENED, other);
    hide After, Answered, UpToDate, Swapped, Independent, Mirrors, Bound;
    RunMirrors(one);
    RunMirrors(other);
    forall b: Byte
      ensures (b in s.kinds <==> b in t.kinds) && (b in s.kinds ==> s.kinds[b] == t.kinds[b])
      ensures (b in s.params <==> b in t.params) && (b in s.params ==> s.params[b] == t.params[b])
    {
      SameBlock(before, x, y, after, s, t, b);
    }
    assert s.kinds == t.kinds && s.params == t.params;
    forall b: Byte
      ensures x.answer.accepts && y.answer.accepts ==> (UpToDate(one, b) <==> UpToDate(other, b))
      ensures UpToDate(one, b) && UpToDate(other, b) ==> SameEffect(s, t, b)
    {
      if x.answer.accepts && y.answer.accepts { UpToDateCommutes(before, x, y, after, b); }
      if UpToDate(one, b) && UpToDate(other, b) { SameUpToDate(before, x, y, after, b); }
    }
  }

  /** A block plays the same in both, under whatever id each kernel gave it. */
  ghost predicate SameEffect(s: State, t: State, b: Byte) {
    && b in s.effects && s.effects[b] in s.kernel.effects
    && b in t.effects && t.effects[b] in t.kernel.effects
    && t.kernel.effects[t.effects[b]] == s.kernel.effects[s.effects[b]].(id := t.effects[b])
  }

  lemma SameUpToDate(before: seq<Entry>, x: Entry, y: Entry, after: seq<Entry>, b: Byte)
    requires Independent(x.op, y.op)
    requires Answered(OPENED, before + [x, y] + after) && Answered(OPENED, Swapped(before, x, y, after))
    requires UpToDate(before + [x, y] + after, b) && UpToDate(Swapped(before, x, y, after), b)
    ensures SameEffect(After(OPENED, before + [x, y] + after), After(OPENED, Swapped(before, x, y, after)), b)
  {
    hide After, Answered, KindOf, ParamsOf, Known, Shown, UpToDate, Swapped, Ops, Independent;
    KernelIsLastWriterWins(before + [x, y] + after, b);
    KernelIsLastWriterWins(Swapped(before, x, y, after), b);
    SwapOps(before, x, y, after);
    GroupsCommute(Ops(before), x.op, y.op, Ops(after), b);
  }

  lemma SameBlock(before: seq<Entry>, x: Entry, y: Entry, after: seq<Entry>, s: State, t: State, b: Byte)
    requires Independent(x.op, y.op)
    requires Mirrors(s, before + [x, y] + after) && Mirrors(t, Swapped(before, x, y, after))
    ensures (b in s.kinds <==> b in t.kinds) && (b in s.kinds ==> s.kinds[b] == t.kinds[b])
    ensures (b in s.params <==> b in t.params) && (b in s.params ==> s.params[b] == t.params[b])
  {
    assert MirrorsBlock(s, before + [x, y] + after, b) && MirrorsBlock(t, Swapped(before, x, y, after), b);
    hide KindOf, ParamsOf, Known, Shown, ToFf, Swapped, Ops, Independent;
    SwapOps(before, x, y, after);
    GroupsCommute(Ops(before), x.op, y.op, Ops(after), b);
  }
}
