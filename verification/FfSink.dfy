/**
 * The force-feedback sink (userspace/logi-wheel/crates/logi-ffb/src/sink.rs): partial
 * PID reports folded into whole kernel effects, against a last-writer-wins reading of
 * the reports.
 */
module FfSink {
  import opened Words
  import opened PidReports
  import opened FfEffects

  const FULL_GAIN: int := 0xffff

  /** The kernel's side of one open FF node: effects by id, the last value written to each, and the gain. */
  datatype Kernel = Kernel(effects: map<int, FfEffect>, plays: map<int, int>, gain: int)

  /** How the kernel answers an upload: refused, or accepted, with an unused id should one be needed. */
  datatype Answer = Answer(accepts: bool, newId: int)

  datatype State = State(
    effects: map<Byte, int>, kinds: map<Byte, EffectKind>, params: map<Byte, Params>, kernel: Kernel)

  const OPENED: State := State(map[], map[], map[], Kernel(map[], map[], FULL_GAIN))

  predicate Fits(s: State, a: Answer) {
    0 <= a.newId && a.newId !in s.kernel.effects
  }

  // ------------------------------------------------------------ one operation

  predicate Sets(op: EffectOp) {
    op.SetEffect? || op.SetConstant? || op.SetRamp? || op.SetPeriodic? || op.SetCondition? || op.SetEnvelope?
  }

  /** The one field group a report carries, written over the rest. */
  function Folded(p: Params, op: EffectOp): (r: Params)
    requires Sets(op)
  {
    match op
    case SetEffect(_, duration, direction) => p.(duration := duration, direction := direction)
    case SetConstant(_, magnitude) => p.(constant := magnitude)
    case SetRamp(_, start, end) => p.(rampStart := start, rampEnd := end)
    case SetPeriodic(_, magnitude, offset, phase, period) =>
        p.(magnitude := magnitude, offset := offset, phase := phase, period := period)
    case SetCondition(_, centre, coeffPos, coeffNeg, satPos, satNeg) =>
      p.(centre := centre, coeffPos := coeffPos, coeffNeg := coeffNeg, satPos := satPos, satNeg := satNeg)
    case SetEnvelope(_, attackMs, attackLevel, fadeMs, fadeLevel) =>
      p.(attackMs := attackMs, attackLevel := attackLevel, fadeMs := fadeMs, fadeLevel := fadeLevel)
  }

  function ParamsIn(s: State, b: Byte): (p: Params) {
    if b in s.params then s.params[b] else DEFAULT
  }

  function Uploaded(s: State, b: Byte, a: Answer): (r: (State, bool)) {
    if b !in s.kinds || !a.accepts then (s, false)
    else
      var id := if b in s.effects then s.effects[b] else a.newId;
      var k := s.kernel;
      (s.(effects := s.effects[b := id],
          kernel := k.(effects := k.effects[id := ToFf(s.kinds[b], ParamsIn(s, b), id)],
                       plays := if id in k.plays then k.plays else k.plays[id := 0])), true)
  }

  function Erased(s: State): (r: State) {
    State(map[], map[], map[],
          s.kernel.(effects := s.kernel.effects - s.effects.Values, plays := s.kernel.plays - s.effects.Values,
              gain := FULL_GAIN))
  }

  function Destroyed(s: State, b: Byte): (r: State) {
    var ids := if b in s.effects then {s.effects[b]} else {};
    State(s.effects - {b}, s.kinds - {b}, s.params - {b},
        s.kernel.(effects := s.kernel.effects - ids, plays := s.kernel.plays - ids))
  }

  function Operated(s: State, b: Byte, value: int): (r: (State, bool)) {
    if b !in s.effects then (s, false)
    else (s.(kernel := s.kernel.(plays := s.kernel.plays[s.effects[b] := value])), true)
  }

  function WithGain(s: State, gain: int): (r: State) {
    s.(kernel := s.kernel.(gain := gain))
  }

  function AllStopped(s: State): (r: State) {
    var plays := s.kernel.plays;
    s.(kernel := s.kernel.(plays := map id | id in plays :: if id in s.effects.Values then 0 else plays[id]))
  }

  function Controlled(s: State, c: DeviceControl): (r: State) {
    if c.EnableActuators? then WithGain(s, FULL_GAIN)
    else if c.DisableActuators? then WithGain(s, 0)
    else if c.StopAllEffects? then AllStopped(s)
    else if c.Reset? then Erased(s)
    else s
  }

  function PlayValue(starts: bool, loopCount: Byte): (v: int) {
    if !starts then 0 else if loopCount < 1 then 1 else loopCount
  }

  function ScaledGain(value: Byte): (g: int) {
    value as int * 0xffff / 255
  }

  function Created(s: State, b: Byte, kind: EffectKind): (r: State) {
    s.(kinds := s.kinds[b := kind], params := s.params[b := ParamsIn(s, b)])
  }

  /** Fold a report into its block's parameters and upload the whole effect. */
  function SetAndUploaded(s: State, op: EffectOp, a: Answer): (r: (State, bool))
    requires Sets(op)
  {
    Uploaded(s.(params := s.params[op.block := Folded(ParamsIn(s, op.block), op)]), op.block, a)
  }

  function Applied(s: State, op: EffectOp, a: Answer): (r: (State, bool)) {
    if Sets(op) then SetAndUploaded(s, op, a)
    else if op.Create? then (Created(s, op.block, op.kind), true)
    else if op.Operation? then Operated(s, op.block, PlayValue(op.starts, op.loopCount))
    else if op.Destroy? then (Destroyed(s, op.block), true)
    else if op.Gain? then (WithGain(s, ScaledGain(op.value)), true)
    else if op.Control? then (Controlled(s, op.op), true)
    else (s, true)
  }

  // ------------------------------------------------------------ blocks and kernel ids

  /** Every block has its own kernel effect, and the kernel holds no others. */
  ghost predicate Bound(s: State) {
    && (forall b, c :: b in s.effects && c in s.effects && s.effects[b] == s.effects[c] ==> b == c)
    && s.kernel.effects.Keys == s.effects.Values && s.kernel.plays.Keys == s.effects.Values
    && (forall b :: b in s.effects ==> b in s.kinds)
  }

  lemma UploadKeepsBound(s: State, b: Byte, a: Answer)
    requires Bound(s) && Fits(s, a)
    ensures Bound(Uploaded(s, b, a).0)
  {
    if b in s.kinds && a.accepts {
      var id := if b in s.effects then s.effects[b] else a.newId;
      hide ToFf;
      ValuesOfInsert(s.effects, b, id);
      assert b in s.effects ==> id in s.effects.Values;
    }
  }

  lemma ValuesOfInsert(m: map<Byte, int>, b: Byte, id: int)
    requires b !in m || m[b] == id
    ensures m[b := id].Values == m.Values + {id}
  {
    var m' := m[b := id];
    forall v | v in m.Values + {id} ensures v in m'.Values {
      if v == id {
        assert m'[b] == id;
      } else {
        var c :| c in m && m[c] == v;
        assert m'[c] == v;
      }
    }
  }

  lemma ValuesOfRemove(m: map<Byte, int>, b: Byte)
    requires b in m && forall c, d :: c in m && d in m && m[c] == m[d] ==> c == d
    ensures (m - {b}).Values == m.Values - {m[b]}
  {
    var m' := m - {b};
    forall v | v in m.Values - {m[b]} ensures v in m'.Values {
      var c :| c in m && m[c] == v;
      assert m'[c] == v;
    }
  }

  lemma DestroyKeepsBound(s: State, b: Byte)
    requires Bound(s)
    ensures Bound(Destroyed(s, b))
  {
    if b in s.effects {
      ValuesOfRemove(s.effects, b);
    } else {
      assert s.effects - {b} == s.effects;
    }
  }

  lemma OperateKeepsBound(s: State, b: Byte, value: int)
    requires Bound(s)
    ensures Bound(Operated(s, b, value).0)
  {
    if b in s.effects {
      assert s.effects[b] in s.kernel.plays.Keys;
      assert Operated(s, b, value).0.kernel.plays.Keys == s.kernel.plays.Keys;
    }
  }

  lemma ControlKeepsBound(s: State, c: DeviceControl)
    requires Bound(s)
    ensures Bound(Controlled(s, c))
  {
    assert AllStopped(s).kernel.plays.Keys == s.kernel.plays.Keys;
  }

  /** Nothing the host can send breaks the one-to-one pairing of blocks and kernel effects. */
  lemma ApplyKeepsBound(s: State, op: EffectOp, a: Answer)
    requires Bound(s) && Fits(s, a)
    ensures Bound(Applied(s, op, a).0)
  {
    hide Uploaded, Destroyed, Operated, Controlled, Folded;
    if Sets(op) {
      UploadKeepsBound(s.(params := s.params[op.block := Folded(ParamsIn(s, op.block), op)]), op.block, a);
    } else if op.Destroy? {
      DestroyKeepsBound(s, op.block);
    } else if op.Operation? {
      OperateKeepsBound(s, op.block, PlayValue(op.starts, op.loopCount));
    } else if op.Control? {
      ControlKeepsBound(s, op.op);
    }
  }

  // ------------------------------------------------------------ in place

  class Sink {
    var effects: map<Byte, int>
    var kinds: map<Byte, EffectKind>
    var params: map<Byte, Params>
    var kernel: Kernel

    function View(): (s: State)
      reads this
    {
      State(effects, kinds, params, kernel)
    }

    /** Open the node: the gain is set to full, since it powers up unset. */
    constructor (node: Kernel)
      requires node.effects == map[] && node.plays == map[]
      ensures View() == OPENED
    {
      effects, kinds, params, kernel := map[], map[], map[], node.(gain := FULL_GAIN);
    }

    method Upload(b: Byte, a: Answer) returns (ok: bool)
      requires Fits(View(), a)
      modifies this
      ensures (View(), ok) == Uploaded(old(View()), b, a)
    {
      if b !in kinds || !a.accepts {
        return false;
      }
      var id := if b in effects then effects[b] else a.newId;
      var p := if b in params then params[b] else DEFAULT;
      kernel := kernel.(effects := kernel.effects[id := ToFf(kinds[b], p, id)]);
      if id !in kernel.plays {
        kernel := kernel.(plays := kernel.plays[id := 0]);
      }
      effects := effects[b := id];
      return true;
    }

    method Apply(op: EffectOp, a: Answer) returns (ok: bool)
      requires Fits(View(), a) && Bound(View())
      modifies this
      ensures (View(), ok) == Applied(old(View()), op, a) && Bound(View())
    {
      ApplyKeepsBound(View(), op, a);
      ok := true;
      if Sets(op) {
        var p := if op.block in params then params[op.block] else DEFAULT;
        params := params[op.block := Folded(p, op)];
        ok := Upload(op.block, a);
      } else if op.Create? {
        kinds := kinds[op.block := op.kind];
        params := params[op.block := if op.block in params then params[op.block] else DEFAULT];
      } else if op.Operation? {
        if op.block !in effects {
          return false;
        }
        kernel := kernel.(plays := kernel.plays[effects[op.block] := PlayValue(op.starts, op.loopCount)]);
      } else if op.Destroy? {
        Forget(op.block);
      } else if op.Gain? {
        kernel := kernel.(gain := ScaledGain(op.value));
      } else if op.Control? {
        ObeyControl(op.op);
      }
    }

    method Forget(b: Byte)
      modifies this
      ensures View() == Destroyed(old(View()), b)
    {
      kinds := kinds - {b};
      params := params - {b};
      if b in effects {
        kernel := kernel.(effects := kernel.effects - {effects[b]}, plays := kernel.plays - {effects[b]});
      } else {
        assert kernel.effects - {} == kernel.effects && kernel.plays - {} == kernel.plays;
      }
      effects := effects - {b};
    }

    method ObeyControl(c: DeviceControl)
      requires Bound(View())
      modifies this
      ensures View() == Controlled(old(View()), c)
    {
      if c.EnableActuators? {
        kernel := kernel.(gain := FULL_GAIN);
      } else if c.DisableActuators? {
        kernel := kernel.(gain := 0);
      } else if c.StopAllEffects? {
        StopAll();
      } else if c.Reset? {
        EraseAll();
      }
    }

    /** Stop every uploaded effect, in no particular order. */
    method StopAll()
      requires Bound(View())
      modifies this
      ensures View() == AllStopped(old(View()))
    {
      var ids := effects.Values;
      ghost var was := kernel.plays;
      while |ids| > 0
        invariant ids <= effects.Values && effects == old(effects) && kinds == old(kinds) && params == old(params)
        invariant kernel == old(kernel).(plays := kernel.plays) && kernel.plays.Keys == was.Keys
        invariant forall id :: id in was ==>
                 kernel.plays[id] == if id in effects.Values && id !in ids then 0 else was[id]
        decreases ids
      {
        var id :| id in ids;
        assert id in effects.Values;
        kernel := kernel.(plays := kernel.plays[id := 0]);
        ids := ids - {id};
      }
    }

    /** Erase every uploaded effect, forget all blocks, and hand the wheel back at full gain. */
    method EraseAll()
      requires Bound(View())
      modifies this
      ensures View() == Erased(old(View()))
    {
      var ids := effects.Values;
      ghost var was := kernel.plays;
      while ids != {}
        invariant ids <= effects.Values == was.Keys && effects == old(effects) && kernel.gain == old(kernel.gain)
        invariant forall id :: id in ids ==> id in kernel.plays && kernel.plays[id] == was[id]
        invariant kernel.effects == old(kernel.effects) - (effects.Values - ids)
        invariant kernel.plays == old(kernel.plays) - (effects.Values - ids)
        decreases ids
      {
        var id :| id in ids;
        assert id in effects.Values;
        kernel := kernel.(effects := kernel.effects - {id}, plays := kernel.plays - {id});
        ids := ids - {id};
      }
      assert effects.Values - {} == effects.Values;
      effects, kinds, params := map[], map[], map[];
      kernel := kernel.(gain := FULL_GAIN);
    }

    /** Whatever happened before, nothing of ours is left in the kernel. */
    method Shutdown()
      requires Bound(View())
      modifies this
      ensures View() == OPENED
    {
      EraseAll();
      assert old(kernel.effects) - old(effects).Values == map[];
      assert old(kernel.plays) - old(effects).Values == map[];
    }
  }
}
