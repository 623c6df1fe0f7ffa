/**
 * The DirectInput proxy (userspace/logi-wheel/crates/logi-ffb/src/proxy.rs): the poll
 * loop numbers effect blocks and queues operations, a worker applies them in order.
 */
module FfProxy {
  import opened Words
  import opened PidReports
  import opened FfEffects
  import opened FfSink
  import opened FfMirror

  const REPORT_BLOCK_LOAD: Byte := 0x56

  /** The poll loop's state and the channel: everything ever sent, and how much of it has been applied. */
  datatype Loop = Loop(next: Byte, last: Byte, sent: seq<EffectOp>)

  const STARTED: Loop := Loop(1, 0, [])

  function Dispatched(p: Loop, op: EffectOp): (r: Loop) {
    var q := if op == Control(Reset) then p.(next := 1, last := 0) else p;
    q.(sent := q.sent + [op])
  }

  /** A feature request for a new effect; the type is its second byte. */
  function CreateRequested(p: Loop, data: seq<Byte>): (r: Loop) {
    if |data| < 2 || KindOfByte(data[1]).None? then p
    else Dispatched(p.(next := (p.next as int + 1) % U8, last := p.next), Create(p.next, KindOfByte(data[1]).value))
  }

  function Reported(p: Loop, bytes: seq<Byte>): (r: Loop) {
    if Decode(bytes).None? then p else Dispatched(p, Decode(bytes).value)
  }

  // ------------------------------------------------------------ block numbers

  /** Creations since the last reset. */
  function Creations(ops: seq<EffectOp>): (n: nat) {
    if ops == [] then 0
    else
      var op := ops[|ops| - 1];
      if op == Control(Reset) then 0 else Creations(ops[..|ops| - 1]) + if op.Create? then 1 else 0
  }

  predicate NumberedAt(ops: seq<EffectOp>, i: nat)
    requires i < |ops|
  {
    ops[i].Create? ==> ops[i].block == (Creations(ops[..i]) + 1) % U8
  }

  /** Creation n since the last reset names block n, modulo 256. */
  ghost predicate Numbered(ops: seq<EffectOp>) {
    forall i :: 0 <= i < |ops| ==> NumberedAt(ops, i)
  }

  ghost predicate LoopSound(p: Loop) {
    Numbered(p.sent) && p.next == (Creations(p.sent) + 1) % U8 && p.last == Creations(p.sent) % U8
  }

  lemma CreationsStep(ops: seq<EffectOp>, op: EffectOp)
    ensures Creations(ops + [op]) == if op == Control(Reset) then 0 else Creations(ops) + if op.Create? then 1 else 0
  {
    assert (ops + [op])[..|ops|] == ops;
  }

  lemma NumberedStep(ops: seq<EffectOp>, op: EffectOp)
    requires Numbered(ops) && (op.Create? ==> op.block == (Creations(ops) + 1) % U8)
    ensures Numbered(ops + [op])
  {
    hide Creations;
    var all := ops + [op];
    assert all[..|ops|] == ops;
    forall i | 0 <= i < |all| ensures NumberedAt(all, i) {
      if i < |ops| {
        assert NumberedAt(ops, i) && all[..i] == ops[..i];
      }
    }
  }

  lemma NumberedPrefix(ops: seq<EffectOp>, n: nat)
    requires Numbered(ops) && n <= |ops|
    ensures Numbered(ops[..n])
  {
    hide Creations;
    forall i | 0 <= i < n ensures NumberedAt(ops[..n], i) {
      assert NumberedAt(ops, i) && ops[..n][..i] == ops[..i];
    }
  }

  lemma DispatchKeepsSound(p: Loop, op: EffectOp)
    requires LoopSound(p) && !op.Create?
    ensures LoopSound(Dispatched(p, op))
  {
    hide Creations, Numbered;
    NumberedStep(p.sent, op);
    CreationsStep(p.sent, op);
  }

  lemma ReportKeepsSound(p: Loop, bytes: seq<Byte>)
    requires LoopSound(p)
    ensures LoopSound(Reported(p, bytes))
  {
    hide Decode, LoopSound, Dispatched;
    DecodeNeverCreates(bytes);
    if Decode(bytes).Some? { DispatchKeepsSound(p, Decode(bytes).value); }
  }

  lemma CreateKeepsSound(p: Loop, data: seq<Byte>)
    requires LoopSound(p)
    ensures LoopSound(CreateRequested(p, data))
    ensures CreateRequested(p, data) != p ==>
              var ops := CreateRequested(p, data).sent;
              ops[..|ops| - 1] == p.sent && ops[|ops| - 1].Create? &&
                  ops[|ops| - 1].block == CreateRequested(p, data).last
  {
    hide Creations, Numbered;
    if |data| >= 2 && KindOfByte(data[1]).Some? {
      NumberedStep(p.sent, Create(p.next, KindOfByte(data[1]).value));
      CreationsStep(p.sent, Create(p.next, KindOfByte(data[1]).value));
    }
  }

  /** Without wrap-around, a live block is numbered among the creations since the last reset. */
  lemma {:induction false} LiveIsNumbered(ops: seq<EffectOp>, b: Byte)
    requires Numbered(ops) && Creations(ops) <= 255 && KindOf(ops, b).Some?
    ensures 1 <= b <= Creations(ops)
  {
    var n := |ops| - 1;
    var before, op := ops[..n], ops[n];
    NumberedPrefix(ops, n);
    assert NumberedAt(ops, n);
    assert ops == before + [op];
    ParamsStep(before, op, b);
    CreationsStep(before, op);
    hide Creations, Numbered, KindOf, ParamsOf;
    if !(op.Create? && op.block == b) {
      LiveIsNumbered(before, b);
    }
  }

  /** With at most 256 creations between resets, no creation names a block still in use: the last is block 0. */
  lemma CreationsAreFresh(ops: seq<EffectOp>, i: nat)
    requires Numbered(ops) && i < |ops| && ops[i].Create? && Creations(ops[..i + 1]) <= 256
    ensures KindOf(ops[..i], ops[i].block).None?
  {
    var before := ops[..i];
    NumberedPrefix(ops, i);
    assert NumberedAt(ops, i);
    assert ops[..i + 1] == before + [ops[i]];
    CreationsStep(before, ops[i]);
    hide Creations, Numbered, KindOf;
    if KindOf(before, ops[i].block).Some? {
      LiveIsNumbered(before, ops[i].block);
    }
  }

  function ManyCreations(n: nat): (ops: seq<EffectOp>)
    ensures |ops| == n
  {
    if n == 0 then [] else ManyCreations(n - 1) + [Create(n % U8, Constant)]
  }

  lemma {:induction false} ManyCreationsAreLive(n: nat)
    ensures Numbered(ManyCreations(n)) && Creations(ManyCreations(n)) == n
    ensures n >= 1 ==> KindOf(ManyCreations(n), 1).Some?
  {
    if n > 0 {
      ManyCreationsAreLive(n - 1);
      var before, op := ManyCreations(n - 1), Create(n % U8, Constant);
      NumberedStep(before, op);
      CreationsStep(before, op);
      ParamsStep(before, op, 1);
    }
  }

  // ------------------------------------------------------------ poll loop and worker interleaved

  datatype Action = HostCreates(data: seq<Byte>) | HostReports(bytes: seq<Byte>) | Work(answer: Answer)

  /** `log` is what the worker has taken from the channel, with the kernel's answers. */
  datatype Proxy = Proxy(poll: Loop, sink: State, log: seq<Entry>)

  predicate Enabled(p: Proxy, a: Action) {
    a.Work? ==> |p.log| < |p.poll.sent| && Fits(p.sink, a.answer)
  }

  function Do(p: Proxy, a: Action): (r: Proxy)
    requires Enabled(p, a)
  {
    match a
    case HostCreates(data) => p.(poll := CreateRequested(p.poll, data))
    case HostReports(bytes) => p.(poll := Reported(p.poll, bytes))
    case Work(answer) =>
      var op := p.poll.sent[|p.log|];
      p.(sink := Applied(p.sink, op, answer).0, log := p.log + [Entry(op, answer)])
  }

  predicate Runnable(p: Proxy, run: seq<Action>)
    decreases |run|
  {
    run == [] || (Enabled(p, run[0]) && Runnable(Do(p, run[0]), run[1..]))
  }

  function Exec(p: Proxy, run: seq<Action>): (r: Proxy)
    requires Runnable(p, run)
    decreases |run|
  {
    if run == [] then p else Exec(Do(p, run[0]), run[1..])
  }

  /** The worker lags, it never reorders. */
  ghost predicate Sound(p: Proxy) {
    && LoopSound(p.poll)
    && |p.log| <= |p.poll.sent| && Ops(p.log) == p.poll.sent[..|p.log|]
    && Answered(OPENED, p.log) && p.sink == After(OPENED, p.log)
  }

  lemma PollOnlyAppends(p: Loop, data: seq<Byte>)
    ensures p.sent <= CreateRequested(p, data).sent && p.sent <= Reported(p, data).sent
  {
    hide Decode;
  }

  lemma WorkKeepsSound(p: Proxy, answer: Answer)
    requires Sound(p) && Enabled(p, Work(answer))
    ensures Sound(Do(p, Work(answer)))
  {
    hide LoopSound, Applied, Fits, After, Answered, Ops;
    AfterStep(p.log, Entry(p.poll.sent[|p.log|], answer));
  }

  lemma StepKeepsSound(p: Proxy, a: Action)
    requires Sound(p) && Enabled(p, a)
    ensures Sound(Do(p, a))
  {
    hide LoopSound, CreateRequested, Reported, Applied;
    match a
    case HostCreates(data) =>
      CreateKeepsSound(p.poll, data);
      PollOnlyAppends(p.poll, data);
    case HostReports(bytes) =>
      ReportKeepsSound(p.poll, bytes);
      PollOnlyAppends(p.poll, bytes);
    case Work(answer) => WorkKeepsSound(p, answer);
  }

  lemma {:induction false} RunsAreSound(p: Proxy, run: seq<Action>)
    requires Sound(p) && Runnable(p, run)
    ensures Sound(Exec(p, run))
    decreases |run|
  {
    hide Sound, Do, Enabled;
    if run != [] {
      StepKeepsSound(p, run[0]);
      RunsAreSound(Do(p, run[0]), run[1..]);
    }
  }

  ghost predicate Reachable(p: Proxy) {
    exists run :: Runnable(Proxy(STARTED, OPENED, []), run) && Exec(Proxy(STARTED, OPENED, []), run) == p
  }

  lemma ReachableIsSound(p: Proxy)
    requires Reachable(p)
    ensures Sound(p)
  {
    var run :| Runnable(Proxy(STARTED, OPENED, []), run) && Exec(Proxy(STARTED, OPENED, []), run) == p;
    RunsAreSound(Proxy(STARTED, OPENED, []), run);
  }

  /**
   * In every interleaving: a creation that the worker is about to apply finds its block
   * unused, as long as it is among the first 256 since the last reset, even while the
   * poll loop has already restarted its numbering behind a reset the worker has not seen.
   */
  lemma NoCreationReachesALiveBlock(p: Proxy)
    requires Reachable(p) && |p.log| < |p.poll.sent| && p.poll.sent[|p.log|].Create?
    requires Creations(p.poll.sent[..|p.log| + 1]) <= 256
    ensures p.poll.sent[|p.log|].block !in p.sink.kinds && p.poll.sent[|p.log|].block !in p.sink.effects
  {
    var b := p.poll.sent[|p.log|].block;
    ReachableIsSound(p);
    CreationsAreFresh(p.poll.sent, |p.log|);
    RunMirrors(p.log);
    hide Answered, Ops, KindOf, ParamsOf, Shown, After;
    assert MirrorsBlock(p.sink, p.log, b);
  }

  lemma ReachStep(p: Proxy, a: Action)
    requires Reachable(p) && Enabled(p, a)
    ensures Reachable(Do(p, a))
  {
    var p0 := Proxy(STARTED, OPENED, []);
    var run :| Runnable(p0, run) && Exec(p0, run) == p;
    Extend(p0, run, a);
  }

  lemma {:induction false} Extend(p: Proxy, run: seq<Action>, a: Action)
    requires Runnable(p, run) && Enabled(Exec(p, run), a)
    ensures Runnable(p, run + [a]) && Exec(p, run + [a]) == Do(Exec(p, run), a)
    decreases |run|
  {
    hide Enabled, Do;
    if run == [] {
      assert (run + [a])[1..] == [];
    } else {
      assert (run + [a])[1..] == run[1..] + [a];
      Extend(Do(p, run[0]), run[1..], a);
    }
  }

  /** The host asks for one more constant effect. */
  lemma OneMoreCreation(p: Proxy)
    requires Reachable(p) && Sound(p)
    ensures var p', b := Do(p, HostCreates([0x54, 1])), (Creations(p.poll.sent) + 1) % U8;
            && Reachable(p') && Sound(p') && p'.sink == p.sink && p'.log == p.log
            && p'.poll.sent == p.poll.sent + [Create(b, Constant)]
  {
    ReachStep(p, HostCreates([0x54, 1]));
    StepKeepsSound(p, HostCreates([0x54, 1]));
    hide Sound, Creations, Numbered;
    assert LoopSound(p.poll) by { SoundLoop(p); }
    assert KindOfByte(1) == Some(Constant);
  }

  lemma SoundLoop(p: Proxy)
    requires Sound(p)
    ensures LoopSound(p.poll)
  {
  }

  /** n creations, all applied. */
  lemma {:induction false} ReachCreations(n: nat) returns (p: Proxy)
    ensures Reachable(p) && Sound(p) && p.poll.sent == ManyCreations(n) && |p.log| == n
    ensures p.sink.kernel.effects == map[]
  {
    hide Sound, Reachable, Do;
    if n == 0 {
      p := Proxy(STARTED, OPENED, []);
      AtStart(p);
    } else {
      var p0 := ReachCreations(n - 1);
      ManyCreationsAreLive(n - 1);
      OneMoreCreation(p0);
      var p1 := Do(p0, HostCreates([0x54, 1]));
      var answer := Answer(true, 0);
      WorkOff(p1, answer);
      ReachStep(p1, Work(answer));
      StepKeepsSound(p1, Work(answer));
      p := Do(p1, Work(answer));
    }
  }

  lemma AtStart(p: Proxy)
    requires p == Proxy(STARTED, OPENED, [])
    ensures Reachable(p) && Sound(p)
  {
    assert Runnable(p, []) && Exec(p, []) == p;
  }

  lemma WorkOff(p: Proxy, answer: Answer)
    requires |p.log| < |p.poll.sent| && p.poll.sent[|p.log|].Create? && p.sink.kernel.effects == map[] &&
             answer.newId >= 0
    ensures Enabled(p, Work(answer))
    ensures var p' := Do(p, Work(answer));
            |p'.log| == |p.log| + 1 && p'.poll == p.poll && p'.sink.kernel.effects == map[]
  {
  }

  /** Creation 257 is the first that can find its block in use: it names block 1 again, which nobody need have freed. */
  lemma CreationCanReachALiveBlock() returns (p: Proxy)
    ensures Reachable(p) && |p.log| < |p.poll.sent| && p.poll.sent[|p.log|].Create?
    ensures Creations(p.poll.sent[..|p.log| + 1]) == 257
    ensures p.poll.sent[|p.log|].block in p.sink.kinds
  {
    p := OverfullFrom(256);
  }

  lemma OverfullFrom(n: nat) returns (p: Proxy)
    requires n == 256
    ensures Reachable(p) && |p.log| < |p.poll.sent| && p.poll.sent[|p.log|].Create?
    ensures Creations(p.poll.sent[..|p.log| + 1]) == n + 1
    ensures p.poll.sent[|p.log|].block in p.sink.kinds
  {
    hide Reachable, Sound, Do, Creations, ManyCreations;
    var p0 := ReachCreations(n);
    ManyCreationsAreLive(n);
    OneMoreCreation(p0);
    p := Do(p0, HostCreates([0x54, 1]));
    assert p.poll.sent[..|p.log| + 1] == p.poll.sent;
    CreationsStep(ManyCreations(n), Create(1, Constant));
    FirstBlockIsLive(p0, n);
  }

  lemma FirstBlockIsLive(p: Proxy, n: nat)
    requires Sound(p) && p.poll.sent == ManyCreations(n) && |p.log| == n >= 1
    ensures 1 in p.sink.kinds
  {
    hide ManyCreations, LoopSound;
    ManyCreationsAreLive(n);
    RunMirrors(p.log);
    assert MirrorsBlock(p.sink, p.log, 1);
    assert ManyCreations(n)[..n] == ManyCreations(n);
  }

  /** Whatever the interleaving, the kernel plays the last word on every block the worker has got to. */
  lemma WorkerIsLastWriterWins(p: Proxy, b: Byte)
    requires Reachable(p)
    ensures |p.log| <= |p.poll.sent|
    ensures p.sink.kernel.effects.Keys == p.sink.effects.Values
    ensures forall c :: b in p.sink.effects && c in p.sink.effects && p.sink.effects[b] == p.sink.effects[c] ==> b == c
    ensures UpToDate(p.log, b) ==>
              var ops := p.poll.sent[..|p.log|];
              && KindOf(ops, b).Some? && b in p.sink.effects && p.sink.effects[b] in p.sink.kernel.effects
              && p.sink.kernel.effects[p.sink.effects[b]] ==
                 ToFf(KindOf(ops, b).value, ParamsOf(ops, b), p.sink.effects[b])
  {
    ReachableIsSound(p);
    hide KindOf, ParamsOf, ToFf, UpToDate, Shown, After;
    KernelIsLastWriterWins(p.log, b);
  }

  /** The host is told the block of its last creation, or 0 when there was none since the last reset. */
  lemma {:induction false} ReplyNamesTheLastCreation(p: Loop)
    requires LoopSound(p)
    ensures p.last == LastBlock(p.sent)
    ensures Creations(p.sent) == 0 ==> p.last == 0
    ensures Creations(p.sent) > 0 ==>
             exists i :: 0 <= i < |p.sent| && p.sent[i].Create? && p.sent[i].block == p.last &&
                 Creations(p.sent[..i + 1]) == Creations(p.sent)
  {
    LastBlockIs(p.sent);
    if Creations(p.sent) > 0 {
      var i := LastCreation(p.sent);
      assert NumberedAt(p.sent, i);
      assert p.sent[..i + 1] == p.sent[..i] + [p.sent[i]];
      CreationsStep(p.sent[..i], p.sent[i]);
    }
  }

  /** The block of the last creation since the last reset, 0 when there was none. */
  function LastBlock(ops: seq<EffectOp>): (b: Byte) {
    if ops == [] then 0
    else
      var op := ops[|ops| - 1];
      if op == Control(Reset) then 0 else if op.Create? then op.block else LastBlock(ops[..|ops| - 1])
  }

  lemma {:induction false} LastBlockIs(ops: seq<EffectOp>)
    requires Numbered(ops)
    ensures LastBlock(ops) == Creations(ops) % U8
  {
    if ops != [] {
      var n := |ops| - 1;
      NumberedPrefix(ops, n);
      assert NumberedAt(ops, n);
      assert ops == ops[..n] + [ops[n]];
      CreationsStep(ops[..n], ops[n]);
      LastBlockIs(ops[..n]);
    }
  }

  lemma {:induction false} LastCreation(ops: seq<EffectOp>) returns (i: nat)
    requires Creations(ops) > 0
    ensures i < |ops| && ops[i].Create? && Creations(ops[..i + 1]) == Creations(ops)
  {
    var n := |ops| - 1;
    assert ops == ops[..n] + [ops[n]];
    CreationsStep(ops[..n], ops[n]);
    if ops[n].Create? {
      i := n;
      assert ops[..i + 1] == ops;
    } else {
      hide Creations;
      i := LastCreation(ops[..n]);
      assert ops[..n][..i + 1] == ops[..i + 1];
    }
  }

  // ------------------------------------------------------------ in place

  class Host {
    var nextBlock: Byte
    var lastCreated: Byte
    /** The channel to the worker. */
    var channel: seq<EffectOp>

    function View(): (p: Loop)
      reads this
    {
      Loop(nextBlock, lastCreated, channel)
    }

    constructor ()
      ensures View() == STARTED && LoopSound(View())
    {
      nextBlock, lastCreated, channel := 1, 0, [];
    }

    method AssignBlock() returns (block: Byte)
      modifies this`nextBlock
      ensures block == old(nextBlock) && nextBlock == (old(nextBlock) as int + 1) % U8
    {
      block := nextBlock;
      nextBlock := (nextBlock as int + 1) % U8;
    }

    method Dispatch(op: EffectOp)
      modifies this
      ensures View() == Dispatched(old(View()), op)
    {
      if op == Control(Reset) {
        nextBlock := 1;
        lastCreated := 0;
      }
      channel := channel + [op];
    }

    /** Set_Report for 0x54: a creation, numbered by the device. */
    method OnCreate(data: seq<Byte>)
      requires LoopSound(View())
      modifies this
      ensures View() == CreateRequested(old(View()), data) && LoopSound(View())
    {
      hide LoopSound, KindOfByte;
      CreateKeepsSound(View(), data);
      if |data| >= 2 && KindOfByte(data[1]).Some? {
        var block := AssignBlock();
        lastCreated := block;
        Dispatch(Create(block, KindOfByte(data[1]).value));
      }
    }

    /** Any other output or feature report. */
    method OnReport(bytes: seq<Byte>)
      requires LoopSound(View())
      modifies this
      ensures View() == Reported(old(View()), bytes) && LoopSound(View())
    {
      ReportKeepsSound(View(), bytes);
      var op := Decode(bytes);
      if op.Some? {
        Dispatch(op.value);
      }
    }

    /** Get_Report for 0x56: the host learns which block the creation it last asked for was given. */
    method OnBlockLoad() returns (reply: seq<Byte>)
      requires LoopSound(View())
      ensures |reply| == 5 && reply[0] == REPORT_BLOCK_LOAD && reply[1] == LastBlock(channel)
    {
      ReplyNamesTheLastCreation(View());
      reply := [0x56, lastCreated, 1, 0xff, 0xff];
    }
  }

  /** The worker: every operation in order, errors ignored, then everything taken down. */
  method RunSinkWorker(sink: Sink, channel: seq<EffectOp>, kernel: State -> Answer) returns (ghost log: seq<Entry>)
    requires sink.View() == OPENED && forall s :: Fits(s, kernel(s))
    modifies sink
    ensures Ops(log) == channel && Answered(OPENED, log)
    ensures sink.View() == OPENED
  {
    hide After, Applied, Fits;
    log := [];
    OpenedMirrors();
    assert After(OPENED, []) == OPENED by { NothingApplied(); }
    for i := 0 to |channel|
      invariant Ops(log) == channel[..i] && Answered(OPENED, log)
      invariant sink.View() == After(OPENED, log) && Bound(sink.View())
    {
      var answer := kernel(sink.View());
      ghost var next := log + [Entry(channel[i], answer)];
      AfterStep(log, Entry(channel[i], answer));
      var ok := sink.Apply(channel[i], answer);
      log := next;
    }
    sink.Shutdown();
  }

  lemma NothingApplied()
    ensures After(OPENED, []) == OPENED
  {
  }

  lemma AfterStep(log: seq<Entry>, e: Entry)
    ensures After(OPENED, log + [e]) == Applied(After(OPENED, log), e.op, e.answer).0
    ensures Ops(log + [e]) == Ops(log) + [e.op]
    ensures Answered(OPENED, log) && Fits(After(OPENED, log), e.answer) ==> Answered(OPENED, log + [e])
  {
    hide Applied, Fits;
    var all := log + [e];
    assert all[..|log|] == log;
    assert forall i :: 0 <= i <= |log| ==> all[..i] == log[..i];
  }
}
