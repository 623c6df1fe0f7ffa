/**
 * The TrueForce sample ring (userspace/libtrueforce/src/stream.c): a 4096-slot
 * array with free-running 32-bit indices, bounded to 512 pending samples by
 * dropping the oldest.
 */
module SampleRing {
  import opened Words

  const RING: int := 4096
  const MAX_PENDING: nat := 512

  /** Offset-binary wire form of one signed sample. */
  function ToWire(s: Int16): (w: Word16)
    ensures w - CENTRE == s
  {
    s + 0x8000
  }

  function WireOf(ss: seq<Int16>): (ws: seq<Word16>)
    ensures |ws| == |ss| && forall i :: 0 <= i < |ss| ==> ws[i] == ToWire(ss[i])
  {
    seq(|ss|, i requires 0 <= i < |ss| => ToWire(ss[i]))
  }

  /** The abstract queue: a push keeps the newest 512 samples. */
  function PushQueue(q: seq<Word16>, ss: seq<Int16>): (q': seq<Word16>)
    ensures |q'| <= MAX_PENDING
  {
    LastN(q + WireOf(ss), MAX_PENDING)
  }

  /** The `n` slots from index `t` on, modulo the allocation. */
  function Slots(d: seq<Word16>, t: nat, n: nat): (q: seq<Word16>)
    requires |d| == RING
    ensures |q| == n
  {
    seq(n, i requires 0 <= i < n => d[(t + i) % RING])
  }

  /** 4096 divides 2^32, so masking survives the index wrap. */
  lemma MaskSurvivesWrap(x: nat)
    ensures x % U32 % RING == x % RING
  {
    var q := x / U32;
    assert x == q * 0x10_0000 * RING + x % U32;
  }

  lemma SlotsDiffer(t: nat, i: nat, n: nat)
    requires i < n < RING
    ensures (t + i) % RING != (t + n) % RING
  {
  }

  lemma SlotsAfterPut(d: seq<Word16>, t: nat, n: nat, w: Word16)
    requires |d| == RING && n + 1 < RING
    ensures Slots(d[(t + n) % RING := w], t, n + 1) == Slots(d, t, n) + [w]
  {
    var d' := d[(t + n) % RING := w];
    forall i | 0 <= i < n
      ensures Slots(d', t, n + 1)[i] == Slots(d, t, n)[i]
    {
      SlotsDiffer(t, i, n);
    }
  }

  lemma SlotsAfterAdvance(d: seq<Word16>, t: nat, n: nat, k: nat)
    requires |d| == RING && k <= n
    ensures Slots(d, (t + k) % U32, n - k) == Slots(d, t, n)[k..]
  {
    var t' := (t + k) % U32;
    var whole, part := Slots(d, t, n)[k..], Slots(d, t', n - k);
    forall i | 0 <= i < |part|
      ensures part[i] == whole[i]
    {
      MaskSurvivesWrap(t + k);
      ModCongruent(t', t + k, i);
    }
  }

  lemma ModCongruent(a: nat, b: nat, i: nat)
    requires a % RING == b % RING
    ensures (a + i) % RING == (b + i) % RING
  {
  }

  /** Trimming an oversized push first does not change what survives the bound. */
  lemma KeptTail(q: seq<Word16>, samples: seq<Int16>, kept: seq<Int16>)
    requires kept == LastN(samples, MAX_PENDING)
    ensures LastN(q + WireOf(kept), MAX_PENDING) == PushQueue(q, samples)
  {
    assert WireOf(kept) == LastN(WireOf(samples), MAX_PENDING);
  }

  /** The producer index `n` slots ahead of the consumer index `tail`. */
  function Ahead(tail: nat, n: nat): (head: nat)
    ensures head < U32
  {
    (tail + n) % U32
  }

  lemma AheadFacts(tail: nat, n: nat)
    requires tail < U32 && n < RING - 1
    ensures (Ahead(tail, n) + 1) % U32 == Ahead(tail, n + 1)
    ensures Ahead(tail, n) % RING == (tail + n) % RING
    ensures (Ahead(tail, n) - tail) % U32 % RING == n
    ensures Ahead(tail, n) == tail <==> n == 0
  {
    MaskSurvivesWrap(tail + n);
  }

  lemma AheadAfterAdvance(tail: nat, n: nat, k: nat)
    requires tail < U32 && k <= n < RING
    ensures Ahead((tail + k) % U32, n - k) == Ahead(tail, n)
  {
  }

  // ---------------------------------------------------------------- the accounts

  datatype Op = Push(samples: seq<Int16>) | Drain(want: nat) | Clear | StartStream

  /**
   * The queue with its bookkeeping: everything that ever arrived, how much of it left
   * by each door, and how much had been dropped when the stream last started.
   */
  datatype Ledger = Ledger(
    queue: seq<Word16>, arrived: seq<Word16>, drained: nat, dropped: nat, cleared: nat, droppedBefore: nat)
  {
    function Left(): (n: nat) {
      drained + dropped + cleared
    }
  }

  const EMPTY := Ledger([], [], 0, 0, 0, 0)

  function Apply(l: Ledger, op: Op): (l': Ledger) {
    match op
    case Push(ss) =>
      var q := PushQueue(l.queue, ss);
      l.(queue := q, arrived := l.arrived + WireOf(ss), dropped := l.dropped + |l.queue| + |ss| - |q|)
    case Drain(want) =>
      var n := Min(want, |l.queue|);
      l.(queue := l.queue[n..], drained := l.drained + n)
    case Clear =>
      l.(queue := [], cleared := l.cleared + |l.queue|)
    case StartStream =>
      l.(droppedBefore := l.dropped)
  }

  class Ring {
    const data: array<Word16>
    var head: nat
    var tail: nat
    var dropped: nat
    /** How far apart the indices are, wrap-around included. */
    ghost var count: nat

    ghost predicate Spans()
      reads this
    {
      data.Length == RING && count < RING - 1 && tail < U32 && head == Ahead(tail, count)
    }

    ghost predicate Valid()
      reads this
    {
      Spans() && count <= MAX_PENDING
    }

    ghost function Queue(): (q: seq<Word16>)
      requires Spans()
      reads this, data
      ensures |q| == count && forall i :: 0 <= i < count ==> q[i] == data[(tail + i) % RING]
    {
      Slots(data[..], tail, count)
    }

    /** The ring is where these accounts say, and reports the drops since the stream started. */
    ghost predicate Keeps(l: Ledger)
      requires Spans()
      reads this, data
    {
      l.queue == Queue() && dropped == l.dropped - l.droppedBefore
    }

    constructor ()
      ensures Valid() && fresh(data) && Queue() == [] && dropped == 0 && Keeps(EMPTY)
    {
      data := new Word16[RING](_ => 0);
      head, tail, dropped, count := 0, 0, 0, 0;
    }

    /** One slot written and the producer index advanced. */
    method Put(w: Word16)
      requires Spans() && count + 2 < RING
      modifies this`head, this`count, data
      ensures Spans() && Queue() == old(Queue()) + [w]
    {
      AheadFacts(tail, count);
      SlotsAfterPut(data[..], tail, count, w);
      data[head % RING] := w;
      head := (head + 1) % U32;
      count := count + 1;
    }

    /** The consumer index moved past the oldest `k` samples. */
    method Skip(k: nat)
      requires Spans() && k <= count
      modifies this`tail, this`count
      ensures Spans() && Queue() == old(Queue())[k..]
    {
      AheadAfterAdvance(tail, count, k);
      SlotsAfterAdvance(data[..], tail, count, k);
      tail := (tail + k) % U32;
      count := count - k;
    }

    method PutAll(samples: seq<Int16>)
      requires Valid() && |samples| <= MAX_PENDING
      modifies this`head, this`count, data
      ensures Spans() && Queue() == old(Queue()) + WireOf(samples)
    {
      ghost var q0 := Queue();
      for i := 0 to |samples|
        invariant Spans() && count == |q0| + i
        invariant Queue() == q0 + WireOf(samples)[..i]
      {
        Put(ToWire(samples[i]));
        assert WireOf(samples)[..i + 1] == WireOf(samples)[..i] + [ToWire(samples[i])];
      }
      assert WireOf(samples)[..|samples|] == WireOf(samples);
    }

    method Push(samples: seq<Int16>)
      requires Valid()
      modifies this, data
      ensures Valid()
      ensures Queue() == PushQueue(old(Queue()), samples)
      ensures dropped == old(dropped) + |old(Queue())| + |samples| - |Queue()|
    {
      ghost var q0 := Queue();
      var kept := samples;
      if |kept| > MAX_PENDING {
        var over := |kept| - MAX_PENDING;
        kept := kept[over..];
        dropped := dropped + over;
      }
      PutAll(kept);
      KeptTail(q0, samples, kept);
      AheadFacts(tail, count);
      var occupied := (head - tail) % U32 % RING;
      if occupied > MAX_PENDING {
        var over := occupied - MAX_PENDING;
        Skip(over);
        dropped := dropped + over;
      }
    }

    method Clear()
      requires Valid()
      modifies this`tail, this`count
      ensures Valid() && Queue() == []
    {
      tail, count := head, 0;
    }

    /** The drop report starts over with the stream. */
    method ResetDropped()
      requires Valid()
      modifies this`dropped
      ensures Valid() && Queue() == old(Queue()) && dropped == 0
    {
      dropped := 0;
    }

    /** Each call books exactly its own entry. */
    method Do(op: Op, ghost l: Ledger)
      requires Valid() && Keeps(l)
      modifies this, data
      ensures Valid() && Keeps(Apply(l, op))
    {
      match op
      case Push(samples) => Push(samples);
      case Drain(want) => var _ := Drain(want);
      case Clear => Clear();
      case StartStream => ResetDropped();
    }

    /** Take up to `want` samples off the tail. */
    method Drain(want: nat) returns (out: seq<Word16>)
      requires Valid()
      modifies this`tail, this`count
      ensures Valid()
      ensures out == old(Queue())[..Min(want, |old(Queue())|)]
      ensures Queue() == old(Queue())[|out|..]
    {
      ghost var q0 := Queue();
      out := [];
      AheadFacts(tail, count);
      while |out| < want && tail != head
        invariant Valid() && |out| <= want && |out| + count == |q0|
        invariant out == q0[..|out|] && Queue() == q0[|out|..]
        invariant tail == head <==> count == 0
      {
        assert Queue()[0] == data[tail % RING];
        out := out + [data[tail % RING]];
        Skip(1);
        AheadFacts(tail, count);
      }
    }
  }

  // ---------------------------------------------------------------- whole runs

  /** Any operations on a ring, in order: the accounts of the run are the ring's. */
  method Perform(ring: Ring, ops: seq<Op>, ghost l: Ledger)
    requires ring.Valid() && ring.Keeps(l) && Balanced(l)
    modifies ring, ring.data
    ensures ring.Valid() && ring.Keeps(Run(l, ops)) && Balanced(Run(l, ops))
  {
    ghost var now := l;
    for i := 0 to |ops|
      invariant ring.Valid() && now == Run(l, ops[..i]) && ring.Keeps(now)
    {
      assert ops[..i + 1][..i] == ops[..i];
      ring.Do(ops[i], now);
      now := Apply(now, ops[i]);
    }
    assert ops[..|ops|] == ops;
    NothingIsLostUncounted(l, ops);
  }

  function Run(l: Ledger, ops: seq<Op>): (l': Ledger) {
    if ops == [] then l else Apply(Run(l, ops[..|ops| - 1]), ops[|ops| - 1])
  }

  /** Every sample that arrived left by exactly one door or is still queued, in arrival order. */
  ghost predicate Balanced(l: Ledger) {
    && |l.queue| <= MAX_PENDING
    && l.Left() + |l.queue| == |l.arrived|
    && l.queue == l.arrived[l.Left()..]
  }

  lemma ApplyKeepsBalance(l: Ledger, op: Op)
    requires Balanced(l)
    ensures Balanced(Apply(l, op))
    ensures Apply(l, op).Left() >= l.Left()
    ensures l.arrived <= Apply(l, op).arrived
  {
    var l' := Apply(l, op);
    match op
    case Push(ss) =>
      assert l.queue + WireOf(ss) == l'.arrived[l.Left()..];
    case Drain(want) =>
    case Clear =>
    case StartStream =>
  }

  /** A push drops nothing unless the queue would hold more than 512, and then no more than it must. */
  lemma PushDropsOnlyTheOverflow(l: Ledger, samples: seq<Int16>)
    requires Balanced(l)
    ensures var l' := Apply(l, Push(samples));
            && |l'.queue| == Min(512, |l.queue| + |samples|)
            && l'.dropped - l.dropped == if |l.queue| + |samples| > 512 then |l.queue| + |samples| - 512 else 0
    ensures var q := Apply(l, Push(samples)).queue;
            forall k :: 0 <= k < |q| && |q| - |samples| <= k ==> q[k] == samples[k + |samples| - |q|] as int + 0x8000
  {
  }

  /** pushed = drained + dropped + cleared + queued, over every run. */
  lemma {:induction false} NothingIsLostUncounted(l: Ledger, ops: seq<Op>)
    requires Balanced(l)
    ensures Balanced(Run(l, ops))
    ensures Run(l, ops).Left() >= l.Left()
    ensures l.arrived <= Run(l, ops).arrived
  {
    if ops != [] {
      var k := |ops| - 1;
      NothingIsLostUncounted(l, ops[..k]);
      ApplyKeepsBalance(Run(l, ops[..k]), ops[k]);
    }
  }

  /** From an empty ring: nothing ever leaves the accounts. */
  lemma EmptyRunIsBalanced(ops: seq<Op>)
    ensures Balanced(Run(EMPTY, ops))
  {
    NothingIsLostUncounted(EMPTY, ops);
  }

  /** Drains of at least one packet's worth, four samples. */
  function Ticks(ops: seq<Op>): (n: nat) {
    if ops == [] then 0
    else Ticks(ops[..|ops| - 1]) + if ops[|ops| - 1].Drain? && ops[|ops| - 1].want >= 4 then 1 else 0
  }

  lemma {:induction false} TicksPushOut(l: Ledger, ops: seq<Op>)
    requires Balanced(l)
    ensures Run(l, ops).Left() >= Min(|l.arrived|, l.Left() + 4 * Ticks(ops))
  {
    NothingIsLostUncounted(l, ops);
    if ops != [] {
      var k := |ops| - 1;
      TicksPushOut(l, ops[..k]);
      NothingIsLostUncounted(l, ops[..k]);
      ApplyKeepsBalance(Run(l, ops[..k]), ops[k]);
    }
  }

  /** Whatever is pushed or cleared meanwhile, 128 ticks empty the ring of everything queued now. */
  lemma QueuedSamplesLeaveWithin128Ticks(l: Ledger, ops: seq<Op>)
    requires Balanced(l) && Ticks(ops) >= 128
    ensures Run(l, ops).Left() >= |l.arrived|
  {
    TicksPushOut(l, ops);
  }
}
