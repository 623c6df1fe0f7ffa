/**
 * The sample-debt pacer of the engine-texture merge
 * (mainline/hidpp_dd_texture_merge.h): how many samples may be spliced by when.
 * Times are in nanoseconds, debts in 1/256 of a sample.
 */
module TexturePacer {
  import opened Words

  const FS: int := 4000
  const BLOCK: int := 4
  const SECOND: int := 1_000_000_000
  const MILLISECOND: int := 1_000_000
  const DEBT_CAP: int := 16 * 256

  datatype Pacer = Pacer(debt: int, last: int) {
    /** What every call leaves behind. */
    predicate Valid() {
      0 <= debt <= DEBT_CAP - BLOCK * 256
    }
  }

  /** What dt nanoseconds earn, rounded down. */
  function Earned(dt: int): (q8: int)
    requires dt >= 0
  {
    var capped := if dt > SECOND then SECOND else dt;
    capped * FS * 256 / SECOND
  }

  /** Debt before the decision to splice. */
  function Owed(p: Pacer, now: int): (q8: int) {
    if now > p.last then Min(p.debt + Earned(now - p.last), DEBT_CAP) else p.debt
  }

  function Paced(p: Pacer, now: int): (r: (Pacer, nat))
    requires p.Valid()
    ensures r.0.Valid()
  {
    var owed := Owed(p, now);
    if owed < BLOCK * 256 then (Pacer(owed, now), 0) else (Pacer(owed - BLOCK * 256, now), BLOCK)
  }

  // ------------------------------------------------------------ runs of paced calls

  function After(p: Pacer, nows: seq<int>): (r: Pacer)
    requires p.Valid()
    ensures r.Valid() && (nows != [] ==> r.last == nows[|nows| - 1])
  {
    if nows == [] then p else Paced(After(p, nows[..|nows| - 1]), nows[|nows| - 1]).0
  }

  function Samples(p: Pacer, nows: seq<int>): (n: nat)
    requires p.Valid()
  {
    if nows == [] then 0 else Samples(p, nows[..|nows| - 1]) + Paced(After(p, nows[..|nows| - 1]), nows[|nows| - 1]).1
  }

  /** The time before call i. */
  function Before(from: int, nows: seq<int>, i: nat): (t: int)
    requires i <= |nows|
  {
    if i == 0 then from else nows[i - 1]
  }

  predicate Rising(from: int, nows: seq<int>) {
    forall i :: 0 <= i < |nows| ==> Before(from, nows, i) <= nows[i]
  }

  predicate Brisk(from: int, nows: seq<int>) {
    forall i :: 0 <= i < |nows| ==> nows[i] <= Before(from, nows, i) + MILLISECOND
  }

  lemma Prefix(from: int, nows: seq<int>, n: nat)
    requires n <= |nows|
    ensures Rising(from, nows) ==> Rising(from, nows[..n])
    ensures Brisk(from, nows) ==> Brisk(from, nows[..n])
    ensures forall i :: 0 <= i <= n ==> Before(from, nows[..n], i) == Before(from, nows, i)
  {
    assert forall i :: 0 <= i <= n ==> Before(from, nows[..n], i) == Before(from, nows, i);
  }

  lemma EarnedBounds(dt: int)
    requires 0 <= dt
    ensures SECOND * Earned(dt) <= FS * 256 * dt
    ensures dt <= SECOND ==> FS * 256 * dt < SECOND * (Earned(dt) + 1)
    ensures dt <= MILLISECOND ==> Earned(dt) <= 1024
  {
  }

  /** One call never hands out more than was owed and earned. */
  lemma PacedIsBounded(p: Pacer, now: int)
    requires p.Valid() && p.last <= now
    ensures var (p', n) := Paced(p, now);
            SECOND * (256 * n + p'.debt) <= SECOND * p.debt + FS * 256 * (now - p.last)
  {
    EarnedBounds(now - p.last);
    hide Earned;
  }

  /** However the calls fall, samples come at FS plus what was owed at the start. */
  lemma {:induction false} SamplesBoundedByTime(p: Pacer, nows: seq<int>)
    requires p.Valid() && Rising(p.last, nows)
    ensures SECOND * (256 * Samples(p, nows) + After(p, nows).debt) <=
            SECOND * p.debt + FS * 256 * (After(p, nows).last - p.last)
    decreases |nows|
  {
    if nows != [] {
      var before := nows[..|nows| - 1];
      Prefix(p.last, nows, |nows| - 1);
      assert Before(p.last, nows, |nows| - 1) == After(p, before).last;
      SamplesBoundedByTime(p, before);
      PacedIsBounded(After(p, before), nows[|nows| - 1]);
      hide Paced;
    }
  }

  /** After any paced call, at most twelve samples more than 4000 a second. */
  lemma AtMostTwelveAhead(p: Pacer, nows: seq<int>)
    requires p.Valid() && Rising(p.last, nows)
    ensures Samples(p, nows) * SECOND <= 12 * SECOND + FS * (After(p, nows).last - p.last)
  {
    SamplesBoundedByTime(p, nows);
  }

  /** Calls at most a millisecond apart lose nothing to the cap, and never let the debt grow past a block. */
  lemma BriskCall(p: Pacer, now: int)
    requires p.Valid() && p.last <= now <= p.last + MILLISECOND
    ensures now > p.last ==> p.debt + Earned(now - p.last) <= DEBT_CAP
    ensures var (p', n) := Paced(p, now);
            && SECOND * (256 * n + p'.debt + 1) > SECOND * p.debt + FS * 256 * (now - p.last)
            && (p'.debt <= p.debt || p'.debt < BLOCK * 256)
  {
    EarnedBounds(now - p.last);
    hide Earned;
  }

  lemma {:induction false} BriskCallsKeepUp(p: Pacer, nows: seq<int>)
    requires p.Valid() && Rising(p.last, nows) && Brisk(p.last, nows)
    ensures nows != [] ==>
              SECOND * (256 * Samples(p, nows) + After(p, nows).debt + |nows|) >
              SECOND * p.debt + FS * 256 * (After(p, nows).last - p.last)
    ensures After(p, nows).debt <= p.debt || After(p, nows).debt < BLOCK * 256
    decreases |nows|
  {
    if nows != [] {
      var before := nows[..|nows| - 1];
      Prefix(p.last, nows, |nows| - 1);
      assert Before(p.last, nows, |nows| - 1) == After(p, before).last;
      BriskCallsKeepUp(p, before);
      BriskCall(After(p, before), nows[|nows| - 1]);
      hide Paced;
    }
  }

  /** The shortfall against 4000 a second stays under four samples plus 1/256 of a sample a call. */
  lemma ShortfallIsBounded(p: Pacer, nows: seq<int>)
    requires p.Valid() && Rising(p.last, nows) && Brisk(p.last, nows) && nows != []
    ensures FS * 256 * (After(p, nows).last - p.last) < SECOND * (256 * Samples(p, nows) + 256 * BLOCK + |nows|)
  {
    BriskCallsKeepUp(p, nows);
  }

  /** No brisk call loses debt to the cap: the cap is where the difference to an uncapped pacer would be. */
  lemma {:induction false} BriskCallsDiscardNothing(p: Pacer, nows: seq<int>, i: nat)
    requires p.Valid() && Rising(p.last, nows) && Brisk(p.last, nows) && i < |nows|
    ensures var q := After(p, nows[..i]);
            Owed(q, nows[i]) == q.debt + if nows[i] > q.last then Earned(nows[i] - q.last) else 0
  {
    var q := After(p, nows[..i]);
    assert Before(p.last, nows, i) == q.last;
    BriskCall(q, nows[i]);
  }

  lemma {:induction false} SamplesFromTheFront(p: Pacer, now: int, nows: seq<int>)
    requires p.Valid()
    ensures Samples(p, [now] + nows) == Paced(p, now).1 + Samples(Paced(p, now).0, nows)
    ensures After(p, [now] + nows) == After(Paced(p, now).0, nows)
    decreases |nows|
  {
    hide Paced;
    var all := [now] + nows;
    if nows == [] {
      assert all[..|all| - 1] == [];
      assert After(p, []) == p && Samples(p, []) == 0;
    } else {
      assert all[..|all| - 1] == [now] + nows[..|nows| - 1];
      SamplesFromTheFront(p, now, nows[..|nows| - 1]);
    }
  }

  /** The very first call, from a zeroed structure, always splices, and owes what it may. */
  lemma FirstCallSplices(now: int)
    requires now >= SECOND
    ensures Paced(Pacer(0, 0), now) == (Pacer(DEBT_CAP - BLOCK * 256, now), 4)
  {
  }

  /** From a zeroed structure: the first block, and from then on at most twelve samples and 4000 a second. */
  lemma AtMostSixteenAheadFromZero(now: int, nows: seq<int>)
    requires now >= SECOND && Rising(now, nows)
    ensures var p := Pacer(0, 0);
            Samples(p, [now] + nows) * SECOND <= 16 * SECOND + FS * (After(p, [now] + nows).last - now)
  {
    SamplesFromTheFront(Pacer(0, 0), now, nows);
    FirstCallSplices(now);
    AtMostTwelveAhead(Pacer(DEBT_CAP - BLOCK * 256, now), nows);
  }
}
