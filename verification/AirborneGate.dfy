/**
 * The decaying trust in the wheel-load telemetry
 * (userspace/logi-wheel/crates/logi-tf-relay/src/assettocorsa.rs).
 */
module AirborneGate {

  const GATE_DECAY_SAMPLES: nat := 60
  const WHEEL_LOAD_EPSILON: real := 1.0

  /** One wheel-load field as read from shared memory. */
  datatype Load = NonFinite | Finite(newtons: real)

  /** A physics read: too short to reach the loads, or carrying all four. */
  datatype Physics = Short | Block(loads: seq<Load>) {
    predicate Valid() {
      Block? ==> |loads| == 4
    }
  }

  /** What one read says. */
  datatype Verdict = Invalid | Loaded | Unloaded

  function Carries(l: Load): (b: bool) {
    l.Finite? && l.newtons > WHEEL_LOAD_EPSILON
  }

  ghost function Judge(p: Physics): (v: Verdict) {
    if p.Short? || NonFinite in p.loads then Invalid
    else if exists i :: 0 <= i < |p.loads| && Carries(p.loads[i]) then Loaded
    else Unloaded
  }

  /** All four loads are numbers and none is above a newton. */
  ghost predicate Aloft(p: Physics) {
    p.Block? && forall i :: 0 <= i < |p.loads| ==> p.loads[i].Finite? && p.loads[i].newtons <= 1.0
  }

  /** All four loads are numbers and some wheel bears more than a newton. */
  ghost predicate Grounded(p: Physics) {
    p.Block? && (forall i :: 0 <= i < |p.loads| ==> p.loads[i].Finite?) &&
        exists i :: 0 <= i < |p.loads| && p.loads[i].newtons > 1.0
  }

  lemma JudgeTellsAloftFromGrounded(p: Physics)
    ensures Judge(p).Unloaded? <==> Aloft(p)
    ensures Judge(p).Loaded? <==> Grounded(p)
  {
    if p.Block? && NonFinite !in p.loads {
      assert forall i :: 0 <= i < |p.loads| ==> p.loads[i] in p.loads;
      assert forall i :: 0 <= i < |p.loads| ==> (Carries(p.loads[i]) <==> p.loads[i].newtons > 1.0);
    }
  }

  /** The credit left after one more verdict. */
  function Spend(credit: nat, v: Verdict): (credit': nat) {
    match v
    case Invalid => credit
    case Loaded => GATE_DECAY_SAMPLES
    case Unloaded => if credit == 0 then 0 else credit - 1
  }

  /** The credit a fresh gate holds after a history. */
  function Credit(h: seq<Verdict>): (credit: nat) {
    if h == [] then 0 else Spend(Credit(h[..|h| - 1]), h[|h| - 1])
  }

  /** The answer a gate with this history gives to the next read. */
  function Answer(h: seq<Verdict>, now: Verdict): (airborne: bool) {
    now.Unloaded? && Credit(h) > 0
  }

  class Gate {
    var loadedCredit: nat

    constructor ()
      ensures loadedCredit == Credit([])
    {
      loadedCredit := 0;
    }

    method Airborne(p: Physics) returns (airborne: bool)
      requires p.Valid()
      modifies this
      ensures loadedCredit == Spend(old(loadedCredit), Judge(p))
      ensures airborne <==> Aloft(p) && old(loadedCredit) > 0
    {
      JudgeTellsAloftFromGrounded(p);
      if p.Short? {
        return false;
      }
      var loaded := 0;
      for i := 0 to 4
        invariant NonFinite !in p.loads[..i]
        invariant 0 <= loaded <= i
        invariant loaded > 0 <==> exists k :: 0 <= k < i && Carries(p.loads[k])
      {
        if p.loads[i].NonFinite? {
          return false;
        }
        if p.loads[i].newtons > WHEEL_LOAD_EPSILON {
          assert Carries(p.loads[i]);
          loaded := loaded + 1;
        }
      }
      assert p.loads[..4] == p.loads;
      if loaded > 0 {
        loadedCredit := GATE_DECAY_SAMPLES;
        return false;
      }
      if loadedCredit == 0 {
        return false;
      }
      loadedCredit := loadedCredit - 1;
      return true;
    }
  }

  // ------------------------------------------------------------ whole histories

  function CountUnloaded(h: seq<Verdict>): (n: nat) {
    if h == [] then 0
    else CountUnloaded(h[..|h| - 1]) + if h[|h| - 1].Unloaded? then 1 else 0
  }

  /** `j` is the latest read that carried load. */
  ghost predicate LatestLoad(h: seq<Verdict>, j: int) {
    0 <= j < |h| && h[j].Loaded? && forall k :: j < k < |h| ==> !h[k].Loaded?
  }

  /** Without any load the credit is nil; otherwise it is 60 less the unloaded reads since. */
  lemma {:induction false} CreditOfHistory(h: seq<Verdict>)
    ensures (forall k :: 0 <= k < |h| ==> !h[k].Loaded?) ==> Credit(h) == 0
    ensures forall j :: LatestLoad(h, j) ==>
                          Credit(h) == if CountUnloaded(h[j + 1..]) >= GATE_DECAY_SAMPLES then 0
                                       else GATE_DECAY_SAMPLES - CountUnloaded(h[j + 1..])
  {
    if h != [] {
      var n := |h| - 1;
      var past := h[..n];
      CreditOfHistory(past);
      forall j | LatestLoad(h, j)
        ensures Credit(h) == if CountUnloaded(h[j + 1..]) >= GATE_DECAY_SAMPLES then 0
                             else GATE_DECAY_SAMPLES - CountUnloaded(h[j + 1..])
      {
        if j < n {
          assert LatestLoad(past, j);
          assert h[j + 1..][..|h[j + 1..]| - 1] == past[j + 1..];
        }
      }
    }
  }

  /**
   * On any history the gate says "airborne" exactly when this read is valid and
   * carries nothing, some earlier read carried load, and fewer than 60 valid
   * unloaded reads have gone by since the latest such one.
   */
  lemma AirborneIffRecentlyLoaded(h: seq<Verdict>, now: Verdict)
    ensures Answer(h, now) <==>
            now.Unloaded? && exists j :: LatestLoad(h, j) && CountUnloaded(h[j + 1..]) < GATE_DECAY_SAMPLES
  {
    CreditOfHistory(h);
    if exists k :: 0 <= k < |h| && h[k].Loaded? {
      var j := FindLatest(h);
      assert forall i :: LatestLoad(h, i) ==> i == j;
    }
  }

  lemma {:induction false} FindLatest(h: seq<Verdict>) returns (j: int)
    requires exists k :: 0 <= k < |h| && h[k].Loaded?
    ensures LatestLoad(h, j)
  {
    j := |h| - 1;
    while !h[j].Loaded?
      invariant 0 <= j < |h|
      invariant forall k :: j < k < |h| ==> !h[k].Loaded?
      decreases j
    {
      j := j - 1;
    }
  }

  ghost function Verdicts(blocks: seq<Physics>): (h: seq<Verdict>)
    ensures |h| == |blocks|
  {
    seq(|blocks|, i requires 0 <= i < |blocks| => Judge(blocks[i]))
  }

  ghost function CountAloft(blocks: seq<Physics>): (n: nat) {
    if blocks == [] then 0
    else CountAloft(blocks[..|blocks| - 1]) + if Aloft(blocks[|blocks| - 1]) then 1 else 0
  }

  lemma {:induction false} CountsAgree(blocks: seq<Physics>)
    ensures CountUnloaded(Verdicts(blocks)) == CountAloft(blocks)
  {
    if blocks != [] {
      var past := blocks[..|blocks| - 1];
      CountsAgree(past);
      JudgeTellsAloftFromGrounded(blocks[|blocks| - 1]);
      assert Verdicts(blocks)[..|past|] == Verdicts(past);
      hide Judge, Aloft;
    }
  }

  ghost predicate LastGrounded(blocks: seq<Physics>, j: int) {
    0 <= j < |blocks| && Grounded(blocks[j]) && forall k :: j < k < |blocks| ==> !Grounded(blocks[k])
  }

  lemma LatestLoadIsLastGrounded(blocks: seq<Physics>, j: int)
    ensures LatestLoad(Verdicts(blocks), j) <==> LastGrounded(blocks, j)
    ensures 0 <= j < |blocks| ==> CountUnloaded(Verdicts(blocks)[j + 1..]) == CountAloft(blocks[j + 1..])
  {
    forall k | 0 <= k < |blocks| ensures Verdicts(blocks)[k].Loaded? <==> Grounded(blocks[k]) {
      JudgeTellsAloftFromGrounded(blocks[k]);
    }
    if 0 <= j < |blocks| {
      CountsAgree(blocks[j + 1..]);
      assert Verdicts(blocks)[j + 1..] == Verdicts(blocks[j + 1..]);
    }
    hide Judge, Grounded;
  }

  /**
   * In terms of the loads themselves, after any reads: "airborne" is the answer to
   * four unloaded wheels exactly when some read had a loaded one and fewer than 60 reads
   * of four unloaded wheels have followed the last such; a short or non-finite read
   * neither counts nor resets.
   */
  lemma AirborneIffLastGroundedRecently(blocks: seq<Physics>, now: Physics)
    ensures Answer(Verdicts(blocks), Judge(now)) <==>
            Aloft(now) && exists j :: LastGrounded(blocks, j) && CountAloft(blocks[j + 1..]) < 60
  {
    var h := Verdicts(blocks);
    hide Judge, Aloft, LatestLoad, LastGrounded, Answer;
    JudgeTellsAloftFromGrounded(now);
    AirborneIffRecentlyLoaded(h, Judge(now));
    forall j ensures LatestLoad(h, j) <==> LastGrounded(blocks, j)
             ensures LatestLoad(h, j) ==> 0 <= j < |blocks| &&
                                          CountUnloaded(h[j + 1..]) == CountAloft(blocks[j + 1..]) {
      LatestLoadIsLastGrounded(blocks, j);
      InRange(h, j);
    }
    if j :| LatestLoad(h, j) && CountUnloaded(h[j + 1..]) < 60 {
      assert LastGrounded(blocks, j) && CountAloft(blocks[j + 1..]) < 60;
    }
    if j :| LastGrounded(blocks, j) && CountAloft(blocks[j + 1..]) < 60 {
      assert LatestLoad(h, j) && CountUnloaded(h[j + 1..]) < 60;
    }
  }

  lemma InRange(h: seq<Verdict>, j: int)
    ensures LatestLoad(h, j) ==> 0 <= j < |h|
  {
  }

  function DropInvalid(h: seq<Verdict>): (r: seq<Verdict>) {
    if h == [] then []
    else DropInvalid(h[..|h| - 1]) + if h[|h| - 1].Invalid? then [] else [h[|h| - 1]]
  }

  /** Reads that are short or not finite never change a later answer. */
  lemma {:induction false} InvalidReadsLeaveNoTrace(h: seq<Verdict>, now: Verdict)
    ensures Answer(DropInvalid(h), now) == Answer(h, now)
  {
    CreditWithoutInvalid(h);
  }

  lemma {:induction false} CreditWithoutInvalid(h: seq<Verdict>)
    ensures Credit(DropInvalid(h)) == Credit(h)
  {
    if h != [] {
      var past := h[..|h| - 1];
      CreditWithoutInvalid(past);
      var kept := DropInvalid(past);
      if h[|h| - 1].Invalid? {
        assert kept + [] == kept;
      } else {
        assert (kept + [h[|h| - 1]])[..|kept|] == kept;
      }
    }
  }
}
