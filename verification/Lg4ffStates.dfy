/**
 * The classic wheel's effect states (mainline/dd-lg4ff.c): when an effect plays, what
 * it adds to a tick, and who owns which condition slot. Times are in milliseconds.
 */
module Lg4ffStates {
  import opened Words
  import opened Lg4ffSlots

  const MAX_EFFECTS: nat := 16

  datatype Condition = Condition(centre: int, deadband: nat, left: int, right: int, saturation: nat)

  datatype Effect = Effect(kind: Kind, delay: nat, length: nat, period: nat, condition: Condition)

  const NO_EFFECT: Effect := Effect(NoKind, 0, 0, 0, Condition(0, 0, 0, 0, 0))

  datatype State = State(
    effect: Effect, startAt: int, playAt: int, stopAt: int, updatedAt: int, count: int, slot: nat,
    started: bool, allSet: bool, playing: bool, updating: bool)

  const NO_STATE: State := State(NO_EFFECT, 0, 0, 0, 0, 0, 0, false, false, false, false)

  predicate IsForce(k: Kind) {
    k.Constant? || k.Ramp? || k.Periodic?
  }

  predicate IsCondition(k: Kind) {
    k.Spring? || k.Damper? || k.Friction? || k.Inertia?
  }

  // ------------------------------------------------------------ one effect

  /** All flags down. */
  function Halted(st: State): (r: State) {
    st.(started := false, allSet := false, playing := false, updating := false)
  }

  function UpdateState(st: State, now: int): (r: State) {
    var e := st.effect;
    var s1 :=
      if st.allSet then st
      else st.(allSet := true, playAt := st.startAt + e.delay,
               updatedAt := if st.updating then st.updatedAt else st.startAt + e.delay,
               stopAt := if e.length != 0 then st.startAt + e.delay + e.length else st.stopAt);
    var s2 :=
      if !s1.updating then s1
      else s1.(updating := false, playing := false, playAt := s1.updatedAt + e.delay,
               stopAt := if e.length != 0 then s1.updatedAt + e.length else s1.stopAt);
    if !s2.playing && now >= s2.playAt && (e.length == 0 || now < s2.stopAt) then s2.(playing := true) else s2
  }

  predicate Expires(st: State, now: int) {
    st.started && st.allSet && st.effect.length != 0 && now >= st.stopAt
  }

  /** What a tick does to one effect. */
  function Advance(st: State, now: int): (r: State) {
    if !st.started then st
    else if Expires(st, now) then
      var over := Halted(st).(count := st.count - 1);
      if over.count == 0 then over else UpdateState(over.(started := true, startAt := st.stopAt), now)
    else UpdateState(st, now)
  }

  // ------------------------------------------------------------ what a tick adds up

  predicate Sounds(st: State) {
    st.started && st.playing
  }

  predicate Pushes(st: State) {
    Sounds(st) && IsForce(st.effect.kind)
  }

  predicate Writes(st: State, s: nat) {
    Sounds(st) && IsCondition(st.effect.kind) && st.slot == s && s != 0
  }

  function Written(p: Parameters, e: Effect): (r: Parameters) {
    var c := e.condition;
    var q := p.(k1 := c.left, k2 := c.right, clip := c.saturation);
    if e.kind.Spring? then q.(d1 := c.centre - c.deadband / 2, d2 := c.centre + c.deadband / 2) else q
  }

  /** The sum of the forces that the first n effects push with. */
  function Level(states: seq<State>, levels: nat -> int, n: nat): (sum: int)
    requires n <= |states|
  {
    if n == 0 then 0 else Level(states, levels, n - 1) + if Pushes(states[n - 1]) then levels(n - 1) else 0
  }

  /** What the first n effects leave in condition slot s. */
  function InSlot(states: seq<State>, s: nat, n: nat): (p: Parameters)
    requires n <= |states|
  {
    if n == 0 then ZERO
    else if Writes(states[n - 1], s) then Written(InSlot(states, s, n - 1), states[n - 1].effect)
    else InSlot(states, s, n - 1)
  }

  function Gathered(states: seq<State>, levels: nat -> int, n: nat): (ps: seq<Parameters>)
    requires n <= |states|
    ensures |ps| == SLOTS && ps[0] == ZERO.(level := Level(states, levels, n))
    ensures forall s :: 1 <= s < SLOTS ==> ps[s] == InSlot(states, s, n)
  {
    seq(SLOTS, s requires 0 <= s < SLOTS =>
      if s == 0 then ZERO.(level := Level(states, levels, n)) else InSlot(states, s, n))
  }

  /** The wheel's gain and the module's level parameters. */
  datatype Gains = Gains(master: Word16, wheel: Word16, spring: int, damper: int, friction: int) {
    function Total(): (g: nat)
      ensures g <= 0xffff
    {
      MulLe(master, 0xffff, wheel);
      (master as int * wheel as int) / 0xffff
    }
  }

  function Scaled(p: Parameters, kind: Kind, g: Gains): (r: Parameters) {
    var clip :=
      match kind
      case Spring => (p.clip * g.spring) % U32 / 100
      case Damper => (p.clip * g.damper) % U32 / 100
      case Friction => (p.clip * g.friction) % U32 / 100
      case _ => p.clip;
    p.(k1 := TruncDiv(p.k1 * g.Total(), 0xffff), k2 := TruncDiv(p.k2 * g.Total(), 0xffff),
        clip := (clip * g.Total()) % U32 / 0xffff)
  }

  function AllScaled(ps: seq<Parameters>, slots: seq<Slot>, g: Gains): (r: seq<Parameters>)
    requires |ps| == |slots| == SLOTS
    ensures |r| == SLOTS && r[0] == ps[0].(level := TruncDiv(ps[0].level * g.Total(), 0xffff))
    ensures forall s :: 1 <= s < SLOTS ==> r[s] == Scaled(ps[s], slots[s].kind, g)
  {
    seq(SLOTS, s requires 0 <= s < SLOTS =>
      if s == 0 then ps[0].(level := TruncDiv(ps[0].level * g.Total(), 0xffff)) else Scaled(ps[s], slots[s].kind, g))
  }

  lemma GainShrinks(x: int, g: nat)
    requires g <= 0xffff
    ensures x >= 0 ==> 0 <= TruncDiv(x * g, 0xffff) <= x
    ensures x <= 0 ==> x <= TruncDiv(x * g, 0xffff) <= 0
    ensures g == 0xffff ==> TruncDiv(x * g, 0xffff) == x
  {
    var a: int := Abs(x);
    var q := a * g / 0xffff;
    assert x * g == if x >= 0 then a * g else -(a * g);
    DivBounds(a * g, 0xffff);
    MulLe(0, a, g);
    MulLe(g, 0xffff, a);
    if g == 0xffff { DivOfProduct(a, 0xffff); }
  }

  /** Gains and level parameters never amplify and never turn a sign; at full gain coefficients pass unchanged. */
  lemma GainsNeverAmplify(p: Parameters, kind: Kind, g: Gains)
    requires p.clip <= 0xffff && 0 <= g.spring <= 100 && 0 <= g.damper <= 100 && 0 <= g.friction <= 100
    ensures var r := Scaled(p, kind, g);
            && r.clip <= p.clip
            && (p.k1 >= 0 ==> 0 <= r.k1 <= p.k1) && (p.k1 <= 0 ==> p.k1 <= r.k1 <= 0)
            && (p.k2 >= 0 ==> 0 <= r.k2 <= p.k2) && (p.k2 <= 0 ==> p.k2 <= r.k2 <= 0)
            && (g.Total() == 0xffff ==> r.k1 == p.k1 && r.k2 == p.k2)
  {
    GainShrinks(p.k1, g.Total());
    GainShrinks(p.k2, g.Total());
    LevelShrinks(p.clip, g.spring);
    LevelShrinks(p.clip, g.damper);
    LevelShrinks(p.clip, g.friction);
    var level :=
      if kind.Spring? then g.spring else if kind.Damper? then g.damper else if kind.Friction? then g.friction else 100;
    var clip := if kind.Spring? || kind.Damper? || kind.Friction? then (p.clip * level) % U32 / 100 else p.clip;
    ClipFits(clip, g.Total());
  }

  lemma LevelShrinks(clip: nat, level: nat)
    requires clip <= 0xffff && level <= 100
    ensures 0 <= (clip * level) % U32 / 100 <= clip
  {
    MulLe(0, clip, level);
    MulLe(level, 100, clip);
  }

  lemma ClipFits(clip: nat, g: nat)
    requires clip <= 0xffff && g <= 0xffff
    ensures 0 <= (clip * g) % U32 / 0xffff <= clip
  {
    MulLe(0, clip, g);
    MulLe(g, 0xffff, clip);
  }

  // ------------------------------------------------------------ the whole engine

  datatype Entry = Entry(states: seq<State>, slots: seq<Slot>, used: int, timerOn: bool)

  function Started(states: seq<State>, n: nat): (k: nat)
    requires n <= |states|
    ensures k <= n
  {
    if n == 0 then 0 else Started(states, n - 1) + if states[n - 1].started then 1 else 0
  }

  ghost predicate StateFits(st: State) {
    && (st.started ==> st.count >= 1)
    && (!st.started ==> !st.allSet && !st.playing && !st.updating)
    && (st.updating || st.playing ==> st.started)
    && st.slot < SLOTS
  }

  /** Owner j of a slot in use, and nobody else. */
  ghost predicate SlotsOwned(states: seq<State>, slots: seq<Slot>) {
    && (forall j, k :: 0 <= j < k < |states| && states[j].slot != 0 ==> states[j].slot != states[k].slot)
    && (forall j :: 0 <= j < |states| && 0 < states[j].slot < |slots| ==> !slots[states[j].slot].kind.NoKind?)
    && (forall i :: 1 <= i < |slots| && !slots[i].kind.NoKind? ==> exists j :: 0 <= j < |states| && states[j].slot == i)
  }

  ghost predicate Valid(e: Entry) {
    && |e.states| == MAX_EFFECTS && SlotsFit(e.slots)
    && (forall j :: 0 <= j < MAX_EFFECTS ==> StateFits(e.states[j]))
    && SlotsOwned(e.states, e.slots)
    && e.used == Started(e.states, |e.states|)
    && (e.used > 0 ==> e.timerOn)
  }

  function Uploaded(e: Entry, id: nat, effect: Effect, now: int): (r: (Entry, bool))
    requires id < |e.states|
  {
    var st := e.states[id];
    if (effect.kind.Periodic? && effect.period == 0) || (st.started && effect.kind != st.effect.kind) then (e, false)
    else
      var st1 := st.(effect := effect);
      (e.(states := e.states[id := if st.started then st1.(updating := true, updatedAt := now) else st1]), true)
  }

  /** The lowest condition slot not in use, or 4. */
  function FreeSlot(slots: seq<Slot>): (i: nat)
    requires |slots| == SLOTS
    ensures 1 <= i <= SLOTS && (i < SLOTS ==> slots[i].kind.NoKind?) &&
             forall k :: 1 <= k < i ==> !slots[k].kind.NoKind?
  {
    if slots[1].kind.NoKind? then 1 else if slots[2].kind.NoKind? then 2 else if slots[3].kind.NoKind? then 3 else 4
  }

  function CastKind(k: Kind, capFriction: bool): (r: Kind) {
    if k.Inertia? || (k.Friction? && !capFriction) then Damper else k
  }

  function Played(e: Entry, id: nat, value: int, now: int, capFriction: bool): (r: Entry)
    requires id < |e.states| && |e.slots| == SLOTS
  {
    var st := e.states[id];
    if value > 0 then
      if st.started then
        e.(states := e.states[id := Halted(st).(started := true, startAt := now, count := value)])
      else
        var i := FreeSlot(e.slots);
        var takes := IsCondition(st.effect.kind) && st.slot == 0 && i < SLOTS;
        e.(used := e.used + 1, timerOn := true,
           states := e.states[id := st.(started := true, startAt := now, count := value,
                                        slot := if takes then i else st.slot)],
           slots := if takes then e.slots[i := e.slots[i].(kind := CastKind(st.effect.kind, capFriction))] else e.slots)
    else if st.started then
      e.(used := e.used - 1,
         states := e.states[id := Halted(st).(slot := 0)],
         slots := if 0 < st.slot < SLOTS then e.slots[st.slot := e.slots[st.slot].(kind := NoKind)] else e.slots)
    else e
  }

  function Advanced(states: seq<State>, now: int, n: nat): (r: seq<State>)
    requires n <= |states|
    ensures |r| == |states| &&
             forall j :: 0 <= j < |states| ==> r[j] == if j < n then Advance(states[j], now) else states[j]
  {
    seq(|states|, j requires 0 <= j < |states| => if j < n then Advance(states[j], now) else states[j])
  }

  function TickParameters(e: Entry, now: int, levels: nat -> int, g: Gains): (ps: seq<Parameters>)
    requires |e.slots| == SLOTS
    ensures |ps| == SLOTS
  {
    AllScaled(Gathered(Advanced(e.states, now, |e.states|), levels, |e.states|), e.slots, g)
  }

  /** One timer callback that is not held off by a busy queue. */
  function Ticked(e: Entry, now: int, levels: nat -> int, g: Gains): (r: Entry)
    requires |e.slots| == SLOTS && forall i :: 0 <= i < SLOTS ==> e.slots[i].id == i
  {
    var states := Advanced(e.states, now, |e.states|);
    var used := Started(states, |states|);
    Entry(states, SlotsAfter(e.slots, TickParameters(e, now, levels, g), SLOTS), used, used != 0)
  }

  // ------------------------------------------------------------ what every call keeps

  lemma {:induction false} StartedUpdate(states: seq<State>, id: nat, st: State, n: nat)
    requires id < |states| && n <= |states|
    ensures Started(states[id := st], n) ==
            Started(states, n) +
                if id < n then (if st.started then 1 else 0) - (if states[id].started then 1 else 0) else 0
  {
    if n > 0 {
      StartedUpdate(states, id, st, n - 1);
    }
  }

  lemma {:induction false} StartedMonotone(states: seq<State>, id: nat, n: nat)
    requires id < n <= |states| && states[id].started
    ensures Started(states, n) >= 1
  {
    if id < n - 1 {
      StartedMonotone(states, id, n - 1);
    }
  }

  lemma SameSlotsOwned(states: seq<State>, states': seq<State>, slots: seq<Slot>)
    requires SlotsOwned(states, slots) && |states'| == |states| &&
             forall j :: 0 <= j < |states| ==> states'[j].slot == states[j].slot
    ensures SlotsOwned(states', slots)
  {
    forall i | 1 <= i < |slots| && !slots[i].kind.NoKind?
        ensures exists j :: 0 <= j < |states'| && states'[j].slot == i {
      var j :| 0 <= j < |states| && states[j].slot == i;
      assert states'[j].slot == i;
    }
  }

  lemma TakenSlotIsOwned(states: seq<State>, slots: seq<Slot>, id: nat, st: State, i: nat, slot: Slot)
    requires SlotsOwned(states, slots) && id < |states| && 1 <= i < |slots| && slots[i].kind.NoKind?
    requires states[id].slot == 0 && st.slot == i && !slot.kind.NoKind?
    ensures SlotsOwned(states[id := st], slots[i := slot])
  {
    var states', slots' := states[id := st], slots[i := slot];
    forall k | 1 <= k < |slots'| && !slots'[k].kind.NoKind?
        ensures exists j :: 0 <= j < |states'| && states'[j].slot == k {
      if k == i {
        assert states'[id].slot == i;
      } else {
        var j :| 0 <= j < |states| && states[j].slot == k;
        assert states'[j].slot == k;
      }
    }
  }

  lemma FreedSlotIsUnowned(states: seq<State>, slots: seq<Slot>, id: nat, st: State, slot: Slot)
    requires SlotsOwned(states, slots) && id < |states| && 1 <= states[id].slot < |slots|
    requires st.slot == 0 && slot.kind.NoKind?
    ensures SlotsOwned(states[id := st], slots[states[id].slot := slot])
  {
    var states', slots' := states[id := st], slots[states[id].slot := slot];
    forall k | 1 <= k < |slots'| && !slots'[k].kind.NoKind?
        ensures exists j :: 0 <= j < |states'| && states'[j].slot == k {
      var j :| 0 <= j < |states| && states[j].slot == k;
      assert states'[j].slot == k;
    }
  }

  lemma UploadKeepsValid(e: Entry, id: nat, effect: Effect, now: int)
    requires Valid(e) && id < MAX_EFFECTS
    ensures Valid(Uploaded(e, id, effect, now).0)
  {
    hide SlotsOwned;
    var r := Uploaded(e, id, effect, now).0;
    StartedUpdate(e.states, id, r.states[id], |e.states|);
    assert r.states == e.states[id := r.states[id]];
    SameSlotsOwned(e.states, r.states, e.slots);
  }

  lemma PlayKeepsValid(e: Entry, id: nat, value: int, now: int, capFriction: bool)
    requires Valid(e) && id < MAX_EFFECTS
    ensures Valid(Played(e, id, value, now, capFriction))
  {
    hide SlotsOwned;
    var st := e.states[id];
    var r := Played(e, id, value, now, capFriction);
    StartedUpdate(e.states, id, r.states[id], |e.states|);
    assert r.states == e.states[id := r.states[id]];
    if st.slot == r.states[id].slot {
      SameSlotsOwned(e.states, r.states, e.slots);
    } else if value > 0 {
      var i := FreeSlot(e.slots);
      TakenSlotIsOwned(e.states, e.slots, id, r.states[id], i, r.slots[i]);
    } else {
      FreedSlotIsUnowned(e.states, e.slots, id, r.states[id], r.slots[st.slot]);
    }
  }

  lemma AdvanceFits(st: State, now: int)
    requires StateFits(st)
    ensures StateFits(Advance(st, now)) && Advance(st, now).slot == st.slot && (Advance(st, now).started ==> st.started)
  {
  }

  lemma TickKeepsValid(e: Entry, now: int, levels: nat -> int, g: Gains)
    requires Valid(e)
    ensures Valid(Ticked(e, now, levels, g))
  {
    hide UpdateState, SlotsOwned;
    var r := Ticked(e, now, levels, g);
    forall j | 0 <= j < MAX_EFFECTS ensures StateFits(r.states[j]) && r.states[j].slot == e.states[j].slot {
      AdvanceFits(e.states[j], now);
    }
    SameSlotsOwned(e.states, r.states, e.slots);
    SameKindsOwned(r.states, e.slots, r.slots);
  }

  lemma SameKindsOwned(states: seq<State>, slots: seq<Slot>, slots': seq<Slot>)
    requires SlotsOwned(states, slots) && |slots'| == |slots| &&
             forall i :: 0 <= i < |slots| ==> slots'[i].kind == slots[i].kind
    ensures SlotsOwned(states, slots')
  {
  }

  // ------------------------------------------------------------ what a tick amounts to

  /** With unique owners, a condition slot holds exactly its owner's parameters. */
  lemma {:induction false} SlotHoldsItsOwner(states: seq<State>, s: nat, j: nat, n: nat)
    requires j < n <= |states| && Writes(states[j], s)
    requires forall a, b :: 0 <= a < b < |states| && states[a].slot != 0 ==> states[a].slot != states[b].slot
    ensures InSlot(states, s, n) == Written(ZERO, states[j].effect)
  {
    if j == n - 1 {
      EmptySlot(states, s, n - 1);
    } else {
      SlotHoldsItsOwner(states, s, j, n - 1);
    }
  }

  lemma {:induction false} EmptySlot(states: seq<State>, s: nat, n: nat)
    requires n <= |states| && forall j :: 0 <= j < n ==> !Writes(states[j], s)
    ensures InSlot(states, s, n) == ZERO
  {
    if n > 0 { EmptySlot(states, s, n - 1); }
  }

  lemma {:induction false} NothingStarted(states: seq<State>, levels: nat -> int, n: nat)
    requires n <= |states| && Started(states, n) == 0
    ensures Level(states, levels, n) == 0 && forall j :: 0 <= j < n ==> !states[j].started
  {
    if n > 0 { NothingStarted(states, levels, n - 1); }
  }

  lemma NothingGathered(states: seq<State>, levels: nat -> int)
    requires Started(states, |states|) == 0
    ensures forall i :: 0 <= i < SLOTS ==> Gathered(states, levels, |states|)[i] == ZERO
  {
    NothingStarted(states, levels, |states|);
    forall s | 1 <= s < SLOTS ensures InSlot(states, s, |states|) == ZERO {
      EmptySlot(states, s, |states|);
    }
  }

  lemma NothingScaled(ps: seq<Parameters>, slots: seq<Slot>, g: Gains)
    requires |ps| == |slots| == SLOTS && forall i :: 0 <= i < SLOTS ==> ps[i] == ZERO
    ensures forall i :: 0 <= i < SLOTS ==> Idle(AllScaled(ps, slots, g)[i])
  {
    forall s | 1 <= s < SLOTS ensures Idle(Scaled(ZERO, slots[s].kind, g)) {
    }
  }

  lemma UnusedTickIsIdle(e: Entry, now: int, levels: nat -> int, g: Gains)
    requires SlotsFit(e.slots) && Ticked(e, now, levels, g).used == 0
    ensures forall i :: 0 <= i < SLOTS ==> Idle(TickParameters(e, now, levels, g)[i])
  {
    hide Advanced, Gathered, Started, AllScaled, Idle;
    var states := Advanced(e.states, now, |e.states|);
    NothingGathered(states, levels);
    NothingScaled(Gathered(states, levels, |states|), e.slots, g);
  }

  // ------------------------------------------------------------ what a tick says of its effects

  /** The gain is the product of the two, in units of 0xffff, rounded down. */
  lemma TotalGain(g: Gains)
    ensures 0xffff * g.Total() <= g.master as int * g.wheel as int < 0xffff * g.Total() + 0xffff
    ensures g.master == 0xffff ==> g.Total() == g.wheel
    ensures g.wheel == 0xffff ==> g.Total() == g.master
  {
    DivBounds(g.master as int * g.wheel as int, 0xffff);
    if g.master == 0xffff { DivOfProduct(g.wheel, 0xffff); }
    if g.wheel == 0xffff { DivOfProduct(g.master, 0xffff); }
  }

  /** Raising one effect's level by delta raises the sum by delta if that effect pushes, and else not at all. */
  lemma {:induction false} LevelCountsEachPusher(
      states: seq<State>, levels: nat -> int, levels': nat -> int, j: nat, n: nat)
    requires j < n <= |states| && forall i: nat :: i < n && i != j ==> levels'(i) == levels(i)
    ensures Level(states, levels', n) ==
            Level(states, levels, n) +
            if states[j].started && states[j].playing &&
               (states[j].effect.kind.Constant? || states[j].effect.kind.Ramp? || states[j].effect.kind.Periodic?)
            then levels'(j) - levels(j) else 0
  {
    if j < n - 1 {
      LevelCountsEachPusher(states, levels, levels', j, n - 1);
    } else {
      SameLevel(states, levels, levels', n - 1);
    }
  }

  lemma {:induction false} SameLevel(states: seq<State>, levels: nat -> int, levels': nat -> int, n: nat)
    requires n <= |states| && forall i: nat :: i < n ==> levels'(i) == levels(i)
    ensures Level(states, levels', n) == Level(states, levels, n)
  {
    if n > 0 { SameLevel(states, levels, levels', n - 1); }
  }

  lemma {:induction false} NoLevelNoSum(states: seq<State>, levels: nat -> int, n: nat)
    requires n <= |states| && forall i: nat :: i < n ==> levels(i) == 0
    ensures Level(states, levels, n) == 0
  {
    if n > 0 { NoLevelNoSum(states, levels, n - 1); }
  }

  /** What a tick gives slot 0: the sum of what the effects push with, by the gain, rounded toward zero. */
  lemma ConstantSlotLevel(e: Entry, now: int, levels: nat -> int, g: Gains)
    requires |e.slots| == SLOTS
    ensures var p, sum := TickParameters(e, now, levels, g)[0],
                          Level(Advanced(e.states, now, |e.states|), levels, |e.states|);
            && p == ZERO.(level := p.level)
            && (sum >= 0 ==> 0xffff * p.level <= sum * g.Total() < 0xffff * p.level + 0xffff)
            && (sum <= 0 ==> 0xffff * p.level - 0xffff < sum * g.Total() <= 0xffff * p.level)
  {
    var sum := Level(Advanced(e.states, now, |e.states|), levels, |e.states|);
    if sum >= 0 { MulLe(0, sum, g.Total()); } else { MulLe(sum, 0, g.Total()); }
    DivBounds(sum * g.Total(), 0xffff);
    DivBounds(-(sum * g.Total()), 0xffff);
    hide Advanced, Level, InSlot, Scaled;
  }

  /** A percentage of a saturation, and then the gain's share of it. */
  function Share(saturation: int, percent: int, gain: nat): (clip: int) {
    (saturation * percent / 100) * gain / 0xffff
  }

  /**
   * What a tick gives slot s of the effect that owns it: the left coefficient as k1, the
   * right as k2, both scaled by the gain; for springs the edges of the dead band; and the
   * right saturation, by the level parameter of the slot's own type, by the gain.
   */
  lemma OwnerParameters(e: Entry, now: int, levels: nat -> int, g: Gains, s: nat, j: nat)
    requires Valid(e) && 1 <= s < SLOTS && j < MAX_EFFECTS
    requires 0 <= g.spring <= 100 && 0 <= g.damper <= 100 && 0 <= g.friction <= 100
    requires var st := Advance(e.states[j], now);
             && st.started && st.playing && st.slot == s && st.effect.condition.saturation <= 0xffff
             && (st.effect.kind.Spring? || st.effect.kind.Damper? || st.effect.kind.Friction? ||
                 st.effect.kind.Inertia?)
    ensures var p, eff := TickParameters(e, now, levels, g)[s], Advance(e.states[j], now).effect;
            var c, kind := eff.condition, e.slots[s].kind;
            var half := c.deadband / 2;
            && p.k1 == TruncDiv(c.left * g.Total(), 0xffff) && p.k2 == TruncDiv(c.right * g.Total(), 0xffff)
            && p.d1 == (if eff.kind.Spring? then c.centre - half else 0)
            && p.d2 == (if eff.kind.Spring? then c.centre + half else 0)
            && (kind.Spring? ==> p.clip == Share(c.saturation, g.spring, g.Total()))
            && (kind.Damper? ==> p.clip == Share(c.saturation, g.damper, g.Total()))
            && (kind.Friction? ==> p.clip == Share(c.saturation, g.friction, g.Total()))
  {
    var states := Advanced(e.states, now, |e.states|);
    var c := states[j].effect.condition;
    SlotsStayOwned(e, now);
    SlotHoldsItsOwner(states, s, j, |states|);
    LevelShrinks(c.saturation, g.spring);
    LevelShrinks(c.saturation, g.damper);
    LevelShrinks(c.saturation, g.friction);
    assert TickParameters(e, now, levels, g)[s] == Scaled(Written(ZERO, states[j].effect), e.slots[s].kind, g);
    ScaledShare(Written(ZERO, states[j].effect), e.slots[s].kind, g);
  }

  lemma SlotsStayOwned(e: Entry, now: int)
    requires Valid(e)
    ensures var states := Advanced(e.states, now, |e.states|);
            forall a, b :: 0 <= a < b < |states| && states[a].slot != 0 ==> states[a].slot != states[b].slot
  {
    hide UpdateState;
    var states := Advanced(e.states, now, |e.states|);
    forall i | 0 <= i < MAX_EFFECTS ensures states[i].slot == e.states[i].slot {
      AdvanceFits(e.states[i], now);
    }
  }

  lemma ScaledShare(p: Parameters, kind: Kind, g: Gains)
    requires p.clip <= 0xffff && 0 <= g.spring <= 100 && 0 <= g.damper <= 100 && 0 <= g.friction <= 100
    ensures var r := Scaled(p, kind, g);
            && (kind.Spring? ==> r.clip == Share(p.clip, g.spring, g.Total()))
            && (kind.Damper? ==> r.clip == Share(p.clip, g.damper, g.Total()))
            && (kind.Friction? ==> r.clip == Share(p.clip, g.friction, g.Total()))
  {
    ShareFits(p.clip, g.spring, g.Total());
    ShareFits(p.clip, g.damper, g.Total());
    ShareFits(p.clip, g.friction, g.Total());
  }

  lemma ShareFits(clip: nat, level: nat, gain: nat)
    requires clip <= 0xffff && level <= 100 && gain <= 0xffff
    ensures ((clip * level) % U32 / 100 * gain) % U32 / 0xffff == Share(clip, level, gain)
  {
    MulLe(0, clip, level);
    MulLe(clip, 0xffff, level);
    MulLe(level, 100, 0xffff);
    SmallModulo(clip * level);
    var c := clip * level / 100;
    assert 0 <= c <= 0xffff by { LevelShrinks(clip, level); }
    MulLe(0, c, gain);
    MulLe(c, 0xffff, gain);
    MulLe(gain, 0xffff, 0xffff);
    SmallModulo(c * gain);
  }

  /**
   * The slot a condition effect takes on starting: of its own type, save that inertia, and
   * friction without the capability, become dampers.
   */
  lemma TakenSlotKind(e: Entry, id: nat, value: int, now: int, capFriction: bool)
    requires Valid(e) && id < MAX_EFFECTS && value > 0 && !e.states[id].started && e.states[id].slot == 0
    ensures var r, k := Played(e, id, value, now, capFriction), e.states[id].effect.kind;
            var s := r.states[id].slot;
            && s < SLOTS
            && (s != 0 ==>
                  && (k.Spring? ==> r.slots[s].kind.Spring?) && (k.Damper? ==> r.slots[s].kind.Damper?)
                  && (k.Inertia? ==> r.slots[s].kind.Damper?)
                  && (k.Friction? ==> r.slots[s].kind == if capFriction then Friction else Damper)
                  && (forall i :: 1 <= i < s ==> !e.slots[i].kind.NoKind?))
            && (k.NoKind? || k.Constant? || k.Ramp? || k.Periodic? ==> s == 0)
  {
  }
}
