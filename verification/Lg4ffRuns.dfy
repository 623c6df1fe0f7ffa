/**
 * Whole runs of the classic wheel's effect engine (mainline/dd-lg4ff.c): the wheel
 * follows the engine, comes to rest with it, and repetitions never drift.
 */
module Lg4ffRuns {
  import opened Words
  import opened Lg4ffSlots
  import opened Lg4ffStates
  import E = Lg4ffEngine

  datatype Event =
    | Upload(id: nat, effect: Effect, at: int)
    | Play(id: nat, value: int, at: int)
    | Timer(at: int, levels: nat -> int, gains: Gains, heldOff: bool)

  predicate Shaped(e: Entry) {
    |e.states| == MAX_EFFECTS && |e.slots| == SLOTS && forall i :: 0 <= i < SLOTS ==> e.slots[i].id == i
  }

  predicate Enabled(e: Entry, ev: Event) {
    match ev
    case Upload(id, _, _) => id < MAX_EFFECTS
    case Play(id, _, _) => id < MAX_EFFECTS
    case Timer(_, _, _, _) => e.timerOn
  }

  function Step(e: Entry, ev: Event, capFriction: bool): (e': Entry)
    requires Shaped(e) && Enabled(e, ev)
  {
    match ev
    case Upload(id, effect, now) => Uploaded(e, id, effect, now).0
    case Play(id, value, now) => Played(e, id, value, now, capFriction)
    case Timer(now, levels, g, heldOff) => if heldOff then e else Ticked(e, now, levels, g)
  }

  /** What an event sends, with unchanged commands left out or with all of them. */
  function Sends(e: Entry, ev: Event, everything: bool): (cmds: seq<Command>)
    requires Shaped(e)
  {
    if !ev.Timer? || ev.heldOff then []
    else
      var ps := TickParameters(e, ev.at, ev.levels, ev.gains);
      if everything then FlushAll(e.slots, ps, SLOTS) else Flush(e.slots, ps, SLOTS)
  }

  ghost predicate Sound(e: Entry, w: Wheel) {
    && Valid(e) && AllMirror(w, e.slots)
    && (!e.timerOn ==> Neutral(w))
  }

  lemma ValidShape(e: Entry)
    requires Valid(e)
    ensures Shaped(e) && SlotsFit(e.slots)
  {
  }

  lemma RekindedMirrors(w: Wheel, slots: seq<Slot>, slots': seq<Slot>)
    requires AllMirror(w, slots) && |slots'| == SLOTS &&
             forall i :: 0 <= i < SLOTS ==> slots'[i] == slots[i].(kind := slots'[i].kind)
    ensures AllMirror(w, slots')
  {
    forall i | 0 <= i < SLOTS ensures slots'[i].id == i && Mirrors(w, slots'[i]) {
      assert Mirrors(w, slots[i]);
    }
  }

  lemma TickKeepsSound(e: Entry, w: Wheel, now: int, levels: nat -> int, g: Gains)
    requires Sound(e, w)
    ensures var ps := TickParameters(e, now, levels, g);
            && ReceiveAll(w, Flush(e.slots, ps, SLOTS)) == ReceiveAll(w, FlushAll(e.slots, ps, SLOTS))
            && Sound(Ticked(e, now, levels, g), ReceiveAll(w, Flush(e.slots, ps, SLOTS)))
  {
    hide Valid, TickParameters, AllMirror, SlotsFit, Neutral, Started, Advanced;
    ValidShape(e);
    var ps := TickParameters(e, now, levels, g);
    TickKeepsValid(e, now, levels, g);
    ElisionRefinesSendingAll(w, e.slots, ps, SLOTS);
    SendingAllSets(w, e.slots, ps, SLOTS);
    var w' := ReceiveAll(w, FlushAll(e.slots, ps, SLOTS));
    SetIsMirrored(w, w', e.slots, ps);
    if !Ticked(e, now, levels, g).timerOn {
      UnusedTickIsIdle(e, now, levels, g);
      IdleIsNeutral(w, e.slots, ps);
    }
  }

  /** Every event keeps wheel and engine in step, and elision goes unnoticed. */
  lemma StepKeepsSound(e: Entry, w: Wheel, ev: Event, capFriction: bool)
    requires Sound(e, w) && Enabled(e, ev)
    ensures ReceiveAll(w, Sends(e, ev, false)) == ReceiveAll(w, Sends(e, ev, true))
    ensures Sound(Step(e, ev, capFriction), ReceiveAll(w, Sends(e, ev, false)))
  {
    hide Valid, AllMirror, Neutral, TickParameters, Flush, FlushAll, Ticked, SlotsAfter;
    ValidShape(e);
    match ev
    case Upload(id, effect, now) =>
      UploadKeepsValid(e, id, effect, now);
    case Play(id, value, now) =>
      PlayKeepsValid(e, id, value, now, capFriction);
      PlayOnlyRekinds(e, id, value, now, capFriction);
      RekindedMirrors(w, e.slots, Played(e, id, value, now, capFriction).slots);
    case Timer(now, levels, g, heldOff) =>
      if !heldOff { TickKeepsSound(e, w, now, levels, g); }
  }

  lemma PlayOnlyRekinds(e: Entry, id: nat, value: int, now: int, capFriction: bool)
    requires Valid(e) && id < MAX_EFFECTS
    ensures var e' := Played(e, id, value, now, capFriction);
            && (e'.timerOn || !e.timerOn)
            && |e'.slots| == SLOTS &&
               forall i :: 0 <= i < SLOTS ==> e'.slots[i] == e.slots[i].(kind := e'.slots[i].kind)
  {
    var slots := Played(e, id, value, now, capFriction).slots;
    forall i | 0 <= i < SLOTS ensures slots[i] == e.slots[i].(kind := slots[i].kind) {
    }
  }

  // ------------------------------------------------------------ whole runs

  predicate Runnable(e: Entry, run: seq<Event>, capFriction: bool)
    decreases |run|
  {
    run == [] || (Shaped(e) && Enabled(e, run[0]) && Runnable(Step(e, run[0], capFriction), run[1..], capFriction))
  }

  /** The engine after a run. */
  function After(e: Entry, run: seq<Event>, capFriction: bool): (e': Entry)
    requires Runnable(e, run, capFriction)
    decreases |run|
  {
    if run == [] then e else After(Step(e, run[0], capFriction), run[1..], capFriction)
  }

  /** The wheel after a run, with unchanged commands left out or with all of them. */
  function Driven(e: Entry, w: Wheel, run: seq<Event>, capFriction: bool, everything: bool): (w': Wheel)
    requires Runnable(e, run, capFriction)
    decreases |run|
  {
    if run == [] then w
    else Driven(Step(e, run[0], capFriction), ReceiveAll(w, Sends(e, run[0], everything)), run[1..],
         capFriction, everything)
  }

  function Blank(): (e: Entry) {
    Entry(seq(MAX_EFFECTS, _ => NO_STATE), InitialSlots(), 0, false)
  }

  lemma {:induction false} RunsAreSound(e: Entry, w: Wheel, run: seq<Event>, capFriction: bool)
    requires Sound(e, w) && Runnable(e, run, capFriction)
    ensures Driven(e, w, run, capFriction, false) == Driven(e, w, run, capFriction, true)
    ensures Sound(After(e, run, capFriction), Driven(e, w, run, capFriction, false))
    decreases |run|
  {
    hide Sound, Valid, Step, Sends, Enabled, Shaped;
    if run != [] {
      StepKeepsSound(e, w, run[0], capFriction);
      RunsAreSound(Step(e, run[0], capFriction), ReceiveAll(w, Sends(e, run[0], false)), run[1..], capFriction);
    }
  }

  /**
   * From initialisation on, whatever the wheel held before: leaving unchanged commands
   * unsent is never noticed, and whenever the timer is not armed the wheel is at rest.
   */
  lemma EveryRunIsSound(w: Wheel, fixedLoop: bool, run: seq<Event>, capFriction: bool)
    requires Runnable(Blank(), run, capFriction)
    ensures var w0 := ReceiveAll(w, InitialCommands(fixedLoop));
            var e, w1 := After(Blank(), run, capFriction), Driven(Blank(), w0, run, capFriction, false);
            && w1 == Driven(Blank(), w0, run, capFriction, true)
            && Valid(e) && (e.used != 0 ==> e.timerOn) && (!e.timerOn ==> e.used == 0 && Neutral(w1))
  {
    hide Runnable, After, Driven, InitialCommands, InitialSlots, Neutral;
    InitialisationIsNeutral(w, fixedLoop);
    E.BlankIsValid(Blank());
    RunsAreSound(Blank(), ReceiveAll(w, InitialCommands(fixedLoop)), run, capFriction);
  }

  /** A callback that does not re-arm the timer has just brought the wheel to rest. */
  lemma NoRestartIsNeutral(e: Entry, w: Wheel, now: int, levels: nat -> int, g: Gains)
    requires Sound(e, w) && Ticked(e, now, levels, g).used == 0
    ensures Neutral(ReceiveAll(w, Flush(e.slots, TickParameters(e, now, levels, g), SLOTS)))
  {
    hide Valid, TickParameters, AllMirror, SlotsFit, Neutral, Started, Advanced, Flush, FlushAll;
    TickKeepsSound(e, w, now, levels, g);
  }

  // ------------------------------------------------------------ repetition

  /** One effect under ticks at the given times, and how often it expired on the way. */
  function Ticks(st: State, nows: seq<int>): (r: State) {
    if nows == [] then st else Advance(Ticks(st, nows[..|nows| - 1]), nows[|nows| - 1])
  }

  function Expiries(st: State, nows: seq<int>): (k: nat) {
    if nows == [] then 0
    else Expiries(st, nows[..|nows| - 1]) + if Expires(Ticks(st, nows[..|nows| - 1]), nows[|nows| - 1]) then 1 else 0
  }

  predicate Rising(nows: seq<int>) {
    forall i, j :: 0 <= i < j < |nows| ==> nows[i] <= nows[j]
  }

  /** A finite effect just started c times over. */
  ghost predicate JustPlayed(st: State, s: int, c: int) {
    && st.started && !st.allSet && !st.playing && !st.updating
    && st.startAt == s && st.count == c >= 1 && st.effect.length > 0
  }

  function Period(e: Effect): (p: nat) {
    e.delay + e.length
  }

  /** When repetition k plays. */
  predicate InWindow(e: Effect, s: int, k: nat, t: int) {
    s + k * Period(e) + e.delay <= t < s + (k + 1) * Period(e)
  }

  /** In repetition k, last ticked at t. */
  ghost predicate Repeating(st: State, e: Effect, s: int, c: int, k: nat, t: int) {
    && st.effect == e && e.length > 0 && st.started && st.allSet && !st.updating
    && k < c && st.count == c - k
    && st.playAt == s + k * Period(e) + e.delay && st.stopAt == s + (k + 1) * Period(e)
    && (st.playing <==> InWindow(e, s, k, t))
  }

  lemma NextPeriod(e: Effect, k: nat)
    ensures (k + 1) * Period(e) == k * Period(e) + e.delay + e.length
  {
    Distribute(k, 1, Period(e));
  }

  lemma RepeatingTick(st: State, e: Effect, s: int, c: int, k: nat, t: int, t': int)
    requires Repeating(st, e, s, c, k, t) && t <= t'
    ensures Expires(st, t') <==> t' >= s + (k + 1) * Period(e)
    ensures !Expires(st, t') ==> Repeating(Advance(st, t'), e, s, c, k, t')
    ensures Expires(st, t') && k + 1 < c ==> Repeating(Advance(st, t'), e, s, c, k + 1, t')
    ensures Expires(st, t') && k + 1 == c ==> !Advance(st, t').started && !Advance(st, t').playing
  {
    NextPeriod(e, k);
    NextPeriod(e, k + 1);
    hide Period;
  }

  /**
   * However irregularly the ticks come, after any number of them the effect is in
   * repetition k, where k is how often it has expired: it plays exactly when the tick
   * fell into repetition k's own window, and it is out of use exactly when k is c.
   */
  lemma {:induction false} RepetitionsNeverDrift(st: State, s: int, c: int, nows: seq<int>)
    requires JustPlayed(st, s, c) && nows != [] && Rising(nows)
    ensures var k := Expiries(st, nows);
            var r := Ticks(st, nows);
            && k <= c
            && (k < c ==> Repeating(r, st.effect, s, c, k, nows[|nows| - 1]))
            && (r.started <==> k < c)
            && (r.playing <==> k < c && InWindow(st.effect, s, k, nows[|nows| - 1]))
    decreases |nows|
  {
    hide InWindow;
    var last := |nows| - 1;
    var before := nows[..last];
    if before == [] {
      FirstTick(st, s, c, nows[0]);
    } else {
      RepetitionsNeverDrift(st, s, c, before);
      var k := Expiries(st, before);
      if k < c { RepeatingTick(Ticks(st, before), st.effect, s, c, k, before[last - 1], nows[last]); }
    }
  }

  lemma FirstTick(st: State, s: int, c: int, t: int)
    requires JustPlayed(st, s, c)
    ensures !Expires(st, t) && Repeating(Advance(st, t), st.effect, s, c, 0, t)
  {
    NextPeriod(st.effect, 0);
  }

  /** Ticks no further apart than one repetition, from within the first one on. */
  predicate Timely(e: Effect, s: int, nows: seq<int>) {
    nows != [] && s <= nows[0] < s + Period(e) &&
        forall i :: 0 < i < |nows| ==> nows[i - 1] <= nows[i] <= nows[i - 1] + Period(e)
  }

  lemma {:induction false} TimelyIsRising(e: Effect, s: int, nows: seq<int>)
    requires Timely(e, s, nows)
    ensures Rising(nows)
    decreases |nows|
  {
    var last := |nows| - 1;
    if last > 0 {
      var before := nows[..last];
      TimelyIsRising(e, s, before);
      forall i, j | 0 <= i < j < |nows| ensures nows[i] <= nows[j] {
        assert before[i] <= before[last - 1];
      }
    }
  }

  /** k counts the repetitions that are over at t, as far as there are any. */
  predicate Counts(s: int, p: nat, c: int, k: nat, t: int) {
    k <= c && s + k * p <= t && (k < c ==> t < s + (k + 1) * p)
  }

  lemma CountsOn(s: int, p: nat, c: int, k: nat, t: int, t': int)
    requires Counts(s, p, c, k, t) && t <= t' <= t + p
    ensures k < c ==> Counts(s, p, c, if t' >= s + (k + 1) * p then k + 1 else k, t')
    ensures k == c ==> Counts(s, p, c, k, t')
  {
    Distribute(k, 1, p);
    Distribute(k + 1, 1, p);
  }

  /** Until it is out of use, an effect that is ticked in time has expired once for every repetition that is over. */
  lemma {:induction false} TimelyExpiries(st: State, s: int, c: int, nows: seq<int>)
    requires JustPlayed(st, s, c) && Timely(st.effect, s, nows)
    ensures nows != [] && Counts(s, Period(st.effect), c, Expiries(st, nows), nows[|nows| - 1])
    decreases |nows|
  {
    TimelyPrefix(st.effect, s, nows);
    hide Timely, Counts, Advance, Expires, Period, JustPlayed;
    var last := |nows| - 1;
    var before := nows[..last];
    if last == 0 {
      assert Expiries(st, before) == 0 && Ticks(st, before) == st;
      NothingOverYet(st, s, c, nows[0]);
    } else {
      TimelyExpiries(st, s, c, before);
      OneMoreExpiry(st, s, c, before, nows[last]);
      CountsOn(s, Period(st.effect), c, Expiries(st, before), nows[last - 1], nows[last]);
    }
  }

  lemma NothingOverYet(st: State, s: int, c: int, t: int)
    requires JustPlayed(st, s, c) && s <= t < s + Period(st.effect)
    ensures !Expires(st, t) && Counts(s, Period(st.effect), c, 0, t)
  {
  }

  lemma TimelyPrefix(e: Effect, s: int, nows: seq<int>)
    requires Timely(e, s, nows)
    ensures |nows| == 1 ==> s <= nows[0] < s + Period(e)
    ensures var last := |nows| - 1;
            last > 0 ==> Timely(e, s, nows[..last]) && nows[last - 1] <= nows[last] <= nows[last - 1] + Period(e)
  {
  }

  lemma OneMoreExpiry(st: State, s: int, c: int, before: seq<int>, t: int)
    requires JustPlayed(st, s, c) && Timely(st.effect, s, before) && before[|before| - 1] <= t
    ensures var k := Expiries(st, before);
            && k <= c
            && (Expires(Ticks(st, before), t) <==> k < c && t >= s + (k + 1) * Period(st.effect))
  {
    TimelyIsRising(st.effect, s, before);
    RepetitionsNeverDrift(st, s, c, before);
    hide Period, InWindow, Timely, Rising;
    var k := Expiries(st, before);
    if k < c { RepeatingTick(Ticks(st, before), st.effect, s, c, k, before[|before| - 1], t); }
  }

  /** The clock alone: c repetitions are not over, and the delay of the one under way is. */
  predicate OnSchedule(e: Effect, s: int, c: int, t: int)
    requires e.length > 0
  {
    t < s + c * Period(e) && (t - s) % Period(e) >= e.delay
  }

  /** Counting repetitions from the start, a window is a remainder. */
  lemma WindowByTheClock(e: Effect, s: int, c: int, k: nat, t: int)
    requires e.length > 0 && Counts(s, Period(e), c, k, t)
    ensures k < c && InWindow(e, s, k, t) <==> OnSchedule(e, s, c, t)
  {
    var p := Period(e);
    if k < c {
      Distribute(k, 1, p);
      MulLe(k + 1, c, p);
      RemainderIs(t - s, p, k);
    }
  }

  /** With timely ticks the effect plays at a tick exactly when the clock alone says so. */
  lemma TimelyTicksPlayOnSchedule(st: State, s: int, c: int, nows: seq<int>)
    requires JustPlayed(st, s, c) && Timely(st.effect, s, nows)
    ensures Ticks(st, nows).playing <==> OnSchedule(st.effect, s, c, nows[|nows| - 1])
  {
    TimelyIsRising(st.effect, s, nows);
    TimelyExpiries(st, s, c, nows);
    RepetitionsNeverDrift(st, s, c, nows);
    hide Ticks, Expiries, Timely, Rising, Repeating, Counts, InWindow, Period, OnSchedule;
    WindowByTheClock(st.effect, s, c, Expiries(st, nows), nows[|nows| - 1]);
  }

  lemma RemainderIs(x: int, p: int, k: int)
    requires p > 0 && k * p <= x < k * p + p
    ensures x % p == x - k * p
  {
    var q := x / p;
    DivBounds(x, p);
    assert x % p == x - q * p;
    Distribute(q, 1, p);
    Distribute(k, 1, p);
    CancelLt(k, q + 1, p);
    CancelLt(q, k + 1, p);
  }

  // ------------------------------------------------------------ an update while started

  /** A started finite effect whose upload at u has not been ticked yet. */
  ghost predicate JustUpdated(st: State, u: int, c: int) {
    st.started && st.updating && st.updatedAt == u && st.count == c >= 1 && st.effect.length > 0
  }

  /** When an update at u plays: the delay comes out of the length. */
  predicate InUpdate(e: Effect, u: int, t: int) {
    u + e.delay <= t < u + e.length
  }

  /** On the schedule of an update at u, last ticked at t. */
  ghost predicate FollowsUpdate(st: State, e: Effect, u: int, c: int, t: int) {
    && st.effect == e && e.length > 0 && st.started && st.allSet && !st.updating && st.count == c >= 1
    && st.playAt == u + e.delay && st.stopAt == u + e.length
    && (st.playing <==> InUpdate(e, u, t))
  }

  lemma UploadUpdates(e: Entry, id: nat, effect: Effect, u: int)
    requires Valid(e) && id < MAX_EFFECTS && e.states[id].started && Uploaded(e, id, effect, u).1 && effect.length > 0
    ensures JustUpdated(Uploaded(e, id, effect, u).0.states[id], u, e.states[id].count)
  {
    assert StateFits(e.states[id]);
  }

  lemma UpdateTick(st: State, u: int, c: int, t: int)
    requires JustUpdated(st, u, c) && !Expires(st, t)
    ensures FollowsUpdate(Advance(st, t), st.effect, u, c, t)
  {
  }

  /** The tick on which an effect expires forgets an update it has not seen: the next repetition starts afresh. */
  lemma ExpiryForgetsTheUpdate(st: State, u: int, c: int, t: int)
    requires JustUpdated(st, u, c) && Expires(st, t)
    ensures c > 1 ==> Repeating(Advance(st, t), st.effect, st.stopAt, c - 1, 0, t)
    ensures c == 1 ==> !Advance(st, t).started && !Advance(st, t).playing
  {
    NextPeriod(st.effect, 0);
  }

  lemma TickAfterUpdate(st: State, e: Effect, u: int, c: int, t: int, t': int)
    requires FollowsUpdate(st, e, u, c, t) && t <= t'
    ensures Expires(st, t') <==> t' >= u + e.length
    ensures !Expires(st, t') ==> FollowsUpdate(Advance(st, t'), e, u, c, t')
    ensures Expires(st, t') && c > 1 ==> Repeating(Advance(st, t'), e, u + e.length, c - 1, 0, t')
    ensures Expires(st, t') && c == 1 ==> !Advance(st, t').started && !Advance(st, t').playing
  {
    NextPeriod(e, 0);
  }

  /**
   * A finite effect updated at u with c repetitions to go, and not expiring on the next
   * tick, under ticks however irregular: before its first expiry it plays exactly from u
   * plus the delay up to u plus the length, so never if the delay is as long as the
   * length; after k expiries it is in repetition k - 1 counted from u plus the length.
   */
  lemma {:induction false} UpdateReschedules(st: State, u: int, c: int, nows: seq<int>)
    requires JustUpdated(st, u, c) && nows != [] && Rising(nows) && !Expires(st, nows[0])
    ensures var k, r, e, t := Expiries(st, nows), Ticks(st, nows), st.effect, nows[|nows| - 1];
            && k <= c && (r.started <==> k < c)
            && (k == 0 ==> FollowsUpdate(r, e, u, c, t))
            && (0 < k < c ==> Repeating(r, e, u + e.length, c - 1, k - 1, t))
            && (r.playing <==>
                  if k == 0 then InUpdate(e, u, t) else k < c && InWindow(e, u + e.length, k - 1, t))
            && (k == 0 && e.delay >= e.length ==> !r.playing)
    decreases |nows|
  {
    hide InWindow, Advance, Expires;
    var last := |nows| - 1;
    var before, e := nows[..last], st.effect;
    if before == [] {
      assert Ticks(st, before) == st && Expiries(st, before) == 0;
      UpdateTick(st, u, c, nows[0]);
    } else {
      UpdateReschedules(st, u, c, before);
      var k, r := Expiries(st, before), Ticks(st, before);
      if k == 0 {
        TickAfterUpdate(r, e, u, c, before[last - 1], nows[last]);
      } else if k < c {
        RepeatingTick(r, e, u + e.length, c - 1, k - 1, before[last - 1], nows[last]);
      } else {
        StoppedStays(r, nows[last]);
      }
    }
  }

  /**
   * Delay and length both 10 ms: started at 0 it plays at 15, updated at 0 it does not play
   * at any tick before it ends.
   */
  lemma UpdateCanSilence(t: int)
    requires t < 100
    ensures var e := Effect(Constant, 10, 10, 0, Condition(0, 0, 0, 0, 0));
            var started := NO_STATE.(effect := e, count := 1, started := true);
            var updated := started.(allSet := true, updating := true, stopAt := 100);
            Advance(started, 15).playing && !Advance(updated, t).playing
  {
    var e := Effect(Constant, 10, 10, 0, Condition(0, 0, 0, 0, 0));
    UpdateTick(NO_STATE.(effect := e, count := 1, started := true, allSet := true, updating := true,
        stopAt := 100), 0, 1, t);
  }

  lemma StoppedStays(st: State, t: int)
    requires !st.started
    ensures Advance(st, t) == st && !Expires(st, t)
  {
  }

  // ------------------------------------------------------------ effects without an end

  /** What playing an effect leaves of its state, started before or not. */
  lemma PlayStartsAfresh(e: Entry, id: nat, value: int, now: int, capFriction: bool)
    requires Valid(e) && id < MAX_EFFECTS && value > 0
    ensures var st := Played(e, id, value, now, capFriction).states[id];
            && st.started && st.startAt == now && st.count == value && st.effect == e.states[id].effect
            && !st.allSet && !st.playing && !st.updating
            && (st.effect.length > 0 ==> JustPlayed(st, now, value))
            && (st.effect.length == 0 ==> EndlessFrom(st, now, value))
  {
    assert StateFits(e.states[id]);
  }

  /** What stopping it leaves, and what an upload stores. */
  lemma StopAndUploadLeave(e: Entry, id: nat, effect: Effect, now: int, capFriction: bool)
    requires Valid(e) && id < MAX_EFFECTS
    ensures var st := Played(e, id, 0, now, capFriction).states[id];
            !st.started && !st.playing && st.effect == e.states[id].effect
    ensures var (r, ok) := Uploaded(e, id, effect, now);
            && (ok ==> r.states[id].effect == effect && r.states[id].started == e.states[id].started)
            && (!ok ==> r == e)
            && forall j :: 0 <= j < MAX_EFFECTS && j != id ==> r.states[j] == e.states[j]
  {
    assert StateFits(e.states[id]);
  }

  /** An effect of length 0 started at s, not ticked yet. */
  ghost predicate EndlessFrom(st: State, s: int, c: int) {
    && st.started && !st.allSet && !st.playing && !st.updating
    && st.startAt == s && st.count == c && st.effect.length == 0
  }

  /** A started effect of length 0 whose upload at u has not been ticked yet. */
  ghost predicate EndlessUpdated(st: State, u: int, c: int) {
    st.started && st.updating && st.updatedAt == u && st.count == c && st.effect.length == 0
  }

  /** An effect of length 0 that counts from s, last ticked at t. */
  ghost predicate Endless(st: State, e: Effect, s: int, c: int, t: int) {
    && st.effect == e && e.length == 0 && st.started && st.allSet && !st.updating && st.count == c
    && st.playAt == s + e.delay && (st.playing <==> t >= s + e.delay)
  }

  lemma EndlessTick(st: State, e: Effect, s: int, c: int, t: int, t': int)
    requires Endless(st, e, s, c, t) && t <= t'
    ensures !Expires(st, t') && Endless(Advance(st, t'), e, s, c, t')
  {
  }

  lemma EndlessBegins(st: State, s: int, c: int, t: int)
    requires EndlessFrom(st, s, c) || EndlessUpdated(st, s, c)
    ensures !Expires(st, t) && Endless(Advance(st, t), st.effect, s, c, t)
  {
  }

  /**
   * An effect of length 0, started or updated at s, never expires and never loses count,
   * under ticks however irregular: it plays at a tick exactly from s plus the delay on.
   */
  lemma {:induction false} EndlessNeverStops(st: State, s: int, c: int, nows: seq<int>)
    requires (EndlessFrom(st, s, c) || EndlessUpdated(st, s, c)) && nows != [] && Rising(nows)
    ensures var r, t := Ticks(st, nows), nows[|nows| - 1];
            && Expiries(st, nows) == 0 && r.started && r.count == c
            && (r.playing <==> t >= s + st.effect.delay)
            && Endless(r, st.effect, s, c, t)
    decreases |nows|
  {
    hide Advance, Expires;
    var last := |nows| - 1;
    var before := nows[..last];
    if before == [] {
      assert Ticks(st, before) == st && Expiries(st, before) == 0;
      EndlessBegins(st, s, c, nows[0]);
    } else {
      EndlessNeverStops(st, s, c, before);
      EndlessTick(Ticks(st, before), st.effect, s, c, before[last - 1], nows[last]);
    }
  }

  lemma UploadUpdatesEndless(e: Entry, id: nat, effect: Effect, u: int)
    requires Valid(e) && id < MAX_EFFECTS && e.states[id].started && Uploaded(e, id, effect, u).1 && effect.length == 0
    ensures EndlessUpdated(Uploaded(e, id, effect, u).0.states[id], u, e.states[id].count)
  {
  }

  // ------------------------------------------------------------ one effect among others

  function TickTimes(run: seq<Event>): (nows: seq<int>) {
    if run == [] then []
    else (if run[0].Timer? && !run[0].heldOff then [run[0].at] else []) + TickTimes(run[1..])
  }

  lemma {:induction false} TicksFromTheFront(st: State, now: int, nows: seq<int>)
    ensures Ticks(st, [now] + nows) == Ticks(Advance(st, now), nows)
    decreases |nows|
  {
    var all := [now] + nows;
    if nows == [] {
      assert all[..|all| - 1] == [];
    } else {
      assert all[..|all| - 1] == [now] + nows[..|nows| - 1];
      TicksFromTheFront(st, now, nows[..|nows| - 1]);
    }
  }

  lemma StepOnOthers(e: Entry, ev: Event, capFriction: bool, id: nat)
    requires Shaped(e) && Enabled(e, ev) && id < MAX_EFFECTS && (!ev.Timer? ==> ev.id != id)
    ensures var e' := Step(e, ev, capFriction);
            && |e'.states| == MAX_EFFECTS
            && e'.states[id] == if ev.Timer? && !ev.heldOff then Advance(e.states[id], ev.at) else e.states[id]
  {
    hide Advance, SlotsAfter, TickParameters, Started;
  }

  /** Whatever is done to the other effects, an effect left alone sees the ticks and nothing else. */
  lemma {:induction false} OthersDoNotInterfere(e: Entry, run: seq<Event>, capFriction: bool, id: nat)
    requires Runnable(e, run, capFriction) && |e.states| == MAX_EFFECTS && id < MAX_EFFECTS
    requires forall i :: 0 <= i < |run| && !run[i].Timer? ==> run[i].id != id
    ensures |After(e, run, capFriction).states| == MAX_EFFECTS
    ensures After(e, run, capFriction).states[id] == Ticks(e.states[id], TickTimes(run))
    decreases |run|
  {
    hide Advance, Step, Shaped, Enabled;
    if run != [] {
      var e1 := Step(e, run[0], capFriction);
      StepOnOthers(e, run[0], capFriction, id);
      OthersDoNotInterfere(e1, run[1..], capFriction, id);
      if run[0].Timer? && !run[0].heldOff {
        TicksFromTheFront(e.states[id], run[0].at, TickTimes(run[1..]));
      } else {
        assert TickTimes(run) == TickTimes(run[1..]);
      }
    }
  }

  // ------------------------------------------------------------ condition slots that are never given back

  /** A condition slot goes out of use exactly when its started owner is told to stop. */
  lemma SlotFreedOnlyByStop(e: Entry, ev: Event, capFriction: bool, i: nat)
    requires Valid(e) && Enabled(e, ev) && 1 <= i < SLOTS && !e.slots[i].kind.NoKind?
    ensures Shaped(e)
    ensures Step(e, ev, capFriction).slots[i].kind.NoKind? <==>
            ev.Play? && ev.value <= 0 && e.states[ev.id].started && e.states[ev.id].slot == i
  {
    hide SlotsOwned, Started, Advance, TickParameters;
    if ev.Play? {
      assert StateFits(e.states[ev.id]);
    }
  }

  predicate Unowned(states: seq<State>, i: nat) {
    forall j :: 0 <= j < |states| ==> states[j].slot != i
  }

  /** A condition effect that is started without a slot gets one exactly when one of the three is unowned. */
  lemma StartedConditionGetsASlot(e: Entry, id: nat, count: int, now: int, capFriction: bool)
    requires Valid(e) && id < MAX_EFFECTS && count > 0
    requires !e.states[id].started && IsCondition(e.states[id].effect.kind) && e.states[id].slot == 0
    ensures Played(e, id, count, now, capFriction).states[id].slot != 0 <==>
            exists i :: 1 <= i < SLOTS && Unowned(e.states, i)
  {
    var i := FreeSlot(e.slots);
    if i < SLOTS {
      assert Unowned(e.states, i);
    } else {
      forall k | 1 <= k < SLOTS ensures !Unowned(e.states, k) {
        assert !e.slots[k].kind.NoKind?;
      }
    }
  }

  function ShortSpring(): (e: Effect) {
    Effect(Spring, 0, 10, 0, Condition(0, 0, 0x4000, 0x4000, 0xffff))
  }

  /** Nothing runs, and effects 0 to n-1 are springs that have run out with slots 1 to n still theirs. */
  ghost predicate RanOut(e: Entry, n: nat) {
    && Valid(e) && e.used == 0 && n <= 3
    && (forall j :: 0 <= j < MAX_EFFECTS ==> e.states[j].slot == if j < n then j + 1 else 0)
  }

  ghost predicate Reachable(e: Entry, capFriction: bool) {
    exists run :: Runnable(Blank(), run, capFriction) && After(Blank(), run, capFriction) == e
  }

  lemma ReachStep(e: Entry, ev: Event, capFriction: bool)
    requires Reachable(e, capFriction) && Shaped(e) && Enabled(e, ev)
    ensures Reachable(Step(e, ev, capFriction), capFriction)
  {
    var run :| Runnable(Blank(), run, capFriction) && After(Blank(), run, capFriction) == e;
    Extend(Blank(), run, ev, capFriction);
  }

  lemma {:induction false} Extend(e: Entry, run: seq<Event>, ev: Event, capFriction: bool)
    requires Runnable(e, run, capFriction) && Shaped(After(e, run, capFriction)) &&
             Enabled(After(e, run, capFriction), ev)
    ensures Runnable(e, run + [ev], capFriction) &&
             After(e, run + [ev], capFriction) == Step(After(e, run, capFriction), ev, capFriction)
    decreases |run|
  {
    hide Enabled, Step, Shaped;
    if run == [] {
      assert (run + [ev])[1..] == [];
    } else {
      assert (run + [ev])[1..] == run[1..] + [ev];
      Extend(Step(e, run[0], capFriction), run[1..], ev, capFriction);
    }
  }

  lemma NextFreeSlot(e: Entry, n: nat)
    requires RanOut(e, n) && n < 3
    ensures FreeSlot(e.slots) == n + 1 && forall j :: 0 <= j < MAX_EFFECTS ==> !e.states[j].started
  {
    NothingStarted(e.states, _ => 0, |e.states|);
    forall k | 1 <= k <= n ensures !e.slots[k].kind.NoKind? {
      assert e.states[k - 1].slot == k;
    }
  }

  /** Upload a short spring as effect n and start it once. */
  lemma StartOneMore(e: Entry, n: nat, capFriction: bool) returns (e': Entry)
    requires Reachable(e, capFriction) && RanOut(e, n) && n < 3
    ensures Reachable(e', capFriction) && Valid(e') && e'.timerOn
    ensures JustPlayed(e'.states[n], 0, 1) && e'.states[n].effect == ShortSpring() && e'.states[n].slot == n + 1
    ensures forall j :: 0 <= j < MAX_EFFECTS && j != n ==>
             e'.states[j].slot == e.states[j].slot && !e'.states[j].started
  {
    hide Reachable, SlotsOwned;
    NextFreeSlot(e, n);
    ReachStep(e, Upload(n, ShortSpring(), 0), capFriction);
    var e1 := Step(e, Upload(n, ShortSpring(), 0), capFriction);
    UploadKeepsValid(e, n, ShortSpring(), 0);
    ReachStep(e1, Play(n, 1, 0), capFriction);
    PlayKeepsValid(e1, n, 1, 0, capFriction);
    e' := Step(e1, Play(n, 1, 0), capFriction);
  }

  lemma RunOneMoreOut(e: Entry, n: nat, capFriction: bool) returns (e': Entry)
    requires Reachable(e, capFriction) && RanOut(e, n) && n < 3
    ensures Reachable(e', capFriction) && RanOut(e', n + 1)
  {
    hide Reachable, SlotsAfter, TickParameters, SlotsOwned;
    var g := Gains(0xffff, 0xffff, 30, 30, 30);
    var e1 := StartOneMore(e, n, capFriction);
    TickKeepsValid(e1, 0, _ => 0, g);
    ReachStep(e1, Timer(0, _ => 0, g, false), capFriction);
    var e2 := Step(e1, Timer(0, _ => 0, g, false), capFriction);
    TickKeepsValid(e2, 10, _ => 0, g);
    StartedMonotone(e2.states, n, MAX_EFFECTS);
    ReachStep(e2, Timer(10, _ => 0, g, false), capFriction);
    e' := Step(e2, Timer(10, _ => 0, g, false), capFriction);
    E.NoneStarted(e'.states, |e'.states|);
  }

  /**
   * Effects that run out by themselves keep their condition slots: an engine is reached
   * in which nothing runs and yet a newly started condition effect gets no slot.
   */
  lemma SlotsCanRunOut(capFriction: bool) returns (e: Entry)
    ensures Reachable(e, capFriction) && Valid(e) && e.used == 0
    ensures e.states[3].effect == ShortSpring() && !e.states[3].started
    ensures forall now ::
              var st := Played(e, 3, 1, now, capFriction).states[3];
              st.started && st.slot == 0 && forall s :: !Writes(Advance(st, now), s)
  {
    hide Reachable, Valid;
    e := Blank();
    E.BlankIsValid(e);
    assert Reachable(e, capFriction) by { ReachBlank(capFriction); }
    assert RanOut(e, 0);
    e := RunOneMoreOut(e, 0, capFriction);
    e := RunOneMoreOut(e, 1, capFriction);
    e := RunOneMoreOut(e, 2, capFriction);
    AllThreeTaken(e);
    ValidShape(e);
    ReachStep(e, Upload(3, ShortSpring(), 0), capFriction);
    UploadKeepsValid(e, 3, ShortSpring(), 0);
    e := Step(e, Upload(3, ShortSpring(), 0), capFriction);
  }

  lemma ReachBlank(capFriction: bool)
    ensures Reachable(Blank(), capFriction)
  {
    assert Runnable(Blank(), [], capFriction) && After(Blank(), [], capFriction) == Blank();
  }

  lemma AllThreeTaken(e: Entry)
    requires RanOut(e, 3)
    ensures |e.states| == MAX_EFFECTS && |e.slots| == SLOTS && FreeSlot(e.slots) == 4
    ensures forall j :: 0 <= j < MAX_EFFECTS ==> !e.states[j].started
    ensures forall j :: 3 <= j < MAX_EFFECTS ==> e.states[j].slot == 0
  {
    NothingStarted(e.states, _ => 0, |e.states|);
    assert e.states[0].slot == 1 && e.states[1].slot == 2 && e.states[2].slot == 3;
  }
}
