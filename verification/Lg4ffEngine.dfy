/**
 * The classic wheel's effect engine as it works on its own arrays
 * (mainline/dd-lg4ff.c): upload, playback and the timer callback.
 */
module Lg4ffEngine {
  import opened Words
  import opened Lg4ffSlots
  import opened Lg4ffStates

  // ------------------------------------------------------------ what the early exit may skip

  lemma {:induction false} NoneLeftToVisit(states: seq<State>, i: nat, n: nat)
    requires i <= n <= |states| && Started(states, n) <= Started(states, i)
    ensures Started(states, n) == Started(states, i) && forall j :: i <= j < n ==> !states[j].started
  {
    if i < n {
      NoneLeftBefore(states, i, n - 1);
      NoneLeftToVisit(states, i, n - 1);
    }
  }

  lemma {:induction false} NoneLeftBefore(states: seq<State>, i: nat, n: nat)
    requires i <= n <= |states|
    ensures Started(states, i) <= Started(states, n)
  {
    if i < n { NoneLeftBefore(states, i, n - 1); }
  }

  lemma {:induction false} NothingMoreGathered(states: seq<State>, levels: nat -> int, i: nat, n: nat)
    requires i <= n <= |states| && forall j :: i <= j < n ==> !states[j].started
    ensures Gathered(states, levels, n) == Gathered(states, levels, i)
  {
    if i < n {
      NothingMoreGathered(states, levels, i, n - 1);
      assert forall s :: 1 <= s < SLOTS ==> InSlot(states, s, n) == Gathered(states, levels, i)[s];
    }
  }

  /** Leaving the loop once every started effect has been seen changes nothing. */
  lemma EarlyExitIsFullScan(states: seq<State>, now: int, levels: nat -> int, i: nat)
    requires i <= |states| && Started(states, |states|) <= Started(states, i)
    ensures Advanced(states, now, i) == Advanced(states, now, |states|)
    ensures Gathered(Advanced(states, now, |states|), levels, i) ==
             Gathered(Advanced(states, now, |states|), levels, |states|)
  {
    hide Gathered;
    NoneLeftToVisit(states, i, |states|);
    NothingMoreGathered(Advanced(states, now, |states|), levels, i, |states|);
  }

  // ------------------------------------------------------------ one step of the loop

  /** What one visited effect adds to the tick's parameters. */
  function Added(ps: seq<Parameters>, st: State, level: int): (r: seq<Parameters>)
    requires |ps| == SLOTS
  {
    if !st.playing then ps
    else if IsForce(st.effect.kind) then ps[0 := ps[0].(level := ps[0].level + level)]
    else if IsCondition(st.effect.kind) && 0 < st.slot < SLOTS then ps[st.slot := Written(ps[st.slot], st.effect)]
    else ps
  }

  lemma AddedIsGathered(states: seq<State>, levels: nat -> int, i: nat)
    requires i < |states| && StateFits(states[i])
    ensures Gathered(states, levels, i + 1) == Added(Gathered(states, levels, i), states[i], levels(i))
  {
    var a, b := Gathered(states, levels, i + 1), Added(Gathered(states, levels, i), states[i], levels(i));
    forall s | 0 <= s < SLOTS ensures a[s] == b[s] {
    }
  }

  class Engine {
    const states: array<State>
    const slots: array<Slot>
    const capFriction: bool
    var used: int
    var timerOn: bool
    var msecs: int

    ghost predicate Shape()
    {
      states.Length == MAX_EFFECTS && slots.Length == SLOTS && states as object != slots as object
    }

    ghost function View(): (e: Entry)
      reads this, states, slots
    {
      Entry(states[..], slots[..], used, timerOn)
    }

    ghost predicate Ready()
      reads this, states, slots
    {
      Shape() && Valid(View()) && msecs > 0
    }

    constructor (friction: bool, period: int)
      requires period > 0
      ensures Shape() && fresh(states) && fresh(slots) && msecs == period
    {
      states := new State[MAX_EFFECTS](_ => NO_STATE);
      slots := new Slot[SLOTS](i => Slot(i, [0, 0, 0, 0, 0, 0, 0], 0, false, NoKind));
      capFriction, used, timerOn, msecs := friction, 0, false, period;
    }

    /** Pack a slot's command and note whether it differs from the last one. */
    method UpdateSlot(i: nat, p: Parameters)
      requires Shape() && i < SLOTS && slots[i].id == i
      modifies slots
      ensures slots[..] == old(slots[..])[i := Updated(old(slots[i]), p)]
    {
      hide Payload;
      var original := slots[i].cmd;
      if original[0] % 16 == 1 {
        original := original[0 := original[0] / 16 * 16 + 12];
      }
      var op := slots[i].op;
      if slots[i].kind.Constant? {
        op := if op == 0 then 1 else 12;
      } else if p.clip == 0 || slots[i].kind.NoKind? {
        op := 3;
      } else {
        op := if op == 3 then 1 else 12;
      }
      slots[i] := slots[i].(op := op);
      var payload := if slots[i].op == 3 then [0, 0, 0, 0, 0, 0] else Payload(slots[i].kind, i, slots[i].cmd[1..], p);
      slots[i] := slots[i].(cmd := [SelectByte(i, slots[i].op)] + payload);
      if original != slots[i].cmd {
        slots[i] := slots[i].(updated := true);
      }
    }

    method Blank()
      requires Shape()
      modifies states, slots
      ensures states[..] == seq(MAX_EFFECTS, _ => NO_STATE) && slots[..] == BlankSlots()
    {
      forall i | 0 <= i < MAX_EFFECTS { states[i] := NO_STATE; }
      forall i | 0 <= i < SLOTS {
        slots[i] := Slot(i, [0, 0, 0, 0, 0, 0, 0], 0, false, if i == 0 then Constant else NoKind);
      }
    }

    /** Blank every effect and slot, and send all four slots whatever they held. */
    method InitSlots(fixedLoop: bool) returns (sent: seq<Command>)
      requires Shape() && msecs > 0 && used == 0 && !timerOn
      modifies states, slots
      ensures Ready() && View() == Entry(seq(MAX_EFFECTS, _ => NO_STATE), InitialSlots(), 0, false)
      ensures sent == InitialCommands(fixedLoop)
    {
      hide Valid, Updated, Packed, InitialSlots, BlankSlots, ZeroParameters;
      var loop: Command := [0x0d, if fixedLoop then 1 else 0, 0, 0, 0, 0, 0];
      sent := [loop];
      Blank();
      ghost var blank, zeros := BlankSlots(), ZeroParameters();
      for i := 0 to SLOTS
        invariant states[..] == seq(MAX_EFFECTS, _ => NO_STATE)
        invariant slots[..] == SlotsAfter(blank, zeros, i)
        invariant sent == [loop] + FlushAll(blank, zeros, i)
      {
        UpdatedCommand(slots[i], ZERO);
        UpdateSlot(i, ZERO);
        sent := sent + [slots[i].cmd];
        slots[i] := slots[i].(updated := false);
        assert slots[..] == SlotsAfter(blank, zeros, i + 1);
      }
      InitialSlotsAre();
      BlankIsValid(View());
    }

    /** Store an effect; one that is running is marked for the next tick. */
    method Upload(id: nat, effect: Effect, now: int) returns (ok: bool)
      requires Ready() && id < MAX_EFFECTS
      modifies states
      ensures Ready() && (View(), ok) == Uploaded(old(View()), id, effect, now)
      ensures ok <==>
               !(effect.kind.Periodic? && effect.period == 0) &&
                   !(old(states[id]).started && effect.kind != old(states[id]).effect.kind)
    {
      hide Valid;
      UploadKeepsValid(View(), id, effect, now);
      ghost var was := View();
      if effect.kind.Periodic? && effect.period == 0 {
        return false;
      }
      if states[id].started && effect.kind != states[id].effect.kind {
        return false;
      }
      states[id] := states[id].(effect := effect);
      if states[id].started {
        states[id] := states[id].(updating := true, updatedAt := now);
      }
      assert View().states == Uploaded(was, id, effect, now).0.states;
      return true;
    }

    /** Start an effect `value` times over, or stop it. */
    method Play(id: nat, value: int, now: int)
      requires Ready() && id < MAX_EFFECTS
      modifies this, states, slots
      ensures Ready() && View() == Played(old(View()), id, value, now, capFriction)
    {
      hide Valid, StateFits;
      PlayKeepsValid(View(), id, value, now, capFriction);
      ghost var was := View();
      SlotInRange(was, id);
      if value > 0 {
        if states[id].started {
          states[id] := Halted(states[id]);
        } else {
          used := used + 1;
          timerOn := true;
          if IsCondition(states[id].effect.kind) && states[id].slot == 0 {
            var i := 1;
            while i < 4 && !slots[i].kind.NoKind?
              invariant 1 <= i <= 4 && forall k :: 1 <= k < i ==> !slots[k].kind.NoKind?
            {
              i := i + 1;
            }
            assert i == FreeSlot(was.slots);
            if i < 4 {
              states[id] := states[id].(slot := i);
              slots[i] := slots[i].(kind := CastKind(states[id].effect.kind, capFriction));
            }
          }
        }
        states[id] := states[id].(started := true, startAt := now, count := value);
      } else if states[id].started {
        states[id] := Halted(states[id]);
        used := used - 1;
        if states[id].slot != 0 {
          slots[states[id].slot] := slots[states[id].slot].(kind := NoKind);
          states[id] := states[id].(slot := 0);
        }
      }
      assert View().states == Played(was, id, value, now, capFriction).states;
    }

    /** Bring a started effect's times and flags up to `now`. */
    method Refresh(id: nat, now: int)
      requires Shape() && id < MAX_EFFECTS
      modifies states
      ensures states[..] == old(states[..])[id := UpdateState(old(states[id]), now)]
    {
      var e := states[id].effect;
      if !states[id].allSet {
        states[id] := states[id].(allSet := true, playAt := states[id].startAt + e.delay);
        if !states[id].updating {
          states[id] := states[id].(updatedAt := states[id].playAt);
        }
        if e.length != 0 {
          states[id] := states[id].(stopAt := states[id].playAt + e.length);
        }
      }
      if states[id].updating {
        states[id] := states[id].(updating := false, playing := false, playAt := states[id].updatedAt + e.delay);
        if e.length != 0 {
          states[id] := states[id].(stopAt := states[id].updatedAt + e.length);
        }
      }
      if !states[id].playing && now >= states[id].playAt && (e.length == 0 || now < states[id].stopAt) {
        states[id] := states[id].(playing := true);
      }
    }

    /** Visit the started effects, leaving once all of them have been seen. */
    method Gather(now: int, levels: nat -> int) returns (ps: seq<Parameters>)
      requires Ready()
      modifies this`used, states
      ensures states[..] == Advanced(old(states[..]), now, MAX_EFFECTS)
      ensures used == Started(states[..], MAX_EFFECTS)
      ensures ps == Gathered(states[..], levels, MAX_EFFECTS)
    {
      hide Gathered, UpdateState, Valid, StateFits;
      ghost var was := states[..];
      ghost var all := Advanced(was, now, |was|);
      ps := ZeroParameters();
      var count := used;
      ReadyIsFit(View(), now);
      NothingYet(all, levels);
      assert states[..] == Advanced(was, now, 0);
      for id := 0 to MAX_EFFECTS
        invariant states[..] == Advanced(was, now, id)
        invariant used == Started(states[..], |was|)
        invariant count == Started(was, |was|) - Started(was, id)
        invariant ps == Gathered(all, levels, id) && |ps| == SLOTS
      {
        if count == 0 {
          EarlyExitIsFullScan(was, now, levels, id);
          break;
        }
        AddedIsGathered(all, levels, id);
        StartedUpdate(states[..], id, all[id], |was|);
        assert Advanced(was, now, id + 1) == Advanced(was, now, id)[id := all[id]];
        if states[id].started {
          count := count - 1;
          Visit(id, now);
          if states[id].started {
            ps := Added(ps, states[id], levels(id));
          }
        }
      }
    }

    /** One started effect: count off a repetition that is over, then bring it up to date. */
    method Visit(id: nat, now: int)
      requires Shape() && id < MAX_EFFECTS && states[id].started
      modifies this`used, states
      ensures states[..] == old(states[..])[id := Advance(old(states[id]), now)]
      ensures used == old(used) - if states[id].started then 0 else 1
    {
      if Expires(states[id], now) {
        states[id] := Halted(states[id]).(count := states[id].count - 1);
        if states[id].count == 0 {
          used := used - 1;
          return;
        }
        states[id] := states[id].(started := true, startAt := states[id].stopAt);
      }
      Refresh(id, now);
    }

    /** Pack all four slots and send the commands that changed. */
    method SendChanged(ps: seq<Parameters>) returns (sent: seq<Command>)
      requires Shape() && |ps| == SLOTS && forall i :: 0 <= i < SLOTS ==> slots[i].id == i
      modifies slots
      ensures slots[..] == SlotsAfter(old(slots[..]), ps, SLOTS)
      ensures sent == Flush(old(slots[..]), ps, SLOTS)
    {
      hide Updated, Packed;
      ghost var was := slots[..];
      sent := [];
      for i := 0 to SLOTS
        invariant slots[..] == SlotsAfter(was, ps, i)
        invariant sent == Flush(was, ps, i)
      {
        UpdatedCommand(slots[i], ps[i]);
        UpdateSlot(i, ps[i]);
        if slots[i].updated {
          sent := sent + [slots[i].cmd];
          slots[i] := slots[i].(updated := false);
        }
        assert slots[..] == SlotsAfter(was, ps, i + 1);
      }
    }

    /** The timer callback: whether to re-arm, and what went to the wheel. */
    method Timer(now: int, levels: nat -> int, g: Gains, backlog: bool, mode: int)
        returns (restart: bool, sent: seq<Command>)
      requires Ready() && timerOn
      modifies this, states, slots
      ensures Ready() && timerOn == restart
      ensures mode > 0 && backlog ==>
               restart && sent == [] && View() == old(View()) && msecs == old(msecs) * if mode == 1 then 2 else 1
      ensures !(mode > 0 && backlog) ==>
                && msecs == old(msecs) && View() == Ticked(old(View()), now, levels, g)
                && sent == Flush(old(slots[..]), TickParameters(old(View()), now, levels, g), SLOTS)
                && restart == (used != 0)
    {
      hide Valid, SlotsAfter, Flush;
      if mode > 0 && backlog {
        if mode == 1 {
          msecs := msecs * 2;
        }
        sent := [];
        return true, sent;
      }
      ghost var was := View();
      TickKeepsValid(was, now, levels, g);
      ReadyHasIds(was);
      var ps := Gather(now, levels);
      ps := AllScaled(ps, slots[..], g);
      sent := SendChanged(ps);
      timerOn := used != 0;
      restart := timerOn;
    }
  }

  lemma ReadyHasIds(e: Entry)
    requires Valid(e)
    ensures |e.states| == MAX_EFFECTS && |e.slots| == SLOTS && forall i :: 0 <= i < SLOTS ==> e.slots[i].id == i
  {
  }

  lemma ReadyIsFit(e: Entry, now: int)
    requires Valid(e)
    ensures e.used == Started(e.states, |e.states|)
    ensures forall j :: 0 <= j < MAX_EFFECTS ==>
             StateFits(Advance(e.states[j], now)) &&
                 (Advance(e.states[j], now).started || !Advance(e.states[j], now).playing)
  {
    hide UpdateState;
    forall j | 0 <= j < MAX_EFFECTS
        ensures StateFits(Advance(e.states[j], now)) &&
                 (Advance(e.states[j], now).started || !Advance(e.states[j], now).playing) {
      AdvanceFits(e.states[j], now);
    }
  }

  lemma NothingYet(states: seq<State>, levels: nat -> int)
    ensures Gathered(states, levels, 0) == ZeroParameters()
  {
  }

  lemma SlotInRange(e: Entry, id: nat)
    requires Valid(e) && id < MAX_EFFECTS
    ensures e.states[id].slot < SLOTS
  {
    assert StateFits(e.states[id]);
  }

  lemma UpdatedCommand(slot: Slot, p: Parameters)
    requires slot.id < SLOTS
    ensures Updated(slot, p).cmd == Packed(slot, p) && Updated(slot, p).id == slot.id
  {
  }

  lemma InitialSlotsAre()
    ensures InitialSlots() == SlotsAfter(BlankSlots(), ZeroParameters(), SLOTS)
  {
  }

  lemma BlankIsValid(e: Entry)
    requires e.states == seq(MAX_EFFECTS, _ => NO_STATE) && e.slots == InitialSlots() && e.used == 0
    ensures Valid(e)
  {
    NoneStarted(e.states, |e.states|);
  }

  lemma {:induction false} NoneStarted(states: seq<State>, n: nat)
    requires n <= |states| && forall j :: 0 <= j < n ==> !states[j].started
    ensures Started(states, n) == 0
  {
    if n > 0 { NoneStarted(states, n - 1); }
  }
}
