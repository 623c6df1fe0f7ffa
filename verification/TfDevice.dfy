/**
 * The stream half of `struct logitf_device` and the functions that work on it in
 * place (userspace/libtrueforce/src/stream.c), one call at a time.
 */
module TfDevice {
  import opened Words
  import opened TfPackets
  import opened TfTick
  import R = SampleRing

  datatype Status = Ok | InvalidArg | Io

  /** A caller's sample pointer. */
  datatype Buffer = Null | Samples(data: seq<Int16>)

  class Device {
    const ring: R.Ring
    const window: array<Word16>
    const pkt: array<Byte>
    var current: Word16
    var idleTicks: nat
    var starvedTicks: nat
    var seqNo: Byte
    var paused: bool
    var armed: bool
    var pending: bool
    var running: bool
    var shuttingDown: bool
    var streamError: int
    /** Every packet the device node has accepted. */
    ghost var wire: seq<Packet>

    ghost predicate Valid()
      reads this, ring, window
    {
      && ring.Valid()
      && window.Length == WINDOW && pkt.Length == 64
      && window as object != ring.data && pkt as object != ring.data && pkt as object != window
      && idleTicks < IDLE_GRACE_TICKS
      && starvedTicks <= STARVE_HOLD_TICKS + 1
    }

    ghost function View(): (d: Dev)
      requires Valid()
      reads this, ring, ring.data, window
      ensures d.Valid()
    {
      Dev(window[..], current, idleTicks, starvedTicks, seqNo, ring.Queue(), paused, armed, pending)
    }

    /** A device whose init sequence has just completed and whose stream has just started. */
    constructor ()
      ensures Valid() && fresh(ring) && fresh(ring.data) && fresh(window) && fresh(pkt)
      ensures View() == Dev(CENTRED, CENTRE, 0, 0, 69, [], false, false, false)
      ensures running && !shuttingDown && streamError == 0 && wire == []
    {
      ring := new R.Ring();
      window := new Word16[WINDOW](_ => 0x8000);
      pkt := new Byte[64](_ => 0);
      current, idleTicks, starvedTicks, seqNo := 0x8000, 0, 0, 69;
      paused, armed, pending, running, shuttingDown, streamError := false, false, false, true, false, 0;
      wire := [];
    }

    /** write(2) of a whole report. */
    method Write(ghost p: Packet)
      requires pkt.Length == 64 && p.Valid() && pkt[..] == Encode(p)
      modifies this`wire
      ensures wire == old(wire) + [p]
    {
      wire := wire + [p];
    }

    method TakeSeq() returns (n: Byte)
      modifies this`seqNo
      ensures n == old(seqNo) && seqNo == (n + 1) % U8
    {
      n := seqNo;
      seqNo := ((seqNo as int) + 1) % U8;
    }

    method SendStopPair()
      requires Valid()
      modifies this`seqNo, this`armed, this`wire, pkt
      ensures Valid()
      ensures View() == StopPair(old(View())).0
      ensures wire == old(wire) + StopPair(old(View())).1
    {
      if armed {
        return;
      }
      var n := TakeSeq();
      BuildCtrlPacket(pkt, STOP_CLEAR, n);
      Write(Ctrl(STOP_CLEAR, n));
      n := TakeSeq();
      BuildCtrlPacket(pkt, ARM, n);
      Write(Ctrl(ARM, n));
      armed := true;
    }

    /** Shift the window left by the block's length and append the block. */
    method ShiftIn(block: seq<Word16>)
      requires Valid() && |block| <= WINDOW
      modifies window
      ensures window[..] == old(window[..])[|block|..] + block
    {
      var shift := |block|;
      var i := 0;
      while i < WINDOW - shift
        invariant 0 <= i <= WINDOW - shift
        invariant forall j :: 0 <= j < i ==> window[j] == old(window[j + shift])
        invariant forall j :: i <= j < WINDOW ==> window[j] == old(window[j])
      {
        window[i] := window[i + shift];
        i := i + 1;
      }
      while i < WINDOW
        invariant WINDOW - shift <= i <= WINDOW
        invariant forall j :: 0 <= j < WINDOW - shift ==> window[j] == old(window[j + shift])
        invariant forall j :: WINDOW - shift <= j < i ==> window[j] == block[j - (WINDOW - shift)]
      {
        window[i] := block[i - (WINDOW - shift)];
        i := i + 1;
      }
    }

    /** The part of a tick between the drain and the decision. */
    method AbsorbBlock(block: seq<Word16>)
      requires Valid() && |block| <= CATCHUP_MAX
      modifies this`current, this`starvedTicks, window
      ensures Valid()
      ensures View() == Absorb(old(View()), block)
    {
      if |block| > 0 {
        ShiftIn(block);
        current := window[WINDOW - 1];
        starvedTicks := 0;
      } else {
        var held := starvedTicks <= STARVE_HOLD_TICKS;
        if held {
          starvedTicks := starvedTicks + 1;
          held := starvedTicks <= STARVE_HOLD_TICKS;
        }
        if !held {
          ShiftIn(FLUSH);
          current := Decay(current);
        }
      }
    }

    method IsSilent(block: seq<Word16>) returns (silent: bool)
      ensures silent <==> Silent(block)
    {
      for i := 0 to |block|
        invariant Silent(block[..i])
      {
        if block[i] != CENTRE {
          return false;
        }
      }
      assert block[..|block|] == block;
      return true;
    }

    method EmitIdle()
      requires Valid()
      modifies this`seqNo, this`wire, pkt
      ensures Valid() && View() == old(View()).Bump()
      ensures wire == old(wire) + [Idle(old(seqNo), current)]
    {
      var n := TakeSeq();
      BuildIdlePacket(pkt, n, current);
      Write(Idle(n, current));
    }

    method EmitStream(count: Byte)
      requires Valid() && 1 <= count <= 12
      modifies this`seqNo, this`wire, this`armed, pkt
      ensures Valid() && View() == old(View()).Bump().(armed := false)
      ensures wire == old(wire) + [Stream(old(seqNo), current, window[..], count)]
    {
      armed := false;
      var n := TakeSeq();
      BuildStreamPacket(pkt, n, current, window, count);
      Write(Stream(n, current, window[..], count));
    }

    /** The decision half of a tick. */
    method RespondTo(block: seq<Word16>, wasPaused: bool, wasArmed: bool)
      requires Valid() && |block| <= CATCHUP_MAX
      modifies this`idleTicks, this`seqNo, this`armed, this`wire, pkt
      ensures Valid()
      ensures View() == Respond(old(View()), block, wasPaused, wasArmed).0
      ensures wire == old(wire) + Respond(old(View()), block, wasPaused, wasArmed).1
    {
      if wasPaused {
        return;
      }
      var silent := IsSilent(block);
      if silent {
        if wasArmed {
          return;
        }
        if current == CENTRE {
          if idleTicks + 1 >= IDLE_GRACE_TICKS {
            idleTicks := 0;
            SendStopPair();
            return;
          }
          idleTicks := idleTicks + 1;
        } else {
          idleTicks := 0;
        }
        EmitIdle();
      } else {
        idleTicks := 0;
        EmitStream(|block|);
      }
    }

    /** One tick: drain, update the window, put at most one packet or one pair on the wire. */
    method TickN(expiries: nat)
      requires Valid()
      modifies this, window, pkt, ring
      ensures Valid()
      ensures View() == Tick(old(View()), expiries).0
      ensures wire == old(wire) + Tick(old(View()), expiries).1
    {
      if pending {
        SendStopPair();
        pending := false;
        return;
      }
      var wasPaused, wasArmed := paused, armed;
      var want := NEW;
      if expiries > 1 {
        want := if expiries >= CATCHUP_MAX / NEW then CATCHUP_MAX else expiries * NEW;
      }
      var block := ring.Drain(want);
      AbsorbBlock(block);
      RespondTo(block, wasPaused, wasArmed);
    }

    /** Accepts samples exactly while a healthy stream is running. */
    method PushS16(samples: Buffer, count: int) returns (status: Status)
      requires Valid()
      requires samples.Samples? ==> count <= |samples.data|
      modifies ring, ring.data
      ensures Valid()
      ensures status == if samples.Null? || count < 0 then InvalidArg
                        else if count == 0 then Ok
                        else if streamError != 0 || shuttingDown || !running then Io
                        else Ok
      ensures ring.Queue() == if status.Ok? && count > 0 then R.PushQueue(old(ring.Queue()), samples.data[..count])
                              else old(ring.Queue())
    {
      if samples.Null? || count < 0 {
        return InvalidArg;
      }
      if count == 0 {
        return Ok;
      }
      if streamError != 0 || shuttingDown || !running {
        return Io;
      }
      ring.Push(samples.data[..count]);
      return Ok;
    }

    method StreamClear()
      requires Valid()
      modifies this`current, ring, window
      ensures Valid()
      ensures View() == old(View()).(queue := [], window := CENTRED, current := CENTRE)
    {
      ring.Clear();
      for i := 0 to WINDOW
        modifies window
        invariant forall j :: 0 <= j < i ==> window[j] == CENTRE
      {
        window[i] := 0x8000;
      }
      current := 0x8000;
    }
  }
}
