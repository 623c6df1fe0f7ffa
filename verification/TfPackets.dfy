/**
 * The 64-byte TrueForce reports of interface 2
 * (userspace/libtrueforce/src/stream.c).
 */
module TfPackets {
  import opened Words

  const WINDOW: nat := 13
  const STOP_CLEAR: Byte := 0x04
  const ARM: Byte := 0x03

  datatype Packet =
    | Stream(seqNo: Byte, current: Word16, window: seq<Word16>, count: Byte)
    | Idle(seqNo: Byte, current: Word16)
    | Ctrl(kind: Byte, seqNo: Byte)
  {
    /** What the session ever puts on the wire. */
    predicate Valid() {
      match this
      case Stream(_, _, window, count) => |window| == WINDOW && 1 <= count <= 12
      case Idle(_, _) => true
      case Ctrl(kind, _) => kind == STOP_CLEAR || kind == ARM
    }

    /** The slots a stream packet declares new. */
    function Fresh(): (ws: seq<Word16>) {
      if Stream? then LastN(window, count) else []
    }
  }

  /** A 16-bit value little-endian, twice. */
  function Twice(w: Word16): (bs: seq<Byte>)
    ensures |bs| == 4
  {
    [w % 256, w / 256, w % 256, w / 256]
  }

  function WindowBytes(window: seq<Word16>): (bs: seq<Byte>)
    ensures |bs| == 4 * |window|
  {
    seq(4 * |window|, j requires 0 <= j < 4 * |window| => Twice(window[j / 4])[j % 4])
  }

  function Zeros(n: nat): (bs: seq<Byte>)
    ensures |bs| == n
  {
    seq(n, _ => 0)
  }

  /** The wire image of a packet. */
  function Encode(p: Packet): (bs: seq<Byte>)
    requires p.Valid()
    ensures |bs| == 64
  {
    match p
    case Stream(n, current, window, count) =>
      [1, 0, 0, 0, 1, n] + Twice(current) + [count, 0x0d] + WindowBytes(window)
    case Idle(n, current) =>
      [1, 0, 0, 0, 1, n] + Twice(current) + Zeros(54)
    case Ctrl(kind, n) =>
      [1, 0, 0, 0, kind, n] + Zeros(58)
  }

  /** How the wheel tells the shapes apart: byte 4, then byte 10. */
  function Decode(bs: seq<Byte>): (p: Packet)
    requires |bs| == 64
  {
    if bs[4] != 1 then Ctrl(bs[4], bs[5])
    else if bs[10] == 0 then Idle(bs[5], WordAt(bs, 6))
    else Stream(bs[5], WordAt(bs, 6), WindowIn(bs), bs[10])
  }

  /** No two packets of the session share a wire image, and every field survives the trip. */
  lemma EncodingIsFaithful(p: Packet)
    requires p.Valid()
    ensures Decode(Encode(p)) == p
  {
    if p.Stream? {
      WindowSurvives([1, 0, 0, 0, 1, p.seqNo] + Twice(p.current) + [p.count, 0x0d], p.window);
    }
  }

  /** The report id, the packet type, the sequence byte, and for samples the force, twice. */
  predicate HeaderIs(bs: seq<Byte>, p: Packet)
    requires |bs| == 64
  {
    && bs[0] == 0x01 && bs[1] == 0 && bs[2] == 0 && bs[3] == 0 && bs[5] == p.seqNo
    && bs[4] == (if p.Ctrl? then p.kind else 0x01)
    && (!p.Ctrl? ==> bs[6] == p.current % 256 && bs[7] == p.current / 256 && bs[8] == bs[6] && bs[9] == bs[7])
  }

  /** What every image carries beside its fields: the report id, each value twice, the constant, and zeros. */
  lemma WireLayout(p: Packet)
    requires p.Valid()
    ensures HeaderIs(Encode(p), p)
    ensures p.Ctrl? ==> forall i :: 6 <= i < 64 ==> Encode(p)[i] == 0
    ensures p.Idle? ==> forall i :: 10 <= i < 64 ==> Encode(p)[i] == 0
    ensures p.Stream? ==> Encode(p)[10] == p.count && Encode(p)[11] == 0x0d
    ensures p.Stream? ==> forall i :: 0 <= i < WINDOW ==> SlotIs(Encode(p), i, p.window[i])
  {
    if p.Stream? {
      forall i | 0 <= i < WINDOW ensures SlotIs(Encode(p), i, p.window[i]) {
        SlotLayout([1, 0, 0, 0, 1, p.seqNo] + Twice(p.current) + [p.count, 0x0d], p.window, i);
      }
    }
    hide WindowBytes, SlotIs;
  }

  lemma SlotLayout(front: seq<Byte>, window: seq<Word16>, i: nat)
    requires |front| == 12 && |window| == WINDOW && i < WINDOW
    ensures SlotIs(front + WindowBytes(window), i, window[i])
  {
    WindowSlot(window, i);
    var ws := WindowBytes(window);
    assert ws[4 * i + 0] == window[i] % 256 && ws[4 * i + 1] == window[i] / 256;
    assert ws[4 * i + 2] == window[i] % 256 && ws[4 * i + 3] == window[i] / 256;
  }

  /** Slot i of a report holds w low byte first, twice. */
  predicate SlotIs(bs: seq<Byte>, i: nat, w: Word16)
    requires |bs| == 64 && i < WINDOW
  {
    && bs[12 + 4 * i] == w % 256 && bs[13 + 4 * i] == w / 256
    && bs[14 + 4 * i] == w % 256 && bs[15 + 4 * i] == w / 256
  }

  function WindowIn(bs: seq<Byte>): (ws: seq<Word16>)
    requires |bs| == 64
    ensures |ws| == WINDOW
  {
    seq(WINDOW, i requires 0 <= i < WINDOW => WordAt(bs, 12 + 4 * i))
  }

  lemma WindowSurvives(front: seq<Byte>, window: seq<Word16>)
    requires |front| == 12 && |window| == WINDOW
    ensures WindowIn(front + WindowBytes(window)) == window
  {
    var bs := front + WindowBytes(window);
    forall i | 0 <= i < WINDOW
      ensures WindowIn(bs)[i] == window[i]
    {
      WindowSlot(window, i);
      assert bs[12 + 4 * i] == WindowBytes(window)[4 * i + 0];
      assert bs[13 + 4 * i] == WindowBytes(window)[4 * i + 1];
    }
  }

  /** The header both sample shapes share. */
  method WriteHeader(pkt: array<Byte>, seqNo: Byte, current: Word16)
    requires pkt.Length == 64
    modifies pkt
    ensures pkt[..] == [1, 0, 0, 0, 1, seqNo] + Twice(current) + Zeros(54)
  {
    Clear(pkt);
    pkt[0] := 0x01;
    pkt[4] := 0x01;
    pkt[5] := seqNo;
    pkt[6] := current % 256;
    pkt[7] := current / 256;
    pkt[8] := current % 256;
    pkt[9] := current / 256;
  }

  /** Thirteen slots, oldest first, each duplicated, from byte 12 on. */
  method WriteWindow(pkt: array<Byte>, window: seq<Word16>)
    requires pkt.Length == 64 && |window| == WINDOW
    modifies pkt
    ensures pkt[..] == old(pkt[..12]) + WindowBytes(window)
  {
    ghost var bytes := WindowBytes(window);
    for i := 0 to WINDOW
      invariant forall j :: 0 <= j < 12 ==> pkt[j] == old(pkt[j])
      invariant forall j :: 12 <= j < 12 + 4 * i ==> pkt[j] == bytes[j - 12]
    {
      var v := window[i];
      var p := 12 + i * 4;
      WindowSlot(window, i);
      pkt[p], pkt[p + 1], pkt[p + 2], pkt[p + 3] := v % 256, v / 256, v % 256, v / 256;
    }
  }

  lemma WindowSlot(window: seq<Word16>, i: nat)
    requires i < |window|
    ensures forall k :: 0 <= k < 4 ==> WindowBytes(window)[4 * i + k] == Twice(window[i])[k]
  {
  }

  method BuildStreamPacket(pkt: array<Byte>, seqNo: Byte, current: Word16, window: array<Word16>, newCount: Byte)
    requires pkt.Length == 64 && window.Length == WINDOW && 1 <= newCount <= 12
    modifies pkt
    ensures pkt[..] == Encode(Stream(seqNo, current, window[..], newCount))
  {
    WriteHeader(pkt, seqNo, current);
    pkt[10] := newCount;
    pkt[11] := 0x0d;
    ghost var front := pkt[..12];
    assert front == [1, 0, 0, 0, 1, seqNo] + Twice(current) + [newCount, 0x0d];
    WriteWindow(pkt, window[..]);
  }

  method BuildIdlePacket(pkt: array<Byte>, seqNo: Byte, current: Word16)
    requires pkt.Length == 64
    modifies pkt
    ensures pkt[..] == Encode(Idle(seqNo, current))
  {
    WriteHeader(pkt, seqNo, current);
  }

  method BuildCtrlPacket(pkt: array<Byte>, kind: Byte, seqNo: Byte)
    requires pkt.Length == 64 && (kind == STOP_CLEAR || kind == ARM)
    modifies pkt
    ensures pkt[..] == Encode(Ctrl(kind, seqNo))
  {
    Clear(pkt);
    pkt[0] := 0x01;
    pkt[4] := kind;
    pkt[5] := seqNo;
  }

  method Clear(pkt: array<Byte>)
    modifies pkt
    ensures pkt[..] == Zeros(pkt.Length)
  {
    forall i | 0 <= i < pkt.Length {
      pkt[i] := 0;
    }
  }
}
