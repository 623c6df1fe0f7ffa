/**
 * The engine-texture merge for the direct-drive TrueForce stream
 * (mainline/hidpp_dd_texture_merge.h): five phase-locked harmonics, a rolling window,
 * and the splice into an otherwise silent packet. The sine table is a parameter.
 */
module TextureMerge {
  import opened Words
  import opened TfPackets
  import opened TexturePacer

  const HARMONICS: nat := 5
  const STALE: int := 200_000_000
  const MIN_RPM_X10: int := 3000

  type Word32 = w: int | 0 <= w < U32

  /** 1024 signed values of one sine turn. */
  type Sine = t: seq<Int16> | |t| == 1024 witness seq(1024, _ => 0)

  // ------------------------------------------------------------ the fitted bands

  const EDGES: seq<int> := [0, 14000, 19000, 24000, 29000]

  function Gain(band: nat, k: nat): (q12: int)
    requires band < 5 && k < HARMONICS
  {
    [[4096, 1556, 901, 655, 573],
     [4096, 451, 328, 205, 82],
     [4096, 614, 369, 328, 123],
     [4096, 942, 532, 328, 287],
     [4096, 1106, 1024, 287, 205]][band][k]
  }

  function AmpQ8(band: nat): (q8: int)
    requires band < 5
  {
    [325, 358, 355, 348, 339][band]
  }

  function BandOf(f0: int): (band: nat)
    ensures band < 5
  {
    if f0 >= 29000 then 4 else if f0 >= 24000 then 3 else if f0 >= 19000 then 2 else if f0 >= 14000 then 1 else 0
  }

  method BandFor(f0: Word32) returns (band: nat)
    ensures band == BandOf(f0) && EDGES[band] <= f0 && forall j :: band < j < 5 ==> f0 < EDGES[j]
  {
    band := 4;
    while band > 0 && f0 < EDGES[band]
      invariant 0 <= band < 5 && forall j :: band < j < 5 ==> f0 < EDGES[j]
    {
      band := band - 1;
    }
    assert EDGES[1] == 14000 && EDGES[2] == 19000 && EDGES[3] == 24000 && EDGES[4] == 29000;
  }

  // ------------------------------------------------------------ one sample

  /** Firing frequency in hundredths of a hertz. */
  function Firing(rpmX10: Word32, cylinders: Byte): (f0: Word32) {
    (rpmX10 as int * cylinders as int * 10) % U64 / 120 % U32
  }

  /** The fundamental's phase step, in turns of 2^32. */
  function Increment(f0: Word32): (inc: Word32) {
    (f0 as int * U32) / (100 * FS) % U32
  }

  /** All harmonics advance, audible or not. */
  function Turned(phases: seq<Word32>, inc: Word32): (r: seq<Word32>)
    ensures |r| == |phases|
  {
    seq(|phases|, k requires 0 <= k < |phases| => (phases[k] as int + (inc as int * (k + 1)) % U32) % U32)
  }

  predicate Audible(k: nat, f0: Word32) {
    (k + 1) * f0 < 45 * FS
  }

  function Harmonic(lut: Sine, phase: Word32, gain: int): (v: int) {
    (lut[phase / 0x40_0000] as int * gain) / 4096
  }

  /** The sum of the audible harmonics among the first n. */
  function Mix(lut: Sine, phases: seq<Word32>, f0: Word32, n: nat): (acc: int)
    requires n <= HARMONICS <= |phases|
  {
    if n == 0 then 0
    else Mix(lut, phases, f0, n - 1) +
         if Audible(n - 1, f0) then Harmonic(lut, phases[n - 1], Gain(BandOf(f0), n - 1)) else 0
  }

  function Amplitude(f0: Word32): (amp: int) {
    (((72 + (113 * (f0 / 100)) % U32 / 100) * AmpQ8(BandOf(f0))) % U32) / 256
  }

  function Levelled(acc: int, amp: int, intensity: Word16): (s: Int16) {
    var v := ToS32((acc * amp) / 0x8000);
    var scaled := ToS32(TruncDiv(v * intensity, 100));
    if scaled > 0x7fff then 0x7fff else if scaled < -0x8000 then -0x8000 else scaled
  }

  function SampleAt(lut: Sine, phases: seq<Word32>, f0: Word32, intensity: Word16): (s: Int16)
    requires |phases| == HARMONICS
  {
    Levelled(Mix(lut, phases, f0, HARMONICS), Amplitude(f0), intensity)
  }

  // ------------------------------------------------------------ phase lock

  /** Every harmonic stands where the fundamental puts it. */
  ghost predicate Locked(phases: seq<Word32>) {
    |phases| == HARMONICS && forall k :: 0 <= k < HARMONICS ==> phases[k] == ((k + 1) * phases[0]) % U32
  }

  lemma ModShift(x: int, j: int)
    ensures (x + U32 * j) % U32 == x % U32
  {
  }

  lemma AddMods(a: int, b: int)
    ensures (a % U32 + b % U32) % U32 == (a + b) % U32
  {
    ModShift(a % U32 + b % U32, a / U32 + b / U32);
  }

  lemma MulMod(m: int, c: int)
    ensures (m * (c % U32)) % U32 == (m * c) % U32
  {
    var q := c / U32;
    Distribute(U32 * q, c % U32, m);
    assert m * (U32 * q) == U32 * (m * q) by { Reorder(m, U32, q); }
    ModShift(m * (c % U32), m * q);
  }

  lemma Reorder(a: int, b: int, c: int)
    ensures a * (b * c) == b * (a * c)
  {
  }

  lemma MultipleTurns(p: Word32, inc: Word32, m: nat)
    ensures (((m * p) % U32) + (inc as int * m) % U32) % U32 == (m * ((p as int + inc) % U32)) % U32
  {
    AddMods(m * p, inc as int * m);
    MulMod(m, p as int + inc);
    Distribute(p, inc, m);
  }

  lemma TurningKeepsLock(phases: seq<Word32>, inc: Word32)
    requires Locked(phases)
    ensures Locked(Turned(phases, inc))
  {
    var r := Turned(phases, inc);
    forall k | 0 <= k < HARMONICS ensures r[k] == ((k + 1) * r[0]) % U32 {
      assert r[0] == (phases[0] as int + inc) % U32;
      MultipleTurns(phases[0], inc, k + 1);
    }
  }

  /** Phases after any sequence of frequencies, one sample each. */
  function PhasesAfter(phases: seq<Word32>, f0s: seq<Word32>): (r: seq<Word32>)
    requires |phases| == HARMONICS
    ensures |r| == HARMONICS
    decreases |f0s|
  {
    if f0s == [] then phases else PhasesAfter(Turned(phases, Increment(f0s[0])), f0s[1..])
  }

  /** From rest, whatever frequencies follow and however often harmonics drop out, all stay in step. */
  lemma {:induction false} HarmonicsStayLocked(phases: seq<Word32>, f0s: seq<Word32>)
    requires Locked(phases)
    ensures Locked(PhasesAfter(phases, f0s))
    decreases |f0s|
  {
    if f0s != [] {
      TurningKeepsLock(phases, Increment(f0s[0]));
      HarmonicsStayLocked(Turned(phases, Increment(f0s[0])), f0s[1..]);
    }
  }

  /** The sum of audible harmonics of a bare fundamental phase. */
  function Chord(lut: Sine, phase: Word32, f0: Word32, n: nat): (acc: int)
    requires n <= HARMONICS
  {
    if n == 0 then 0
    else Chord(lut, phase, f0, n - 1) +
         if Audible(n - 1, f0) then Harmonic(lut, (n * phase) % U32, Gain(BandOf(f0), n - 1)) else 0
  }

  lemma {:induction false} LockedMixIsChord(lut: Sine, phases: seq<Word32>, f0: Word32, n: nat)
    requires Locked(phases) && n <= HARMONICS
    ensures Mix(lut, phases, f0, n) == Chord(lut, phases[0], f0, n)
  {
    hide Harmonic, Gain, BandOf, Audible;
    if n > 0 {
      LockedMixIsChord(lut, phases, f0, n - 1);
      assert phases[n - 1] == (n * phases[0]) % U32;
    }
  }

  /** So a sample depends on the fundamental's phase alone: nothing remembers which harmonics were dropped. */
  lemma SampleForgetsDropouts(lut: Sine, a: seq<Word32>, b: seq<Word32>, f0: Word32, intensity: Word16)
    requires Locked(a) && Locked(b) && a[0] == b[0]
    ensures SampleAt(lut, a, f0, intensity) == SampleAt(lut, b, f0, intensity)
    ensures SampleAt(lut, a, f0, intensity) == Levelled(Chord(lut, a[0], f0, HARMONICS), Amplitude(f0), intensity)
  {
    hide Levelled, Chord, Mix, Amplitude;
    LockedMixIsChord(lut, a, f0, HARMONICS);
    LockedMixIsChord(lut, b, f0, HARMONICS);
  }

  // ------------------------------------------------------------ packets and windows

  function Offset(s: Int16): (w: Word16) {
    (s + 0x8000) % U16
  }

  function OffsetAll(window: seq<Int16>): (ws: seq<Word16>)
    ensures |ws| == |window|
  {
    seq(|window|, i requires 0 <= i < |window| => Offset(window[i]))
  }

  predicate Eligible(buf: seq<Byte>) {
    |buf| == 64 && buf[0] == 1 && buf[4] == 1 && buf[10] == 0
  }

  function SplicedInto(buf: seq<Byte>, window: seq<Int16>): (r: seq<Byte>)
    requires Eligible(buf) && |window| == WINDOW
    ensures |r| == 64
  {
    buf[..10] + [4, 0x0d] + WindowBytes(OffsetAll(window))
  }

  /** Of the library's packets exactly the idle ones take a splice, and the result is its own stream packet. */
  lemma SplicedIdleIsStream(p: Packet, window: seq<Int16>)
    requires p.Valid() && |window| == WINDOW
    ensures Eligible(Encode(p)) <==> p.Idle?
    ensures p.Idle? ==> SplicedInto(Encode(p), window) == Encode(Stream(p.seqNo, p.current, OffsetAll(window), 4))
    ensures p.Idle? ==> !Eligible(SplicedInto(Encode(p), window))
  {
    if p.Idle? {
      var idle, spliced := Encode(p), SplicedInto(Encode(p), window);
      assert idle[..10] == [1, 0, 0, 0, 1, p.seqNo] + Twice(p.current);
      assert spliced[10] == 4;
    }
  }

  /** The newest four slots of a packet, as the wheel reads them. */
  function Newest(packet: seq<Byte>): (ws: seq<Word16>)
    requires |packet| == 64
  {
    WindowIn(packet)[WINDOW - BLOCK..]
  }

  /** Two packets in a row share nine slots; the other four are the block synthesised in between. */
  lemma SplicedPacketsOverlap(buf: seq<Byte>, buf': seq<Byte>, window: seq<Int16>, block: seq<Int16>)
    requires Eligible(buf) && Eligible(buf') && |window| == WINDOW && |block| == BLOCK
    ensures var first, second := SplicedInto(buf, window), SplicedInto(buf', window[BLOCK..] + block);
            && WindowIn(second)[..WINDOW - BLOCK] == WindowIn(first)[BLOCK..]
            && Newest(second) == OffsetAll(block)
            && second[..10] == buf'[..10]
  {
    WindowSurvives(buf[..10] + [4, 0x0d], OffsetAll(window));
    WindowSurvives(buf'[..10] + [4, 0x0d], OffsetAll(window[BLOCK..] + block));
  }
}
