/**
 * Pitch and loudness of the spliced texture, in terms of the engine and the settings
 * (mainline/hidpp_dd_texture_merge.h).
 */
module TextureSound {
  import opened Words
  import opened TfPackets
  import opened TexturePacer
  import opened TextureMerge
  import opened TextureSplice

  // ------------------------------------------------------------ pitch

  /** A twelfth of the product is the firing frequency in 0.01 Hz, unless it leaves 32 bits. */
  lemma FiringIsExactIff(rpmX10: Word32, cylinders: Byte)
    ensures var f0: int, strokes := Firing(rpmX10, cylinders), rpmX10 as int * cylinders as int;
            12 * f0 <= strokes < 12 * f0 + 12 <==> strokes < 12 * U32
  {
    var strokes := rpmX10 as int * cylinders as int;
    MulLe(rpmX10, U32, cylinders);
    MulLe(cylinders, U8, U32);
    MulLe(0, rpmX10, cylinders);
    Twelfths(strokes);
  }

  lemma Twelfths(strokes: nat)
    requires strokes < U32 * U8
    ensures strokes * 10 % U64 / 120 == strokes / 12
    ensures var f0 := strokes / 12 % U32; 12 * f0 <= strokes < 12 * f0 + 12 <==> strokes < 12 * U32
  {
  }

  /** The phase step a firing frequency asks for, whole turns included, and how far it is off. */
  lemma StepFollowsTheEngine(strokes: nat)
    ensures var step := strokes / 12 * U32 / 400000;
            4800000 * step <= strokes * U32 < 4800000 * step + 4800000 + 12 * U32
  {
  }

  /** All five harmonics where a fundamental at this phase puts them. */
  function InStep(phase: Word32): (phases: seq<Word32>)
    ensures Locked(phases) && phases[0] == phase
  {
    assert phase % U32 == phase;
    seq(HARMONICS, k requires 0 <= k < HARMONICS => ((k + 1) * phase) % U32)
  }

  /** Where the fundamental stands after n samples of one step each. */
  function Turn(phase: Word32, step: nat, n: nat): (r: Word32) {
    (phase as int + n * step) % U32
  }

  lemma TurnOnce(phase: Word32, step: nat, inc: Word32, n: nat)
    requires inc == step % U32
    ensures Turn((phase as int + inc) % U32, step, n) == Turn(phase, step, n + 1)
  {
    WrapOnce(phase as int + inc, n * step);
    Distribute(n, 1, step);
    ModShift(phase as int + inc + n * step, step / U32);
  }

  lemma WrapOnce(a: int, b: int)
    ensures (a % U32 + b) % U32 == (a + b) % U32
  {
    ModShift(a % U32 + b, a / U32);
  }

  /** Every sample of notes at one frequency, whatever their intensities, is a chord some steps on. */
  lemma {:induction false} OscillatorAt(lut: Sine, phase: Word32, notes: seq<Note>, f0: Word32, j: nat)
    requires j < |notes| && forall note :: note in notes ==> note.f0 == f0
    ensures |Oscillator(lut, phase, notes)| == |notes|
    ensures Oscillator(lut, phase, notes)[j] ==
            SampleAt(lut, InStep(Turn(phase, f0 as int * U32 / 400000, j + 1)), f0, notes[j].intensity)
    decreases |notes|
  {
    hide Levelled, Amplitude, Chord, InStep, Turn, SampleAt, Mix;
    OneSampleANote(lut, phase, notes);
    var step := f0 as int * U32 / 400000;
    var inc := Increment(f0);
    var ph := (phase as int + inc) % U32;
    TurnOnce(phase, step, inc, j);
    if j == 0 {
      assert Turn(ph, step, 0) == ph by { NoTurn(ph, step); }
      SampleForgetsDropouts(lut, InStep(ph), InStep(ph), f0, notes[0].intensity);
    } else {
      OscillatorAt(lut, ph, notes[1..], f0, j - 1);
    }
  }

  lemma NoTurn(phase: Word32, step: nat)
    ensures Turn(phase, step, 0) == phase
  {
  }

  lemma {:induction false} HeldNotes(note: Note, n: nat)
    ensures forall x :: x in Held(note, n) ==> x == note
  {
    if n > 0 { HeldNotes(note, n - 1); }
  }

  /** Every note of a run carries the settings of one of its calls. */
  lemma {:induction false} NotesComeFromCalls(pacer: Pacer, calls: seq<Call>, note: Note)
    requires pacer.Valid() && note in Notes(pacer, calls)
    ensures exists c :: c in calls &&
              note == Note(Firing(c.settings.rpmX10, c.settings.cylinders), c.settings.intensity)
    decreases |calls|
  {
    hide Paced, Gate, Firing;
    var c, rest := calls[0], calls[1..];
    if !Gate(c.settings, c.buf, c.now) {
      NotesComeFromCalls(pacer, rest, note);
    } else {
      var (p, n) := Paced(pacer, c.now);
      var held := Note(Firing(c.settings.rpmX10, c.settings.cylinders), c.settings.intensity);
      HeldNotes(held, n);
      if note in Held(held, n) {
        assert c in calls;
      } else {
        NotesComeFromCalls(p, rest, note);
      }
    }
  }

  /**
   * Any run of calls at one engine speed, with the rest of the settings, the packets and
   * the times at will: before sample j + 1 is heard the fundamental has turned j + 1
   * steps of rpm * cylinders / 120 / 4000 turns each, to within a hundredth of a hertz
   * and a 2^32nd of a turn, and the other harmonics stand where it puts them.
   */
  lemma PitchFollowsTheEngine(lut: Sine, m: Merge, calls: seq<Call>, rpmX10: Word32, cylinders: Byte, j: nat)
    requires m.Valid() && Locked(m.phases) && j < |Heard(lut, m, calls)|
    requires rpmX10 as int * cylinders as int < 12 * U32
    requires forall c :: c in calls ==> c.settings.rpmX10 == rpmX10 && c.settings.cylinders == cylinders
    ensures var strokes := rpmX10 as int * cylinders as int;
            var f0, step := strokes / 12, strokes / 12 * U32 / 400000;
            && 4800000 * step <= strokes * U32 < 4800000 * step + 4800000 + 12 * U32
            && exists c :: c in calls &&
                 Heard(lut, m, calls)[j] ==
                 Offset(SampleAt(lut, InStep(Turn(m.phases[0], step, j + 1)), f0, c.settings.intensity))
  {
    hide Firing, Turn, InStep, SampleAt, Offset, Gate, Paced, Heard;
    var strokes := rpmX10 as int * cylinders as int;
    var f0 := Firing(rpmX10, cylinders);
    FiringIsExactIff(rpmX10, cylinders);
    StepFollowsTheEngine(strokes);
    assert f0 == strokes / 12;
    var notes := Notes(m.pacer, calls);
    WheelHearsOneOscillator(lut, m, calls);
    OneSampleANote(lut, m.phases[0], notes);
    forall note | note in notes ensures note.f0 == f0 {
      NotesComeFromCalls(m.pacer, calls, note);
    }
    OscillatorAt(lut, m.phases[0], notes, f0, j);
    NotesComeFromCalls(m.pacer, calls, notes[j]);
  }

  // ------------------------------------------------------------ one harmonic

  /** A harmonic is the table's value at its phase, less what its gain takes off. */
  lemma HarmonicReadsTheTable(lut: Sine, phase: Word32, gain: int)
    requires 0 <= gain <= 4096
    ensures var value: int := lut[phase * 1024 / U32];
            && 4096 * Harmonic(lut, phase, gain) <= value * gain < 4096 * Harmonic(lut, phase, gain) + 4096
            && -0x8000 <= Harmonic(lut, phase, gain) <= 0x7fff
  {
    var value: int := lut[phase / 0x40_0000];
    assert phase * 1024 / U32 == phase / 0x40_0000;
    MulLe(-0x8000, value, gain);
    MulLe(value, 0x7fff, gain);
    MulLe(gain, 4096, 0x7fff);
    MulLe(gain, 4096, 0x8000);
  }

  /** The fundamental is never turned down, and no harmonic is louder than the one below it. */
  lemma GainsFallOff(band: nat, k: nat)
    requires band < 5 && k < HARMONICS
    ensures Gain(band, 0) == 4096 && 0 < Gain(band, k) <= 4096
    ensures k > 0 ==> Gain(band, k) < Gain(band, k - 1)
  {
  }

  /** The measured level of each harmonic against the fundamental, in percent (tools/gen_texmerge_tables.py). */
  function Percent(band: nat, k: nat): (p: nat)
    requires band < 5 && k < HARMONICS
  {
    [[100, 38, 22, 16, 14], [100, 11, 8, 5, 2], [100, 15, 9, 8, 3], [100, 23, 13, 8, 7], [100, 27, 25, 7, 5]][band][k]
  }

  /** The power of a band's chord, in squared percents. */
  function Power(band: nat): (p: nat)
    requires band < 5
  {
    Squared(Percent(band, 0)) + Squared(Percent(band, 1)) + Squared(Percent(band, 2)) + Squared(Percent(band, 3)) +
        Squared(Percent(band, 4))
  }

  function Squared(x: nat): (y: nat) {
    x * x
  }

  /**
   * The tables are what they were made from: each gain the nearest 4096th to its percentage,
   * and each band's factor the nearest 256th to sqrt(2 / power), which turns the rms wanted
   * of the whole chord into the amplitude of its fundamental.
   */
  lemma TablesFollowTheMeasurement(band: nat, k: nat)
    requires band < 5 && k < HARMONICS
    ensures 200 * Gain(band, k) - 100 <= 2 * 4096 * Percent(band, k) < 200 * Gain(band, k) + 100
    ensures var wanted, factor: int := 8 * 256 * 256 * 10000, AmpQ8(band);
            factor > 0 && Squared(2 * factor - 1) * Power(band) <= wanted < Squared(2 * factor + 1) * Power(band)
  {
    assert Power(0) == 12380 && Power(1) == 10214 && Power(2) == 10379 && Power(3) == 10811 && Power(4) == 11428;
    assert Squared(649) == 421201 && Squared(651) == 423801 && Squared(715) == 511225 && Squared(717) == 514089;
    assert Squared(709) == 502681 && Squared(711) == 505521 && Squared(695) == 483025 && Squared(697) == 485809;
    assert Squared(677) == 458329 && Squared(679) == 461041;
    hide Squared, Power;
  }

  /** Heard are the harmonics below 1800 Hz and no others, five of them up to 360 Hz. */
  lemma HeardBelow1800Hz(f0: Word32, k: nat)
    requires k < HARMONICS
    ensures Audible(k, f0) <==> (k + 1) * f0 < 180000
    ensures (forall i: nat :: i < HARMONICS ==> Audible(i, f0)) <==> f0 < 36000
    ensures (forall i: nat :: i < HARMONICS ==> !Audible(i, f0)) <==> f0 >= 180000
  {
    assert Audible(0, f0) <==> f0 < 180000;
    assert Audible(4, f0) <==> 5 * f0 < 180000;
  }

  lemma {:induction false} MixFits(lut: Sine, phases: seq<Word32>, f0: Word32, n: nat)
    requires n <= HARMONICS == |phases|
    ensures -0x8000 * n <= Mix(lut, phases, f0, n) <= 0x7fff * n
    ensures f0 >= 180000 ==> Mix(lut, phases, f0, n) == 0
  {
    hide Harmonic, Gain, BandOf;
    if n > 0 {
      MixFits(lut, phases, f0, n - 1);
      GainsFallOff(BandOf(f0), n - 1);
      HarmonicReadsTheTable(lut, phases[n - 1], Gain(BandOf(f0), n - 1));
    }
  }

  // ------------------------------------------------------------ loudness

  /** The fit's level, 72 + 1.13 a hertz, rounded down. */
  function Level(f0: nat): (rms: nat) {
    72 + 113 * (f0 / 100) / 100
  }

  lemma LevelFits(f0: nat)
    requires f0 < 180000
    ensures 10000 * Level(f0) <= 720000 + 113 * f0 < 10000 * Level(f0) + 21300
    ensures Level(f0) <= if f0 < 29000 then 400 else 2104
  {
  }

  lemma FactorIs(f0: Word32)
    ensures AmpQ8(BandOf(f0)) == [325, 358, 355, 348, 339][BandOf(f0)]
    ensures 0 < AmpQ8(BandOf(f0)) <= if f0 < 29000 then 358 else 339
  {
  }

  lemma VolumeIs(f0: Word32)
    requires f0 < 180000
    ensures 0 <= Level(f0) * AmpQ8(BandOf(f0)) <= 2104 * 339
  {
    LevelFits(f0);
    FactorIs(f0);
    hide AmpQ8, BandOf, Level;
    MulLe(Level(f0), if f0 < 29000 then 400 else 2104, AmpQ8(BandOf(f0)));
    MulLe(0, Level(f0), AmpQ8(BandOf(f0)));
  }

  lemma AmplitudeIs(f0: Word32)
    requires f0 < 180000
    ensures Amplitude(f0) == Level(f0) * AmpQ8(BandOf(f0)) / 256
  {
    hide AmpQ8, BandOf;
    var q8 := AmpQ8(BandOf(f0));
    VolumeIs(f0);
    assert (72 + (113 * (f0 / 100)) % U32 / 100) == Level(f0);
    SmallModulo(Level(f0) * q8);
  }

  /** While anything is audible the amplitude keeps to the fit, 72 + 1.13 a hertz, times the band's factor. */
  lemma AmplitudeFollowsTheFit(f0: Word32) returns (rms: nat)
    requires f0 < 180000
    ensures 10000 * rms <= 720000 + 113 * f0 < 10000 * rms + 21300
    ensures var factor := [325, 358, 355, 348, 339][BandOf(f0)];
            256 * Amplitude(f0) <= rms * factor < 256 * Amplitude(f0) + 256
    ensures 0 <= Amplitude(f0) <= 2800
  {
    hide Level, Amplitude, BandOf, AmpQ8;
    LevelFits(f0);
    FactorIs(f0);
    VolumeIs(f0);
    AmplitudeIs(f0);
    rms := Level(f0);
  }

  lemma VolumeFits(lut: Sine, phases: seq<Word32>, f0: Word32)
    requires |phases| == HARMONICS
    ensures -14000 * 0x8000 <= Mix(lut, phases, f0, HARMONICS) * Amplitude(f0) <= 14000 * 0x7fff
  {
    hide Mix, Amplitude;
    var mix := Mix(lut, phases, f0, HARMONICS);
    MixFits(lut, phases, f0, HARMONICS);
    if f0 < 180000 {
      var _ := AmplitudeFollowsTheFit(f0);
      var amp := Amplitude(f0);
      MulLe(-0x8000 * 5, mix, amp);
      MulLe(mix, 0x7fff * 5, amp);
      MulLe(amp, 2800, 0x8000 * 5);
    }
  }

  /** A hundredth of `scaled`, truncated toward zero and clamped to 16 bits. */
  predicate IsPercent(sample: int, scaled: int) {
    && (0 <= scaled < 3276800 ==> 100 * sample <= scaled < 100 * sample + 100)
    && (-3276900 < scaled <= 0 ==> 100 * sample - 100 < scaled <= 100 * sample)
    && (scaled >= 3276800 ==> sample == 0x7fff)
    && (scaled <= -3276900 ==> sample == -0x8000)
  }

  lemma PercentKeepsOrder(soft: int, loud: int, less: int, more: int)
    requires IsPercent(soft, less) && IsPercent(loud, more) && (0 <= less <= more || more <= less <= 0)
    ensures (loud > 0 ==> 0 <= soft <= loud) && (loud < 0 ==> loud <= soft <= 0) && (loud == 0 ==> soft == 0)
  {
  }

  /** The level of a sample, in range throughout. */
  lemma LevelScales(acc: int, amp: int, intensity: Word16)
    requires -14000 * 0x8000 <= acc * amp <= 14000 * 0x7fff
    ensures var v, sample: int := acc * amp / 0x8000, Levelled(acc, amp, intensity);
            && -14000 <= v <= 14000 && 0x8000 * v <= acc * amp < 0x8000 * v + 0x8000
            && IsPercent(sample, v * intensity)
  {
    var v := acc * amp / 0x8000;
    DivBounds(acc * amp, 0x8000);
    MulLe(-14000, v, intensity);
    MulLe(v, 14000, intensity);
    DivBounds(v * intensity, 100);
    DivBounds(-(v * intensity), 100);
  }

  /** Nothing overflows: at 100 percent a sample is the mix at its amplitude, rounded down and never clamped. */
  lemma FullIntensityIsUnscaled(lut: Sine, phases: seq<Word32>, f0: Word32)
    requires |phases| == HARMONICS
    ensures var sample: int, mix := SampleAt(lut, phases, f0, 100), Mix(lut, phases, f0, HARMONICS);
            && 0x8000 * sample <= mix * Amplitude(f0) < 0x8000 * sample + 0x8000
            && -14000 <= sample <= 14000
  {
    hide Mix, Amplitude, Levelled;
    VolumeFits(lut, phases, f0);
    LevelScales(Mix(lut, phases, f0, HARMONICS), Amplitude(f0), 100);
  }

  /** At any other intensity it is that percentage of the full sample, truncated toward silence and clamped. */
  lemma IntensityScales(lut: Sine, phases: seq<Word32>, f0: Word32, intensity: Word16)
    requires |phases| == HARMONICS
    ensures var sample: int := SampleAt(lut, phases, f0, intensity);
            var scaled := SampleAt(lut, phases, f0, 100) as int * intensity;
            IsPercent(sample, scaled)
  {
    hide Mix, Amplitude, Levelled;
    VolumeFits(lut, phases, f0);
    FullIntensityIsUnscaled(lut, phases, f0);
    LevelScales(Mix(lut, phases, f0, HARMONICS), Amplitude(f0), intensity);
  }

  /** More intensity never makes a sample softer or turns it over, and none at all is silence. */
  lemma LouderNeverSofter(lut: Sine, phases: seq<Word32>, f0: Word32, less: Word16, more: Word16)
    requires |phases| == HARMONICS && less <= more
    ensures var soft: int, loud: int := SampleAt(lut, phases, f0, less), SampleAt(lut, phases, f0, more);
            && (loud > 0 ==> 0 <= soft <= loud) && (loud < 0 ==> loud <= soft <= 0) && (loud == 0 ==> soft == 0)
    ensures SampleAt(lut, phases, f0, 0) == 0
  {
    hide SampleAt;
    var full: int := SampleAt(lut, phases, f0, 100);
    IntensityScales(lut, phases, f0, 0);
    IntensityScales(lut, phases, f0, less);
    IntensityScales(lut, phases, f0, more);
    if full >= 0 {
      MulLe(less, more, full);
      MulLe(0, less, full);
    } else {
      MulLe(less, more, -full);
      MulLe(0, less, -full);
      assert less * -full == -(full * less) && more * -full == -(full * more);
    }
    hide IsPercent;
    PercentKeepsOrder(SampleAt(lut, phases, f0, less), SampleAt(lut, phases, f0, more), full * less, full * more);
  }

  /** With the intensity at zero the wheel hears the centre and nothing else, whatever the engine does. */
  lemma ZeroIntensityIsSilence(lut: Sine, m: Merge, calls: seq<Call>, j: nat)
    requires m.Valid() && Locked(m.phases) && j < |Heard(lut, m, calls)|
    requires forall c :: c in calls ==> c.settings.intensity == 0
    ensures Heard(lut, m, calls)[j] == 0x8000
  {
    hide Oscillator, Heard, Notes;
    var notes := Notes(m.pacer, calls);
    WheelHearsOneOscillator(lut, m, calls);
    OneSampleANote(lut, m.phases[0], notes);
    forall note | note in notes ensures note.intensity == 0 {
      NotesComeFromCalls(m.pacer, calls, note);
    }
    SilentNotes(lut, m.phases[0], notes, j);
  }

  lemma {:induction false} SilentNotes(lut: Sine, phase: Word32, notes: seq<Note>, j: nat)
    requires j < |notes| && forall note :: note in notes ==> note.intensity == 0
    ensures |Oscillator(lut, phase, notes)| == |notes| && Oscillator(lut, phase, notes)[j] == 0
    decreases |notes|
  {
    hide Levelled, Amplitude, Chord, InStep, SampleAt, Increment;
    OneSampleANote(lut, phase, notes);
    var ph := (phase as int + Increment(notes[0].f0)) % U32;
    if j == 0 {
      SampleForgetsDropouts(lut, InStep(ph), InStep(ph), notes[0].f0, 0);
      LouderNeverSofter(lut, InStep(ph), notes[0].f0, 0, 0);
    } else {
      SilentNotes(lut, ph, notes[1..], j - 1);
    }
  }

  // ------------------------------------------------------------ when anything is spliced at all

  /**
   * A call gets as far as the pacer exactly when the merge is on, the packet is a silent
   * one, and the engine is at 300 rpm or more and was heard from in the last 200 ms; a
   * stamp from the future is 2^64 ns old less its lead.
   */
  lemma GateIff(s: Settings, buf: seq<Byte>, now: int)
    requires 0 <= now < U64 && 0 <= s.stamp < U64
    ensures Gate(s, buf, now) <==>
            && s.enabled && s.stamp != 0 && s.rpmX10 >= 3000
            && |buf| == 64 && buf[0] == 1 && buf[4] == 1 && buf[10] == 0
            && (s.stamp <= now <= s.stamp + 200_000_000 || now + U64 <= s.stamp + 200_000_000)
  {
  }
}
