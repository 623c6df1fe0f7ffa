/**
 * Splicing synthesised texture into the packet stream, one call and whole runs
 * (mainline/hidpp_dd_texture_merge.h).
 */
module TextureSplice {
  import opened Words
  import opened TfPackets
  import opened P = TexturePacer
  import opened TextureMerge

  /** What the driver sets from outside between calls. */
  datatype Settings = Settings(enabled: bool, rpmX10: Word32, stamp: int, intensity: Word16, cylinders: Byte)

  datatype Merge = Merge(phases: seq<Word32>, window: seq<Int16>, pacer: Pacer) {
    predicate Valid() {
      |phases| == HARMONICS && |window| == WINDOW && pacer.Valid()
    }
  }

  /** Whether a call gets as far as the pacer; an rpm stamp from the future counts as stale. */
  predicate Gate(s: Settings, buf: seq<Byte>, now: int) {
    s.enabled && Eligible(buf) && s.stamp != 0 && (now - s.stamp) % U64 <= STALE && s.rpmX10 >= MIN_RPM_X10
  }

  /** The next n samples at one frequency. */
  function Synth(lut: Sine, phases: seq<Word32>, f0: Word32, intensity: Word16, n: nat): (r: (seq<Int16>, seq<Word32>))
    requires |phases| == HARMONICS
    ensures |r.0| == n && |r.1| == HARMONICS
  {
    if n == 0 then ([], phases)
    else
      var (samples, ph) := Synth(lut, phases, f0, intensity, n - 1);
      var ph' := Turned(ph, Increment(f0));
      (samples + [SampleAt(lut, ph', f0, intensity)], ph')
  }

  predicate Splices(m: Merge, s: Settings, buf: seq<Byte>, now: int)
    requires m.Valid()
  {
    Gate(s, buf, now) && Paced(m.pacer, now).1 > 0
  }

  function Spliced(lut: Sine, m: Merge, s: Settings, buf: seq<Byte>, now: int): (r: (Merge, seq<Byte>))
    requires m.Valid()
    ensures r.0.Valid() && |r.1| == |buf|
  {
    if !Gate(s, buf, now) then (m, buf)
    else if Paced(m.pacer, now).1 == 0 then (m.(pacer := Paced(m.pacer, now).0), buf)
    else
      var (samples, phases) := Synth(lut, m.phases, Firing(s.rpmX10, s.cylinders), s.intensity, BLOCK);
      var window := m.window[BLOCK..] + samples;
      (Merge(phases, window, Paced(m.pacer, now).0), SplicedInto(buf, window))
  }

  // ------------------------------------------------------------ in place

  class TexMerge {
    const lut: Sine
    const phase: array<Word32>
    const window: array<Int16>
    var debt: int
    var lastNs: int

    ghost predicate Valid()
      reads this
    {
      phase.Length == HARMONICS && window.Length == WINDOW && phase as object != window as object &&
          Pacer(debt, lastNs).Valid()
    }

    ghost function View(): (m: Merge)
      requires Valid()
      reads this, phase, window
      ensures m.Valid()
    {
      Merge(phase[..], window[..], Pacer(debt, lastNs))
    }

    constructor (table: Sine)
      ensures Valid() && fresh(phase) && fresh(window) && lut == table
      ensures View() == Merge(seq(HARMONICS, _ => 0), seq(WINDOW, _ => 0), Pacer(0, 0))
    {
      lut := table;
      phase := new Word32[HARMONICS](_ => 0);
      window := new Int16[WINDOW](_ => 0);
      debt, lastNs := 0, 0;
    }

    /** Advance every harmonic and add up those below the Nyquist guard. */
    method NextSample(f0: Word32, intensity: Word16) returns (s: Int16)
      requires Valid()
      modifies phase
      ensures phase[..] == Turned(old(phase[..]), Increment(f0))
      ensures s == SampleAt(lut, phase[..], f0, intensity)
    {
      hide Harmonic, Gain, Increment, Levelled;
      ghost var turned := Turned(phase[..], Increment(f0));
      var band := BandFor(f0);
      var rms := 72 + (113 * (f0 / 100)) % U32 / 100;
      var amp := ((rms * AmpQ8(band)) % U32) / 256;
      var acc := 0;
      var inc := Increment(f0);
      for k := 0 to HARMONICS
        invariant forall j :: 0 <= j < k ==> phase[j] == turned[j]
        invariant forall j :: k <= j < HARMONICS ==> phase[j] == old(phase[j])
        invariant acc == Mix(lut, turned, f0, k)
      {
        phase[k] := (phase[k] as int + (inc as int * (k + 1)) % U32) % U32;
        if Audible(k, f0) {
          acc := acc + Harmonic(lut, phase[k], Gain(band, k));
        }
      }
      assert phase[..] == turned;
      s := Levelled(acc, amp, intensity);
    }

    /** Owe for the time since the last decision and say whether a block is due. */
    method Pace(now: int) returns (due: bool)
      requires Valid()
      modifies this
      ensures Valid() && Pacer(debt, lastNs) == Paced(old(Pacer(debt, lastNs)), now).0
      ensures due <==> Paced(old(Pacer(debt, lastNs)), now).1 > 0
    {
      if now > lastNs {
        var dt := now - lastNs;
        if dt > SECOND {
          dt := SECOND;
        }
        debt := debt + dt * FS * 256 / SECOND;
        if debt > 16 * 256 {
          debt := 16 * 256;
        }
      }
      lastNs := now;
      if debt < BLOCK * 256 {
        return false;
      }
      debt := debt - BLOCK * 256;
      return true;
    }

    /** Shift the window by a block and fill it with fresh samples. */
    method Roll(f0: Word32, intensity: Word16)
      requires Valid()
      modifies phase, window
      ensures phase[..] == Synth(lut, old(phase[..]), f0, intensity, BLOCK).1
      ensures window[..] == old(window[..])[BLOCK..] + Synth(lut, old(phase[..]), f0, intensity, BLOCK).0
    {
      hide SampleAt, Turned, Increment;
      var i := 0;
      while i < WINDOW - BLOCK
        invariant 0 <= i <= WINDOW - BLOCK && phase[..] == old(phase[..])
        invariant forall j :: 0 <= j < i ==> window[j] == old(window[j + BLOCK])
        invariant forall j :: i <= j < WINDOW ==> window[j] == old(window[j])
      {
        window[i] := window[i + BLOCK];
        i := i + 1;
      }
      ghost var was := phase[..];
      while i < WINDOW
        invariant WINDOW - BLOCK <= i <= WINDOW
        invariant forall j :: 0 <= j < WINDOW - BLOCK ==> window[j] == old(window[j + BLOCK])
        invariant window[WINDOW - BLOCK..i] == Synth(lut, was, f0, intensity, i - (WINDOW - BLOCK)).0
        invariant phase[..] == Synth(lut, was, f0, intensity, i - (WINDOW - BLOCK)).1
      {
        window[i] := NextSample(f0, intensity);
        assert window[WINDOW - BLOCK..i + 1] == window[WINDOW - BLOCK..i] + [window[i]];
        i := i + 1;
      }
      assert i - (WINDOW - BLOCK) == BLOCK && window[WINDOW - BLOCK..i] == window[WINDOW - BLOCK..];
      assert window[..] == old(window[..])[BLOCK..] + window[WINDOW - BLOCK..];
    }

    /** Turn a silent packet into one that carries the next block, when one is due. */
    method Splice(s: Settings, buf: array<Byte>, now: int) returns (n: nat)
      requires Valid() && buf as object != phase as object && buf as object != window as object
      modifies this, phase, window, buf
      ensures Valid() && (View(), buf[..]) == Spliced(lut, old(View()), s, old(buf[..]), now)
      ensures n == if Splices(old(View()), s, old(buf[..]), now) then 4 else 0
    {
      hide Paced, Synth, Firing;
      if !Gate(s, buf[..], now) {
        return 0;
      }
      var due := Pace(now);
      if !due {
        return 0;
      }
      ghost var was := buf[..];
      Roll(Firing(s.rpmX10, s.cylinders), s.intensity);
      buf[10] := 4;
      buf[11] := 0x0d;
      assert buf[..12] == was[..10] + [4, 0x0d];
      WriteWindow(buf, OffsetAll(window[..]));
      return 4;
    }
  }

  // ------------------------------------------------------------ runs

  datatype Call = Call(settings: Settings, buf: seq<Byte>, now: int)

  /** Everything the wheel is told is new, over a run of calls. */
  function Heard(lut: Sine, m: Merge, calls: seq<Call>): (ws: seq<Word16>)
    requires m.Valid()
    decreases |calls|
  {
    if calls == [] then []
    else
      var c := calls[0];
      var (m', out) := Spliced(lut, m, c.settings, c.buf, c.now);
      (if Splices(m, c.settings, c.buf, c.now) then Newest(out) else []) + Heard(lut, m', calls[1..])
  }

  /** The frequency and intensity of every sample due in a run: the pacer and the settings decide alone. */
  datatype Note = Note(f0: Word32, intensity: Word16)

  function Held(note: Note, n: nat): (notes: seq<Note>)
    ensures |notes| == n
  {
    if n == 0 then [] else Held(note, n - 1) + [note]
  }

  function Notes(pacer: Pacer, calls: seq<Call>): (notes: seq<Note>)
    requires pacer.Valid()
    decreases |calls|
  {
    if calls == [] then []
    else
      var c := calls[0];
      if !Gate(c.settings, c.buf, c.now) then Notes(pacer, calls[1..])
      else
        var (p, n) := Paced(pacer, c.now);
        Held(Note(Firing(c.settings.rpmX10, c.settings.cylinders), c.settings.intensity), n) + Notes(p, calls[1..])
  }

  /** The reference: one oscillator, every harmonic a multiple of its phase. */
  function Oscillator(lut: Sine, phase: Word32, notes: seq<Note>): (samples: seq<Int16>)
    decreases |notes|
  {
    if notes == [] then []
    else
      var ph := (phase as int + Increment(notes[0].f0)) % U32;
      [Levelled(Chord(lut, ph, notes[0].f0, HARMONICS), Amplitude(notes[0].f0), notes[0].intensity)] +
          Oscillator(lut, ph, notes[1..])
  }

  function PhaseAfter(phase: Word32, notes: seq<Note>): (r: Word32)
    decreases |notes|
  {
    if notes == [] then phase else PhaseAfter((phase as int + Increment(notes[0].f0)) % U32, notes[1..])
  }

  lemma {:induction false} OscillatorConcat(lut: Sine, phase: Word32, a: seq<Note>, b: seq<Note>)
    ensures Oscillator(lut, phase, a + b) == Oscillator(lut, phase, a) + Oscillator(lut, PhaseAfter(phase, a), b)
    ensures PhaseAfter(phase, a + b) == PhaseAfter(PhaseAfter(phase, a), b)
    decreases |a|
  {
    hide Levelled, Chord, Amplitude, Increment;
    if a == [] {
      assert a + b == b;
    } else {
      assert (a + b)[1..] == a[1..] + b;
      OscillatorConcat(lut, (phase as int + Increment(a[0].f0)) % U32, a[1..], b);
    }
  }

  /** Five locked oscillators sound like one. */
  lemma {:induction false} SynthIsOscillator(lut: Sine, phases: seq<Word32>, note: Note, n: nat)
    requires Locked(phases)
    ensures var r := Synth(lut, phases, note.f0, note.intensity, n);
            && Locked(r.1) && r.1[0] == PhaseAfter(phases[0], Held(note, n))
            && r.0 == Oscillator(lut, phases[0], Held(note, n))
  {
    hide SampleAt, Turned, Increment;
    if n > 0 {
      SynthIsOscillator(lut, phases, note, n - 1);
      OneMoreNote(lut, phases, Synth(lut, phases, note.f0, note.intensity, n - 1).1, Held(note, n - 1), note);
    }
  }

  lemma OneMoreNote(lut: Sine, phases: seq<Word32>, before: seq<Word32>, notes: seq<Note>, note: Note)
    requires |phases| == HARMONICS && Locked(before) && before[0] == PhaseAfter(phases[0], notes)
    ensures var after := Turned(before, Increment(note.f0));
            && Locked(after) && after[0] == PhaseAfter(phases[0], notes + [note])
            && Oscillator(lut, phases[0], notes + [note]) ==
               Oscillator(lut, phases[0], notes) + [SampleAt(lut, after, note.f0, note.intensity)]
  {
    hide Levelled, Chord, Amplitude, SampleAt, Increment;
    var after := Turned(before, Increment(note.f0));
    TurningKeepsLock(before, Increment(note.f0));
    OscillatorConcat(lut, phases[0], notes, [note]);
    SampleForgetsDropouts(lut, after, after, note.f0, note.intensity);
    assert after[0] == (before[0] as int + (Increment(note.f0) as int * 1) % U32) % U32;
    assert [note][1..] == [];
  }

  /** What the wheel reads as new in one spliced packet is the block synthesised for it. */
  lemma NewestIsTheBlock(buf: seq<Byte>, window: seq<Int16>, block: seq<Int16>)
    requires Eligible(buf) && |window| == WINDOW && |block| == BLOCK
    ensures Newest(SplicedInto(buf, window[BLOCK..] + block)) == OffsetAll(block)
  {
    SplicedPacketsOverlap(buf, buf, window, block);
  }

  lemma OffsetConcat(a: seq<Int16>, b: seq<Int16>)
    ensures OffsetAll(a + b) == OffsetAll(a) + OffsetAll(b)
  {
  }

  /**
   * Over any run of calls, with settings changing at will and harmonics dropping in and
   * out, the newest slots of the spliced packets put end to end are the output of one
   * oscillator that plays every due sample in turn.
   */
  lemma {:induction false} WheelHearsOneOscillator(lut: Sine, m: Merge, calls: seq<Call>)
    requires m.Valid() && Locked(m.phases)
    ensures Heard(lut, m, calls) == OffsetAll(Oscillator(lut, m.phases[0], Notes(m.pacer, calls)))
    decreases |calls|
  {
    hide Paced, Gate, Synth, Oscillator, Firing;
    NoNotes(lut, m.phases[0]);
    if calls != [] {
      var c := calls[0];
      var (m', out) := Spliced(lut, m, c.settings, c.buf, c.now);
      if Splices(m, c.settings, c.buf, c.now) {
        assert Gate(c.settings, c.buf, c.now) && Eligible(c.buf) by { GateIsEligible(c.settings, c.buf, c.now); }
        PacedIsABlock(m.pacer, c.now);
        var note := Note(Firing(c.settings.rpmX10, c.settings.cylinders), c.settings.intensity);
        var notes := Held(note, 4);
        var samples := Synth(lut, m.phases, note.f0, note.intensity, BLOCK).0;
        SynthIsOscillator(lut, m.phases, note, 4);
        NewestIsTheBlock(c.buf, m.window, samples);
        WheelHearsOneOscillator(lut, m', calls[1..]);
        OscillatorConcat(lut, m.phases[0], notes, Notes(m'.pacer, calls[1..]));
        OffsetConcat(samples, Oscillator(lut, m'.phases[0], Notes(m'.pacer, calls[1..])));
      } else {
        WheelHearsOneOscillator(lut, m', calls[1..]);
        assert m'.phases == m.phases;
        assert Heard(lut, m, calls) == [] + Heard(lut, m', calls[1..]);
        assert Notes(m.pacer, calls) == Notes(m'.pacer, calls[1..]);
      }
    }
  }

  lemma GateIsEligible(s: Settings, buf: seq<Byte>, now: int)
    requires Gate(s, buf, now)
    ensures Eligible(buf)
  {
  }

  lemma PacedIsABlock(p: Pacer, now: int)
    requires p.Valid()
    ensures Paced(p, now).1 == 0 || Paced(p, now).1 == 4
  {
  }

  lemma NoNotes(lut: Sine, phase: Word32)
    ensures Oscillator(lut, phase, []) == []
  {
  }

  // ------------------------------------------------------------ against the clock

  /** The times of the calls that got as far as the pacer. */
  function PacedTimes(calls: seq<Call>): (nows: seq<int>) {
    if calls == [] then []
    else (if Gate(calls[0].settings, calls[0].buf, calls[0].now) then [calls[0].now] else []) + PacedTimes(calls[1..])
  }

  lemma {:induction false} OneSampleANote(lut: Sine, phase: Word32, notes: seq<Note>)
    ensures |Oscillator(lut, phase, notes)| == |notes|
    decreases |notes|
  {
    hide Levelled, Chord, Amplitude, Increment;
    if notes != [] {
      OneSampleANote(lut, (phase as int + Increment(notes[0].f0)) % U32, notes[1..]);
    }
  }

  lemma {:induction false} NotesAreSamples(p: Pacer, calls: seq<Call>)
    requires p.Valid()
    ensures |Notes(p, calls)| == Samples(p, PacedTimes(calls))
    decreases |calls|
  {
    hide Paced, Gate, Firing;
    if calls != [] {
      var c := calls[0];
      if Gate(c.settings, c.buf, c.now) {
        NotesAreSamples(Paced(p, c.now).0, calls[1..]);
        SamplesFromTheFront(p, c.now, PacedTimes(calls[1..]));
      } else {
        NotesAreSamples(p, calls[1..]);
        assert PacedTimes(calls) == PacedTimes(calls[1..]);
      }
    }
  }

  /** What the wheel hears keeps to the sample clock: never more than twelve samples ahead of 4000 a second. */
  lemma WheelHearsNoFasterThanTheClock(lut: Sine, m: Merge, calls: seq<Call>)
    requires m.Valid() && Locked(m.phases) && Rising(m.pacer.last, PacedTimes(calls))
    ensures |Heard(lut, m, calls)| * SECOND <=
            12 * SECOND + FS * (After(m.pacer, PacedTimes(calls)).last - m.pacer.last)
  {
    WheelHearsOneOscillator(lut, m, calls);
    OneSampleANote(lut, m.phases[0], Notes(m.pacer, calls));
    NotesAreSamples(m.pacer, calls);
    AtMostTwelveAhead(m.pacer, PacedTimes(calls));
  }

  /** And with paced calls a millisecond apart at most, it falls behind by less than a block and a rounding a call. */
  lemma WheelHearsNoSlowerThanTheClock(lut: Sine, m: Merge, calls: seq<Call>)
    requires m.Valid() && Locked(m.phases) && PacedTimes(calls) != []
    requires Rising(m.pacer.last, PacedTimes(calls)) && Brisk(m.pacer.last, PacedTimes(calls))
    ensures FS * 256 * (After(m.pacer, PacedTimes(calls)).last - m.pacer.last) <
            SECOND * (256 * |Heard(lut, m, calls)| + 256 * BLOCK + |PacedTimes(calls)|)
  {
    WheelHearsOneOscillator(lut, m, calls);
    OneSampleANote(lut, m.phases[0], Notes(m.pacer, calls));
    NotesAreSamples(m.pacer, calls);
    ShortfallIsBounded(m.pacer, PacedTimes(calls));
  }
}
