/** tracker_render: the chunked mixer proved equal to one formula per output sample. */
module Tracker {
  import opened Adsr
  import opened Common
  import opened Waveforms

  const MAX_INSTRUMENTS: nat := 16
  const MAX_NOTES: nat := 512
  const CHUNK_SAMPLES: nat := 4096

  datatype Instrument = Instrument(waveform: nat, shape: Shape, volume: real)
  datatype Note = Note(start: nat, length: nat, instrument: nat, midi: nat, velocity: nat)

  /** A request with its instrument and note tables already read. */
  datatype Song = Song(rate: nat, outSamples: nat, inst: seq<Instrument>, notes: seq<Note>)

  /** Data for which the source's 32-bit sample arithmetic neither wraps nor converts a negative
      release, and whose instruments are deterministic. */
  predicate Playable(s: Song) {
    && s.outSamples < 0x1_0000_0000
    && (forall i :: 0 <= i < |s.inst| ==> s.inst[i].waveform != WAVE_NOISE && s.inst[i].shape.release >= 0.0)
    && (forall n :: 0 <= n < |s.notes| && s.notes[n].instrument < |s.inst| ==> End(s, n) < 0x1_0000_0000)
  }

  // ---- the specification: one sample at a time ------------------------------------

  /** First sample after the note's release tail. */
  function End(s: Song, n: nat): int
    requires n < |s.notes| && s.notes[n].instrument < |s.inst|
  {
    s.notes[n].start + s.notes[n].length
    + (s.inst[s.notes[n].instrument].shape.release * s.rate as real).Floor
  }

  function InvRate(s: Song): real
    requires s.rate > 0
  {
    1.0 / s.rate as real
  }

  function PhaseStep(s: Song, midi: nat): real
    requires s.rate > 0
  {
    Hz(midi) * InvRate(s) * TWO_PI
  }

  /** The oscillator's phase d samples after the note's start. */
  function Phase(s: Song, midi: nat, d: nat): real
    requires s.rate > 0
  {
    d as real * PhaseStep(s, midi)
  }

  function Scale(wave: real, env: real, vel: real, volume: real): real { wave * env * vel * volume }

  /** Seconds taken by d samples. */
  function Elapsed(s: Song, d: nat): real
    requires s.rate > 0
  {
    d as real * InvRate(s)
  }

  /** The note-on duration in seconds. */
  function HeldTime(s: Song, n: nat): (t: real)
    requires s.rate > 0 && n < |s.notes|
    ensures t >= 0.0
  {
    Elapsed(s, s.notes[n].length)
  }

  /** Note n's oscillator and envelope d samples after its start. */
  function Oscillator(s: Song, n: nat, d: nat): real
    requires s.rate > 0 && n < |s.notes| && s.notes[n].instrument < |s.inst|
  {
    Wave(s.inst[s.notes[n].instrument].waveform, Phase(s, s.notes[n].midi, d))
  }

  function Loudness(s: Song, n: nat, d: nat): real
    requires s.rate > 0 && n < |s.notes| && s.notes[n].instrument < |s.inst|
  {
    Envelope(Elapsed(s, d), HeldTime(s, n), s.inst[s.notes[n].instrument].shape)
  }

  /** What note n adds d samples after its start. */
  function Voice(s: Song, n: nat, d: nat): real
    requires s.rate > 0 && n < |s.notes| && s.notes[n].instrument < |s.inst|
  {
    Scale(Oscillator(s, n, d), Loudness(s, n, d), s.notes[n].velocity as real / 127.0,
          s.inst[s.notes[n].instrument].volume)
  }

  predicate Sounds(s: Song, n: nat, j: nat)
    requires n < |s.notes|
  {
    s.notes[n].instrument < |s.inst| && s.notes[n].start <= j < End(s, n)
  }

  /** The first n notes' share of output sample j. */
  function Mix(s: Song, n: nat, j: nat): real
    requires s.rate > 0 && n <= |s.notes|
  {
    if n == 0 then 0.0
    else if Sounds(s, n - 1, j) then Mix(s, n - 1, j) + Voice(s, n - 1, j - s.notes[n - 1].start)
    else Mix(s, n - 1, j)
  }

  /** C's conversion of a float to an integer type. */
  function Truncate(x: real): int { if x >= 0.0 then x.Floor else -(-x).Floor }

  function Quantise(x: real): int {
    var s := if x > 1.0 then 1.0 else if x < -1.0 then -1.0 else x;
    Truncate(s * 32767.0)
  }

  function Sample(s: Song, j: nat): int
    requires s.rate > 0
  {
    Quantise(Mix(s, |s.notes|, j))
  }

  /** A note overlaps samples lo up to hi; such note-chunk pairs are what the result counts. */
  predicate Overlaps(s: Song, n: nat, lo: nat, hi: nat)
    requires n < |s.notes|
  {
    s.notes[n].instrument < |s.inst| && End(s, n) > lo && s.notes[n].start < hi
  }

  function OverlapCount(s: Song, n: nat, lo: nat, hi: nat): nat
    requires n <= |s.notes|
  {
    if n == 0 then 0 else OverlapCount(s, n - 1, lo, hi) + (if Overlaps(s, n - 1, lo, hi) then 1 else 0)
  }

  /** How many chunks the output is rendered in. */
  function Chunks(s: Song): nat { (s.outSamples + CHUNK_SAMPLES - 1) / CHUNK_SAMPLES }

  /** The pairs in the first k chunks. */
  function PairCount(s: Song, k: nat): nat {
    if k == 0 then 0
    else
      PairCount(s, k - 1)
      + OverlapCount(s, |s.notes|, (k - 1) * CHUNK_SAMPLES, Min(k * CHUNK_SAMPLES, s.outSamples))
  }

  // ---- the renderer -------------------------------------------------------------------

  lemma PhaseAdvances(s: Song, midi: nat, d: nat)
    requires s.rate > 0
    ensures Phase(s, midi, d + 1) == Phase(s, midi, d) + PhaseStep(s, midi)
  {
  }

  method OscillatorSample(s: Song, n: nat, d: nat, phase: real) returns (w: real)
    requires Playable(s) && s.rate > 0 && n < |s.notes| && s.notes[n].instrument < |s.inst|
    requires phase == Phase(s, s.notes[n].midi, d)
    ensures w == Oscillator(s, n, d)
  {
    w := WaveSample(s.inst[s.notes[n].instrument].waveform, phase);
  }

  method TimeOf(s: Song, d: nat, invRate: real) returns (t: real)
    requires s.rate > 0 && invRate == InvRate(s)
    ensures t == Elapsed(s, d)
  {
    t := d as real * invRate;
  }

  method EnvelopeSample(s: Song, n: nat, d: nat, t: real, held: real) returns (env: real)
    requires s.rate > 0 && n < |s.notes| && s.notes[n].instrument < |s.inst|
    requires t == Elapsed(s, d) && held == HeldTime(s, n)
    ensures env == Loudness(s, n, d)
  {
    env := Envelope(t, held, s.inst[s.notes[n].instrument].shape);
  }

  method Product(s: Song, n: nat, d: nat, w: real, env: real, vel: real) returns (v: real)
    requires s.rate > 0 && n < |s.notes| && s.notes[n].instrument < |s.inst|
    requires w == Oscillator(s, n, d) && env == Loudness(s, n, d) && vel == s.notes[n].velocity as real / 127.0
    ensures v == Voice(s, n, d)
  {
    v := Scale(w, env, vel, s.inst[s.notes[n].instrument].volume);
  }

  /** The innermost expression: oscillator, envelope, velocity and volume of one sample. */
  method VoiceSample(s: Song, n: nat, d: nat, phase: real, invRate: real, held: real, vel: real) returns (v: real)
    requires Playable(s) && s.rate > 0 && n < |s.notes| && s.notes[n].instrument < |s.inst|
    requires phase == Phase(s, s.notes[n].midi, d) && invRate == InvRate(s)
    requires held == HeldTime(s, n) && vel == s.notes[n].velocity as real / 127.0
    ensures v == Voice(s, n, d)
  {
    var t := TimeOf(s, d, invRate);
    var env := EnvelopeSample(s, n, d, t, held);
    var w := OscillatorSample(s, n, d, phase);
    v := Product(s, n, d, w, env, vel);
  }

  /** The values hoisted out of a note's sample loop, and the phase of its first sample: the
      accumulator starts from the note's own origin wherever the chunk begins. */
  method HoistNote(s: Song, n: nat, absI: nat)
    returns (invRate: real, phaseStep: real, vel: real, held: real, phase: real)
    requires s.rate > 0 && n < |s.notes|
    ensures invRate == InvRate(s) && phaseStep == PhaseStep(s, s.notes[n].midi)
    ensures vel == s.notes[n].velocity as real / 127.0 && held == HeldTime(s, n)
    ensures phase == Phase(s, s.notes[n].midi, absI)
  {
    var hz := MidiToHz(s.notes[n].midi);
    invRate := 1.0 / s.rate as real;
    phaseStep := hz * invRate * TWO_PI;
    vel := s.notes[n].velocity as real / 127.0;
    held := s.notes[n].length as real * invRate;
    phase := absI as real * phaseStep;
  }

  /** One more note leaves the mix alone where it is silent and adds its voice where it sounds. */
  lemma MixStep(s: Song, n: nat, j: nat)
    requires s.rate > 0 && n < |s.notes|
    ensures !Sounds(s, n, j) ==> Mix(s, n + 1, j) == Mix(s, n, j)
    ensures Sounds(s, n, j) ==> Mix(s, n + 1, j) == Mix(s, n, j) + Voice(s, n, j - s.notes[n].start)
  {
  }

  /** One turn of the sample loop. */
  method MixSample(s: Song, n: nat, mix: array<real>, i: nat, j: nat, phase: real, phaseStep: real, invRate: real,
      held: real, vel: real)
    returns (nextPhase: real)
    requires Playable(s) && s.rate > 0 && n < |s.notes| && i < mix.Length && Sounds(s, n, j)
    requires phase == Phase(s, s.notes[n].midi, j - s.notes[n].start)
    requires phaseStep == PhaseStep(s, s.notes[n].midi) && invRate == InvRate(s)
    requires held == HeldTime(s, n) && vel == s.notes[n].velocity as real / 127.0
    requires mix[i] == Mix(s, n, j)
    modifies mix
    ensures nextPhase == Phase(s, s.notes[n].midi, j + 1 - s.notes[n].start)
    ensures mix[i] == Mix(s, n + 1, j)
    ensures forall k :: 0 <= k < mix.Length && k != i ==> mix[k] == old(mix[k])
  {
    var d := j - s.notes[n].start;
    var v := VoiceSample(s, n, d, phase, invRate, held, vel);
    mix[i] := mix[i] + v;
    MixStep(s, n, j);
    PhaseAdvances(s, s.notes[n].midi, d);
    nextPhase := phase + phaseStep;
  }

  lemma SilentOutside(s: Song, n: nat, j: nat)
    requires s.rate > 0 && n < |s.notes| && !Sounds(s, n, j)
    ensures Mix(s, n + 1, j) == Mix(s, n, j)
  {
  }

  /** Note n's samples of the chunk starting at mixStart are added to the mix. */
  method MixNote(s: Song, n: nat, mix: array<real>, mixStart: nat, chunk: nat)
    requires Playable(s) && s.rate > 0 && n < |s.notes| && chunk <= mix.Length
    requires Overlaps(s, n, mixStart, mixStart + chunk)
    requires forall i :: 0 <= i < chunk ==> mix[i] == Mix(s, n, mixStart + i)
    modifies mix
    ensures forall i :: 0 <= i < chunk ==> mix[i] == Mix(s, n + 1, mixStart + i)
  {
    var start, noteEnd := s.notes[n].start, End(s, n);
    var sBegin := if start > mixStart then start - mixStart else 0;
    var sEnd := if noteEnd < mixStart + chunk then noteEnd - mixStart else chunk;
    var invRate, phaseStep, vel, held, phase := HoistNote(s, n, mixStart + sBegin - start);
    EndAfterStart(s, n);
    for i := sBegin to sEnd
      invariant phase == Phase(s, s.notes[n].midi, mixStart + i - start)
      invariant forall k :: sBegin <= k < i ==> mix[k] == Mix(s, n + 1, mixStart + k)
      invariant forall k :: 0 <= k < chunk && !(sBegin <= k < i) ==> mix[k] == Mix(s, n, mixStart + k)
    {
      phase := MixSample(s, n, mix, i, mixStart + i, phase, phaseStep, invRate, held, vel);
    }
    forall k | 0 <= k < chunk && !(sBegin <= k < sEnd) ensures mix[k] == Mix(s, n + 1, mixStart + k) {
      SilentOutside(s, n, mixStart + k);
    }
  }

  lemma EndAfterStart(s: Song, n: nat)
    requires Playable(s) && n < |s.notes| && s.notes[n].instrument < |s.inst|
    ensures End(s, n) >= s.notes[n].start
  {
  }

  /** All notes into a cleared chunk; returns how many overlapped it. */
  method MixChunk(s: Song, mix: array<real>, mixStart: nat, chunk: nat) returns (contributing: nat)
    requires Playable(s) && s.rate > 0 && chunk <= mix.Length
    modifies mix
    ensures forall i :: 0 <= i < chunk ==> mix[i] == Mix(s, |s.notes|, mixStart + i)
    ensures contributing == OverlapCount(s, |s.notes|, mixStart, mixStart + chunk)
  {
    for i := 0 to chunk
      invariant forall k :: 0 <= k < i ==> mix[k] == 0.0
    {
      mix[i] := 0.0;
    }
    contributing := 0;
    for n := 0 to |s.notes|
      invariant contributing == OverlapCount(s, n, mixStart, mixStart + chunk)
      invariant forall k :: 0 <= k < chunk ==> mix[k] == Mix(s, n, mixStart + k)
    {
      if Overlaps(s, n, mixStart, mixStart + chunk) {
        contributing := contributing + 1;
        MixNote(s, n, mix, mixStart, chunk);
      }
    }
  }

  method QuantiseChunk(mix: array<real>, pcm: array<int>, chunk: nat)
    requires chunk <= mix.Length && chunk <= pcm.Length
    modifies pcm
    ensures forall i :: 0 <= i < chunk ==> pcm[i] == Quantise(mix[i])
  {
    for i := 0 to chunk
      invariant forall k :: 0 <= k < i ==> pcm[k] == Quantise(mix[k])
    {
      var x := mix[i];
      if x > 1.0 { x := 1.0; }
      if x < -1.0 { x := -1.0; }
      pcm[i] := Truncate(x * 32767.0);
    }
  }

  /** shared_write of one chunk's samples. */
  method WriteOut(pcm: array<int>, out: array<int>, at: nat, chunk: nat)
    requires pcm != out && chunk <= pcm.Length && at + chunk <= out.Length
    modifies out
    ensures forall j :: 0 <= j < out.Length ==> out[j] == if at <= j < at + chunk then pcm[j - at] else old(out[j])
  {
    for i := 0 to chunk
      invariant forall j :: 0 <= j < out.Length ==> out[j] == if at <= j < at + i then pcm[j - at] else old(out[j])
    {
      out[at + i] := pcm[i];
    }
  }

  /** The renderer: refuses an empty request or tables that are too long; otherwise every requested
      sample is the per-sample formula, nothing else is written, and the result counts note-chunk pairs. */
  method TrackerRender(s: Song, out: array<int>) returns (r: int)
    requires Playable(s) && s.outSamples <= out.Length
    modifies out
    ensures s.rate == 0 || s.outSamples == 0 ==> r == -1
    ensures s.rate != 0 && s.outSamples != 0 && (|s.inst| > MAX_INSTRUMENTS || |s.notes| > MAX_NOTES) ==> r == -2
    ensures r < 0 ==> out[..] == old(out[..])
    ensures s.rate != 0 && s.outSamples != 0 && |s.inst| <= MAX_INSTRUMENTS && |s.notes| <= MAX_NOTES ==>
      && r == PairCount(s, Chunks(s))
      && forall j :: 0 <= j < out.Length ==> out[j] == if j < s.outSamples then Sample(s, j) else old(out[j])
  {
    if s.rate == 0 || s.outSamples == 0 { return -1; }
    if |s.inst| > MAX_INSTRUMENTS { return -2; }
    if |s.notes| > MAX_NOTES { return -2; }
    var mix := new real[CHUNK_SAMPLES];
    var pcm := new int[CHUNK_SAMPLES];
    r := 0;
    var remaining, cursor := s.outSamples, 0;
    ghost var k := 0;
    while remaining > 0
      invariant cursor + remaining == s.outSamples
      invariant cursor == Min(k * CHUNK_SAMPLES, s.outSamples) && (remaining > 0 ==> cursor == k * CHUNK_SAMPLES)
      invariant k <= Chunks(s)
      invariant r == PairCount(s, k) && fresh(mix) && fresh(pcm)
      invariant forall j :: 0 <= j < out.Length ==> out[j] == if j < cursor then Sample(s, j) else old(out[j])
      decreases remaining
    {
      var chunk := Min(remaining, CHUNK_SAMPLES);
      var contributing := MixChunk(s, mix, cursor, chunk);
      QuantiseChunk(mix, pcm, chunk);
      assert forall i :: 0 <= i < chunk ==> pcm[i] == Sample(s, cursor + i);
      WriteOut(pcm, out, cursor, chunk);
      r := r + contributing;
      cursor := cursor + chunk;
      remaining := remaining - chunk;
      k := k + 1;
    }
  }

  // ---- consequences of the formula ------------------------------------------------------

  /** The mix does not depend on notes that are silent at j, wherever chunk boundaries fall. */
  lemma {:induction false} SilentNotesAddNothing(s: Song, n: nat, m: nat, j: nat)
    requires s.rate > 0 && n <= m <= |s.notes|
    requires forall i :: n <= i < m ==> !Sounds(s, i, j)
    ensures Mix(s, m, j) == Mix(s, n, j)
    decreases m
  {
    if n < m { SilentNotesAddNothing(s, n, m - 1, j); }
  }

  /** A note is counted for a chunk exactly when it sounds at some sample of it, or is empty and starts
      strictly inside it: such a note is counted without ever being heard. */
  lemma OverlapsExactly(s: Song, n: nat, lo: nat, hi: nat)
    requires Playable(s) && n < |s.notes| && lo < hi
    ensures Overlaps(s, n, lo, hi) <==>
      (exists j :: lo <= j < hi && Sounds(s, n, j))
      || (s.notes[n].instrument < |s.inst| && End(s, n) == s.notes[n].start && lo < s.notes[n].start < hi)
  {
    if Overlaps(s, n, lo, hi) {
      EndAfterStart(s, n);
      var j := if s.notes[n].start > lo then s.notes[n].start else lo;
      assert j < End(s, n) ==> Sounds(s, n, j);
    }
  }

  // ---- what the result counts ----------------------------------------------------------------

  predicate OverlapsChunk(s: Song, n: nat, k: nat)
    requires n < |s.notes|
  {
    Overlaps(s, n, k * CHUNK_SAMPLES, Min((k + 1) * CHUNK_SAMPLES, s.outSamples))
  }

  /** The chunks among the first k that note n overlaps. */
  function ChunksOf(s: Song, n: nat, k: nat): nat
    requires n < |s.notes|
  {
    if k == 0 then 0 else ChunksOf(s, n, k - 1) + (if OverlapsChunk(s, n, k - 1) then 1 else 0)
  }

  /** The same pairs, added up note by note. */
  function SumOfChunks(s: Song, m: nat, k: nat): nat
    requires m <= |s.notes|
  {
    if m == 0 then 0 else SumOfChunks(s, m - 1, k) + ChunksOf(s, m - 1, k)
  }

  /** The notes among the first m that overlap some chunk. */
  function ContributingNotes(s: Song, m: nat, k: nat): nat
    requires m <= |s.notes|
  {
    if m == 0 then 0 else ContributingNotes(s, m - 1, k) + (if ChunksOf(s, m - 1, k) > 0 then 1 else 0)
  }

  lemma {:induction false} OneChunkMore(s: Song, m: nat, k: nat)
    requires m <= |s.notes| && k > 0
    ensures SumOfChunks(s, m, k) == SumOfChunks(s, m, k - 1)
         + OverlapCount(s, m, (k - 1) * CHUNK_SAMPLES, Min(k * CHUNK_SAMPLES, s.outSamples))
  {
    if m > 0 { OneChunkMore(s, m - 1, k); }
  }

  lemma {:induction false} NoChunks(s: Song, m: nat)
    requires m <= |s.notes|
    ensures SumOfChunks(s, m, 0) == 0
  {
    if m > 0 { NoChunks(s, m - 1); }
  }

  lemma {:induction false} PairsByNote(s: Song, k: nat)
    ensures PairCount(s, k) == SumOfChunks(s, |s.notes|, k)
  {
    if k == 0 {
      NoChunks(s, |s.notes|);
    } else {
      PairsByNote(s, k - 1);
      OneChunkMore(s, |s.notes|, k);
    }
  }

  predicate AtMostOnce(s: Song, n: nat, k: nat)
    requires n < |s.notes|
  {
    ChunksOf(s, n, k) <= 1
  }

  /** Counting each note once is the same exactly when none counts twice. */
  lemma {:induction false} OnceEach(s: Song, m: nat, k: nat)
    requires m <= |s.notes|
    ensures SumOfChunks(s, m, k) >= ContributingNotes(s, m, k)
    ensures SumOfChunks(s, m, k) == ContributingNotes(s, m, k) <==> forall n :: 0 <= n < m ==> AtMostOnce(s, n, k)
  {
    if m > 0 {
      OnceEach(s, m - 1, k);
      assert AtMostOnce(s, m - 1, k) <==> ChunksOf(s, m - 1, k) <= 1;
    }
  }

  /** The boundary before chunk c falls inside the note. */
  predicate CrossesAt(s: Song, n: nat, c: nat)
    requires n < |s.notes|
  {
    s.notes[n].instrument < |s.inst| && s.notes[n].start < c * CHUNK_SAMPLES < End(s, n)
  }

  /** Some boundary between two chunks of the output does. */
  ghost predicate Crosses(s: Song, n: nat)
    requires n < |s.notes|
  {
    exists c :: 0 < c < Chunks(s) && CrossesAt(s, n, c)
  }

  lemma {:induction false} SomeChunk(s: Song, n: nat, k: nat) returns (i: nat)
    requires n < |s.notes| && ChunksOf(s, n, k) > 0
    ensures i < k && OverlapsChunk(s, n, i)
  {
    if OverlapsChunk(s, n, k - 1) { i := k - 1; } else { i := SomeChunk(s, n, k - 1); }
  }

  lemma {:induction false} ChunksGrow(s: Song, n: nat, j: nat, k: nat)
    requires n < |s.notes| && j <= k
    ensures ChunksOf(s, n, j) <= ChunksOf(s, n, k)
    decreases k
  {
    if j < k { ChunksGrow(s, n, j, k - 1); }
  }

  lemma CrossingIsTwo(s: Song, n: nat, k: nat, c: nat)
    requires n < |s.notes| && 0 < c < k <= Chunks(s) && CrossesAt(s, n, c)
    ensures ChunksOf(s, n, k) >= 2
  {
    assert c * CHUNK_SAMPLES < s.outSamples;
    assert OverlapsChunk(s, n, c - 1) && OverlapsChunk(s, n, c);
    ChunksGrow(s, n, c + 1, k);
  }

  lemma {:induction false} TwoIsCrossing(s: Song, n: nat, k: nat) returns (c: nat)
    requires n < |s.notes| && ChunksOf(s, n, k) >= 2
    ensures 0 < c < k && CrossesAt(s, n, c)
  {
    if ChunksOf(s, n, k - 1) >= 2 {
      c := TwoIsCrossing(s, n, k - 1);
    } else {
      var i := SomeChunk(s, n, k - 1);
      c := k - 1;
    }
  }

  lemma TwiceExactly(s: Song, n: nat)
    requires n < |s.notes|
    ensures AtMostOnce(s, n, Chunks(s)) <==> !Crosses(s, n)
  {
    if Crosses(s, n) {
      var c :| 0 < c < Chunks(s) && CrossesAt(s, n, c);
      CrossingIsTwo(s, n, Chunks(s), c);
    } else if !AtMostOnce(s, n, Chunks(s)) {
      var c := TwoIsCrossing(s, n, Chunks(s));
    }
  }

  /** The result is at least the number of contributing notes, and equals it exactly when no chunk boundary
      of the output falls inside a note. */
  lemma ResultCountsNotesExactly(s: Song)
    ensures PairCount(s, Chunks(s)) >= ContributingNotes(s, |s.notes|, Chunks(s))
    ensures PairCount(s, Chunks(s)) == ContributingNotes(s, |s.notes|, Chunks(s)) <==>
      forall n :: 0 <= n < |s.notes| ==> !Crosses(s, n)
  {
    PairsByNote(s, Chunks(s));
    OnceEach(s, |s.notes|, Chunks(s));
    forall n | 0 <= n < |s.notes| ensures AtMostOnce(s, n, Chunks(s)) <==> !Crosses(s, n) { TwiceExactly(s, n); }
  }

  /** Output samples fit 16 bits, follow the mix monotonically and treat both signs alike. */
  lemma QuantiseFaithful(x: real, y: real)
    requires x <= y
    ensures -32767 <= Quantise(x) <= Quantise(y) <= 32767
    ensures Quantise(-x) == -Quantise(x)
    ensures -1.0 <= x <= 1.0 ==> -1.0 < Quantise(x) as real - x * 32767.0 < 1.0
  {
  }
}
