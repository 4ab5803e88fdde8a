/** What the rendered sound owes to the song: the laws of the mix, and one kind of note computed to the sample. */
module TrackerLaws {
  import opened Adsr
  import opened Waveforms
  import opened Tracker

  // ---- one voice --------------------------------------------------------------------------------

  /** Periods of the oscillator that d samples last. */
  function Turns(s: Song, midi: nat, d: nat): real
    requires s.rate > 0
  {
    d as real * Hz(midi) / s.rate as real
  }

  lemma TurnsPhase(x: real, f: real, i: real, r: real)
    requires r != 0.0 && i == 1.0 / r
    ensures x * (f * i * TWO_PI) == x * f / r * TWO_PI
  {
    DivMul(x * f, r);
    assert x * (f * i * TWO_PI) == x * f * i * TWO_PI;
  }

  lemma PhaseInTurns(s: Song, midi: nat, d: nat)
    requires s.rate > 0
    ensures Phase(s, midi, d) == Turns(s, midi, d) * TWO_PI
  {
    TurnsPhase(d as real, Hz(midi), InvRate(s), s.rate as real);
  }

  /** The oscillator stands, d samples after the note's start, where d samples of its pitch take it. */
  lemma OscillatorIs(s: Song, n: nat, d: nat, p: real)
    requires s.rate > 0 && n < |s.notes| && s.notes[n].instrument < |s.inst|
    requires p == Turns(s, s.notes[n].midi, d) * TWO_PI
    ensures Oscillator(s, n, d) == Wave(s.inst[s.notes[n].instrument].waveform, p)
  {
    PhaseInTurns(s, s.notes[n].midi, d);
    assert Phase(s, s.notes[n].midi, d) == p;
  }

  /** The envelope is that of d samples at the song's rate, for a note held for its length. */
  lemma LoudnessIs(s: Song, n: nat, d: nat, t: real, held: real)
    requires s.rate > 0 && n < |s.notes| && s.notes[n].instrument < |s.inst| && held >= 0.0
    requires t == d as real / s.rate as real && held == s.notes[n].length as real / s.rate as real
    ensures Loudness(s, n, d) == Envelope(t, held, s.inst[s.notes[n].instrument].shape)
  {
    DivMul(d as real, s.rate as real);
    DivMul(s.notes[n].length as real, s.rate as real);
    assert Elapsed(s, d) == t && HeldTime(s, n) == held;
  }

  /** Four numbers multiplied. */
  function Times4(w: real, env: real, vel: real, volume: real): real { w * env * vel * volume }

  /** A voice is waveform times envelope times velocity, in 127ths, times the instrument's volume. */
  lemma VoiceIsProduct(s: Song, n: nat, d: nat)
    requires s.rate > 0 && n < |s.notes| && s.notes[n].instrument < |s.inst|
    ensures Voice(s, n, d)
         == Times4(Oscillator(s, n, d), Loudness(s, n, d), s.notes[n].velocity as real / 127.0,
                   s.inst[s.notes[n].instrument].volume)
  {
    var w, env := Oscillator(s, n, d), Loudness(s, n, d);
    assert Voice(s, n, d)
        == Scale(w, env, s.notes[n].velocity as real / 127.0, s.inst[s.notes[n].instrument].volume);
  }

  lemma Times4Zero(w: real, env: real, vel: real, volume: real)
    requires vel == 0.0 || volume == 0.0
    ensures Times4(w, env, vel, volume) == 0.0
  {
  }

  predicate Multiple(y: real, c: real, x: real) { y == c * x }

  lemma Times4Scales(w: real, env: real, vel: real, volume: real, c: real, louder: real)
    requires Multiple(louder, c, volume)
    ensures Multiple(Times4(w, env, vel, louder), c, Times4(w, env, vel, volume))
  {
    assert w * env * vel * (c * volume) == c * (w * env * vel * volume);
  }

  /** A note without velocity, or of an instrument without volume, adds nothing. */
  lemma SilentNoteAddsNothing(s: Song, n: nat, j: nat)
    requires s.rate > 0 && n < |s.notes| && s.notes[n].instrument < |s.inst|
    requires s.notes[n].velocity == 0 || s.inst[s.notes[n].instrument].volume == 0.0
    ensures Mix(s, n + 1, j) == Mix(s, n, j)
  {
    MixStep(s, n, j);
    if Sounds(s, n, j) {
      var d := j - s.notes[n].start;
      VoiceIsProduct(s, n, d);
      Times4Zero(Oscillator(s, n, d), Loudness(s, n, d), s.notes[n].velocity as real / 127.0,
                 s.inst[s.notes[n].instrument].volume);
    }
  }

  // ---- how long a note sounds ---------------------------------------------------------------------

  /** A note sounds from its start, for as many whole samples as its length and its release tail last. */
  lemma NoteSoundsThroughItsTail(s: Song, n: nat, j: nat)
    requires s.rate > 0 && n < |s.notes| && s.notes[n].instrument < |s.inst|
    ensures var note, tail := s.notes[n], s.inst[s.notes[n].instrument].shape.release * s.rate as real;
      && (Sounds(s, n, j) ==> note.start <= j && (j - note.start - note.length) as real < tail)
      && (note.start <= j && (j - note.start - note.length + 1) as real <= tail ==> Sounds(s, n, j))
  {
  }

  // ---- the mix as a sum -----------------------------------------------------------------------------

  /** The song with one instrument's volume multiplied by c. */
  function Louder(s: Song, i: nat, c: real): (r: Song)
    requires i < |s.inst|
    ensures |r.inst| == |s.inst| && r.notes == s.notes && r.rate == s.rate
  {
    s.(inst := s.inst[i := s.inst[i].(volume := s.inst[i].volume * c)])
  }

  /** What instrument i's notes, among the first n, add to sample j. */
  function Share(s: Song, n: nat, j: nat, i: nat): real
    requires s.rate > 0 && n <= |s.notes|
  {
    if n == 0 then 0.0
    else if Sounds(s, n - 1, j) && s.notes[n - 1].instrument == i then
      Share(s, n - 1, j, i) + Voice(s, n - 1, j - s.notes[n - 1].start)
    else Share(s, n - 1, j, i)
  }

  /** Two notes of two songs that differ in nothing a voice depends on but the volume. */
  predicate Alike(s: Song, n: nat, r: Song, m: nat)
    requires n < |s.notes| && m < |r.notes|
  {
    var a, b := s.notes[n], r.notes[m];
    && s.rate == r.rate && s.rate > 0 && a == b.(start := a.start)
    && a.instrument < |s.inst| && a.instrument < |r.inst|
    && s.inst[a.instrument].waveform == r.inst[a.instrument].waveform
    && s.inst[a.instrument].shape == r.inst[a.instrument].shape
  }

  lemma SamePhase(s: Song, r: Song, midi: nat, d: nat)
    requires s.rate == r.rate && s.rate > 0
    ensures Phase(s, midi, d) == Phase(r, midi, d)
  {
    assert PhaseStep(s, midi) == PhaseStep(r, midi) by { assert InvRate(s) == InvRate(r); }
  }

  lemma AlikeOscillators(s: Song, n: nat, r: Song, m: nat, d: nat)
    requires n < |s.notes| && m < |r.notes| && Alike(s, n, r, m)
    ensures Oscillator(s, n, d) == Oscillator(r, m, d)
  {
    SamePhase(s, r, s.notes[n].midi, d);
  }

  lemma AlikeLoudness(s: Song, n: nat, r: Song, m: nat, d: nat)
    requires n < |s.notes| && m < |r.notes| && Alike(s, n, r, m)
    ensures Loudness(s, n, d) == Loudness(r, m, d)
  {
    assert InvRate(s) == InvRate(r);
    assert Elapsed(s, d) == Elapsed(r, d) && HeldTime(s, n) == HeldTime(r, m);
  }

  lemma VoiceOf(s: Song, n: nat, d: nat, w: real, env: real, vel: real, volume: real)
    requires s.rate > 0 && n < |s.notes| && s.notes[n].instrument < |s.inst|
    requires w == Oscillator(s, n, d) && env == Loudness(s, n, d) && vel == s.notes[n].velocity as real / 127.0
    requires volume == s.inst[s.notes[n].instrument].volume
    ensures Voice(s, n, d) == Times4(w, env, vel, volume)
  {
    VoiceIsProduct(s, n, d);
  }

  lemma AlikeVoices(s: Song, n: nat, r: Song, m: nat, d: nat, c: real)
    requires n < |s.notes| && m < |r.notes| && Alike(s, n, r, m)
    requires Multiple(r.inst[s.notes[n].instrument].volume, c, s.inst[s.notes[n].instrument].volume)
    ensures Multiple(Voice(r, m, d), c, Voice(s, n, d))
  {
    AlikeOscillators(s, n, r, m, d);
    AlikeLoudness(s, n, r, m, d);
    var w, env, vel := Oscillator(s, n, d), Loudness(s, n, d), s.notes[n].velocity as real / 127.0;
    var volume, louder := s.inst[s.notes[n].instrument].volume, r.inst[s.notes[n].instrument].volume;
    VoiceOf(s, n, d, w, env, vel, volume);
    VoiceOf(r, m, d, w, env, vel, louder);
    Times4Scales(w, env, vel, volume, c, louder);
  }

  lemma AlikeEnds(s: Song, n: nat, r: Song, m: nat)
    requires n < |s.notes| && m < |r.notes| && Alike(s, n, r, m)
    ensures End(r, m) - r.notes[m].start == End(s, n) - s.notes[n].start
  {
  }

  lemma LouderSounds(s: Song, n: nat, j: nat, i: nat, c: real)
    requires s.rate > 0 && n < |s.notes| && i < |s.inst|
    ensures Sounds(Louder(s, i, c), n, j) <==> Sounds(s, n, j)
  {
    if s.notes[n].instrument < |s.inst| { AlikeEnds(s, n, Louder(s, i, c), n); }
  }

  lemma LouderVoice(s: Song, n: nat, d: nat, i: nat, c: real, factor: real)
    requires s.rate > 0 && n < |s.notes| && s.notes[n].instrument < |s.inst| && i < |s.inst|
    requires factor == if s.notes[n].instrument == i then c else 1.0
    ensures Multiple(Voice(Louder(s, i, c), n, d), factor, Voice(s, n, d))
  {
    AlikeVoices(s, n, Louder(s, i, c), n, d, factor);
  }

  /** The louder mix has c times the share where the mix had the share. */
  predicate Scaled(louder: real, mix: real, share: real, c: real) { louder == mix + (c - 1.0) * share }

  lemma SumStep(louder: real, mix: real, share: real, v: real, w: real, c: real)
    requires Scaled(louder, mix, share, c)
    ensures Multiple(w, c, v) ==> Scaled(louder + w, mix + v, share + v, c)
    ensures Multiple(w, 1.0, v) ==> Scaled(louder + w, mix + v, share, c)
  {
  }

  /** Making an instrument c times as loud makes its share of every sample c times as large and leaves the
      rest of the mix as it was. */
  lemma {:induction false} VolumeScalesTheShare(s: Song, n: nat, j: nat, i: nat, c: real)
    requires s.rate > 0 && n <= |s.notes| && i < |s.inst|
    ensures Scaled(Mix(Louder(s, i, c), n, j), Mix(s, n, j), Share(s, n, j, i), c)
    decreases n
  {
    if n > 0 {
      VolumeScalesTheShare(s, n - 1, j, i, c);
      LouderSounds(s, n - 1, j, i, c);
      if Sounds(s, n - 1, j) {
        var r, d := Louder(s, i, c), j - s.notes[n - 1].start;
        LouderVoice(s, n - 1, d, i, c, if s.notes[n - 1].instrument == i then c else 1.0);
        SumStep(Mix(r, n - 1, j), Mix(s, n - 1, j), Share(s, n - 1, j, i), Voice(s, n - 1, d), Voice(r, n - 1, d), c);
      }
    }
  }

  /** The same instruments playing other notes. */
  function Playing(s: Song, notes: seq<Note>): Song { s.(notes := notes) }

  lemma SameNote(s: Song, notes: seq<Note>, n: nat, more: seq<Note>, k: nat, j: nat)
    requires s.rate > 0 && n < |notes| && k < |more| && notes[n] == more[k]
    ensures Sounds(Playing(s, notes), n, j) <==> Sounds(Playing(s, more), k, j)
    ensures Sounds(Playing(s, notes), n, j) ==>
      Voice(Playing(s, notes), n, j - notes[n].start) == Voice(Playing(s, more), k, j - notes[n].start)
  {
    if notes[n].instrument < |s.inst| {
      AlikeEnds(Playing(s, notes), n, Playing(s, more), k);
      if Sounds(Playing(s, notes), n, j) {
        AlikeVoices(Playing(s, notes), n, Playing(s, more), k, j - notes[n].start, 1.0);
      }
    }
  }

  lemma {:induction false} MixOfFront(s: Song, a: seq<Note>, b: seq<Note>, n: nat, j: nat)
    requires s.rate > 0 && n <= |a|
    ensures Mix(Playing(s, a + b), n, j) == Mix(Playing(s, a), n, j)
    decreases n
  {
    if n > 0 {
      MixOfFront(s, a, b, n - 1, j);
      SameNote(s, a + b, n - 1, a, n - 1, j);
    }
  }

  /** Notes are mixed by adding: two lists of notes together sound as the sum of each alone. */
  lemma {:induction false} MixAdds(s: Song, a: seq<Note>, b: seq<Note>, n: nat, j: nat)
    requires s.rate > 0 && n <= |b|
    ensures Mix(Playing(s, a + b), |a| + n, j) == Mix(Playing(s, a), |a|, j) + Mix(Playing(s, b), n, j)
    decreases n
  {
    if n == 0 {
      MixOfFront(s, a, b, |a|, j);
    } else {
      MixAdds(s, a, b, n - 1, j);
      SameNote(s, a + b, |a| + n - 1, b, n - 1, j);
    }
  }

  /** The notes, all started d samples later. */
  function Later(notes: seq<Note>, d: nat): (r: seq<Note>)
    ensures |r| == |notes|
  {
    seq(|notes|, i requires 0 <= i < |notes| => notes[i].(start := notes[i].start + d))
  }

  lemma LaterNote(s: Song, n: nat, d: nat, j: nat)
    requires s.rate > 0 && n < |s.notes|
    ensures var r := Playing(s, Later(s.notes, d));
      && (Sounds(r, n, j + d) <==> Sounds(s, n, j))
      && (Sounds(s, n, j) ==> Voice(r, n, j + d - r.notes[n].start) == Voice(s, n, j - s.notes[n].start))
  {
    var r := Playing(s, Later(s.notes, d));
    if s.notes[n].instrument < |s.inst| {
      AlikeEnds(s, n, r, n);
      if Sounds(s, n, j) { AlikeVoices(s, n, r, n, j - s.notes[n].start, 1.0); }
    }
  }

  /** Starting all notes d samples later moves the sound by d samples and does nothing else to it, wherever
      chunk boundaries fall. */
  lemma {:induction false} LaterNotesSoundTheSame(s: Song, n: nat, d: nat, j: nat)
    requires s.rate > 0 && n <= |s.notes|
    ensures Mix(Playing(s, Later(s.notes, d)), n, j + d) == Mix(s, n, j)
    decreases n
  {
    if n > 0 {
      LaterNotesSoundTheSame(s, n - 1, d, j);
      LaterNote(s, n - 1, d, j);
    }
  }

  // ---- to the sample ----------------------------------------------------------------------------------

  /** A mixed value in 16 bits: clipped to [-1, 1], scaled, and its fraction dropped. */
  lemma QuantiseIs(x: real)
    ensures x >= 1.0 ==> Quantise(x) == 32767
    ensures x <= -1.0 ==> Quantise(x) == -32767
    ensures 0.0 <= x <= 1.0 ==> Quantise(x) as real <= x * 32767.0 < (Quantise(x) + 1) as real
    ensures -1.0 <= x <= 0.0 ==> (Quantise(x) - 1) as real < x * 32767.0 <= Quantise(x) as real
  {
  }

  /** Every sample is the whole mix, so quantised. */
  lemma SampleIsTheMix(s: Song, j: nat, x: real)
    requires s.rate > 0 && x == Mix(s, |s.notes|, j)
    ensures x >= 1.0 ==> Sample(s, j) == 32767
    ensures x <= -1.0 ==> Sample(s, j) == -32767
    ensures 0.0 <= x <= 1.0 ==> Sample(s, j) as real <= x * 32767.0 < (Sample(s, j) + 1) as real
    ensures -1.0 <= x <= 0.0 ==> (Sample(s, j) - 1) as real < x * 32767.0 <= Sample(s, j) as real
  {
    QuantiseIs(x);
  }

  /** A square wave in its first or its second half. */
  lemma SquareIn(p: real, k: nat, f: real)
    requires (0.0 < f <= 1.0 || (f == 0.0 && k == 0)) && p == (k as real + f) * TWO_PI
    ensures Wave(WAVE_SQUARE, p) == if f < 0.5 then 1.0 else -1.0
  {
    assert p == f * TWO_PI + k as real * TWO_PI;
    WrapIs(f * TWO_PI, k);
  }

  /** The note at its sustain level, f of a period after k whole ones. */
  predicate Sustained(s: Song, d: nat, k: nat, f: real)
    requires s.rate > 0 && |s.notes| == 1 && s.notes[0].instrument < |s.inst|
  {
    var note, e := s.notes[0], s.inst[s.notes[0].instrument].shape;
    && TimesOk(e) && LevelOk(e)
    && e.attack + e.decay <= d as real / s.rate as real < note.length as real / s.rate as real
    && (0.0 < f <= 1.0 || (f == 0.0 && k == 0)) && Turns(s, note.midi, d) == k as real + f
  }

  lemma SustainedVoice(s: Song, d: nat, k: nat, f: real)
    requires s.rate > 0 && |s.notes| == 1 && s.notes[0].instrument < |s.inst| && Sustained(s, d, k, f)
    requires s.inst[s.notes[0].instrument].waveform == WAVE_SQUARE
    ensures Oscillator(s, 0, d) == if f < 0.5 then 1.0 else -1.0
    ensures Loudness(s, 0, d) == s.inst[s.notes[0].instrument].shape.sustain
  {
    var p, t, held := Turns(s, s.notes[0].midi, d) * TWO_PI, d as real / s.rate as real,
                      s.notes[0].length as real / s.rate as real;
    OscillatorIs(s, 0, d, p);
    SquareIn(p, k, f);
    LoudnessIs(s, 0, d, t, held);
    EnvelopeCorners(t, held, s.inst[s.notes[0].instrument].shape);
  }

  /** A sample of a song of one sustained square note is plus or minus sustain times velocity over 127 times
      volume, clipped, scaled to 16 bits, its fraction dropped. */
  lemma SustainedSquare(s: Song, j: nat, k: nat, f: real, x: real)
    requires s.rate > 0 && |s.notes| == 1 && Sounds(s, 0, j) && Sustained(s, j - s.notes[0].start, k, f)
    requires s.inst[s.notes[0].instrument].waveform == WAVE_SQUARE
    requires var inst, velocity := s.inst[s.notes[0].instrument], s.notes[0].velocity as real;
      x == Times4(if f < 0.5 then 1.0 else -1.0, inst.shape.sustain, velocity / 127.0, inst.volume)
    ensures x >= 1.0 ==> Sample(s, j) == 32767
    ensures x <= -1.0 ==> Sample(s, j) == -32767
    ensures 0.0 <= x <= 1.0 ==> Sample(s, j) as real <= x * 32767.0 < (Sample(s, j) + 1) as real
    ensures -1.0 <= x <= 0.0 ==> (Sample(s, j) - 1) as real < x * 32767.0 <= Sample(s, j) as real
  {
    var d := j - s.notes[0].start;
    VoiceIsProduct(s, 0, d);
    SustainedVoice(s, d, k, f);
    MixOfOne(s, j);
    SampleIsTheMix(s, j, x);
  }

  lemma MixOfOne(s: Song, j: nat)
    requires s.rate > 0 && |s.notes| == 1 && Sounds(s, 0, j)
    ensures Mix(s, 1, j) == Voice(s, 0, j - s.notes[0].start)
  {
    assert Mix(s, 0, j) == 0.0;
    MixStep(s, 0, j);
  }
}
