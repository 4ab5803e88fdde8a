/** The tracker's oscillators and pitch table over the reals: the loops of the source proved against
    closed descriptions. The noise waveform, which reads global state, is not part of this model. */
module Waveforms {
  const PI: real := 3.14159265358979323846
  const TWO_PI: real := 6.28318530717958647692

  const WAVE_SINE: nat := 0
  const WAVE_SAW: nat := 1
  const WAVE_SQUARE: nat := 2
  const WAVE_TRIANGLE: nat := 3
  const WAVE_NOISE: nat := 4

  // ---- phase wrapping -----------------------------------------------------------

  /** Subtract the period while above the limit. */
  function Down(p: real, limit: real): (r: real)
    requires limit >= 0.0
    ensures r <= limit && (p <= limit ==> r == p) && (p > limit ==> r > limit - TWO_PI)
    decreases p
  {
    if p > limit then Down(p - TWO_PI, limit) else p
  }

  /** Add the period while below the limit. */
  function Up(p: real, limit: real): (r: real)
    requires limit <= 0.0
    ensures r >= limit && (p >= limit ==> r == p) && (p < limit ==> r < limit + TWO_PI)
    decreases -p
  {
    if p < limit then Up(p + TWO_PI, limit) else p
  }

  function Wrap(p: real): real { Up(Down(p, TWO_PI), 0.0) }

  method WrapPhase(phase: real) returns (p: real)
    ensures p == Wrap(phase)
  {
    p := phase;
    while p > TWO_PI
      invariant Down(p, TWO_PI) == Down(phase, TWO_PI)
      decreases p
    {
      p := p - TWO_PI;
    }
    while p < 0.0
      invariant Up(p, 0.0) == Wrap(phase)
      decreases -p
    {
      p := p + TWO_PI;
    }
  }

  /** Wrapped phases lie in [0, 2 pi], and a positive phase in (0, 2 pi]. */
  lemma WrapRange(p: real)
    ensures 0.0 <= Wrap(p) <= TWO_PI
    ensures p > 0.0 ==> Wrap(p) > 0.0
  {
  }

  /** Whole periods do not matter: beyond one period below the limit, Down repeats every 2 pi. */
  lemma {:induction false} DownPeriodic(p: real, limit: real, k: nat)
    requires limit >= 0.0 && p > limit - TWO_PI
    ensures Down(p + k as real * TWO_PI, limit) == Down(p, limit)
  {
    if k > 0 {
      DownPeriodic(p, limit, k - 1);
      assert k as real * TWO_PI == (k - 1) as real * TWO_PI + TWO_PI;
      assert p + k as real * TWO_PI > limit;
    }
  }

  // ---- oscillators -----------------------------------------------------------------

  function Polynomial(x: real): real {
    var x2 := x * x;
    x * (0.99999660 + x2 * (-0.16664824 + x2 * (0.00830629 + x2 * (-0.00018363))))
  }

  function SinApprox(x: real): real { Polynomial(Up(Down(x, PI), -PI)) }

  method SineSample(phase: real) returns (w: real)
    ensures w == SinApprox(phase)
  {
    var x := phase;
    while x > PI
      invariant Down(x, PI) == Down(phase, PI)
      decreases x
    {
      x := x - TWO_PI;
    }
    while x < -PI
      invariant Up(x, -PI) == Up(Down(phase, PI), -PI)
      decreases -x
    {
      x := x + TWO_PI;
    }
    var x2 := x * x;
    w := x * (0.99999660 + x2 * (-0.16664824 + x2 * (0.00830629 + x2 * (-0.00018363))));
  }

  function Wave(waveform: nat, phase: real): real {
    var p := Wrap(phase);
    if waveform == WAVE_SINE then SinApprox(phase)
    else if waveform == WAVE_SAW then p / PI - 1.0
    else if waveform == WAVE_SQUARE then (if p < PI then 1.0 else -1.0)
    else if waveform == WAVE_TRIANGLE then (if p / PI < 1.0 then 2.0 * (p / PI) - 1.0 else 3.0 - 2.0 * (p / PI))
    else 0.0
  }

  method WaveSample(waveform: nat, phase: real) returns (w: real)
    requires waveform != WAVE_NOISE
    ensures w == Wave(waveform, phase)
  {
    if waveform == WAVE_SINE {
      w := SineSample(phase);
    } else if waveform == WAVE_SAW {
      var p := WrapPhase(phase);
      w := p / PI - 1.0;
    } else if waveform == WAVE_SQUARE {
      var p := WrapPhase(phase);
      w := if p < PI then 1.0 else -1.0;
    } else if waveform == WAVE_TRIANGLE {
      var p := WrapPhase(phase);
      var u := p / PI;
      w := if u < 1.0 then 2.0 * u - 1.0 else 3.0 - 2.0 * u;
    } else {
      w := 0.0;
    }
  }

  /** Saw, square and triangle stay in [-1, 1]. */
  lemma WaveBounds(waveform: nat, phase: real)
    requires waveform != WAVE_SINE
    ensures -1.0 <= Wave(waveform, phase) <= 1.0
  {
  }

  /** Every oscillator repeats every 2 pi of positive phase. */
  lemma WavePeriodic(waveform: nat, phase: real, k: nat)
    requires phase > 0.0
    ensures Wave(waveform, phase + k as real * TWO_PI) == Wave(waveform, phase)
  {
    DownPeriodic(phase, TWO_PI, k);
    DownPeriodic(phase, PI, k);
  }

  /** A phase in the first period is its own wrap, and so is, k periods later, a positive one. */
  lemma WrapIs(p: real, k: nat)
    requires 0.0 <= p <= TWO_PI && (p > 0.0 || k == 0)
    ensures Wrap(p + k as real * TWO_PI) == p
  {
    if p > 0.0 { DownPeriodic(p, TWO_PI, k); }
  }

  /** Over one period the square is 1 for the first half and -1 for the second, and a number that names no
      waveform is silent. */
  lemma SquareShape(p: real, waveform: nat)
    requires 0.0 <= p <= TWO_PI && waveform > WAVE_TRIANGLE
    ensures Wave(WAVE_SQUARE, p) == if p < PI then 1.0 else -1.0
    ensures Wave(waveform, p) == 0.0
  {
  }

  /** The saw rises along one straight line from -1 to 1. */
  lemma SawShape(p: real, q: real)
    requires 0.0 <= p <= TWO_PI && 0.0 <= q <= TWO_PI
    ensures Wave(WAVE_SAW, 0.0) == -1.0 && Wave(WAVE_SAW, TWO_PI) == 1.0
    ensures Wave(WAVE_SAW, (p + q) / 2.0) == (Wave(WAVE_SAW, p) + Wave(WAVE_SAW, q)) / 2.0
  {
  }

  /** The triangle rises along a straight line from -1 to 1 over half a period and comes down the same way. */
  lemma TriangleShape(p: real, q: real)
    requires 0.0 <= p <= PI && 0.0 <= q <= PI
    ensures Wave(WAVE_TRIANGLE, 0.0) == -1.0 && Wave(WAVE_TRIANGLE, PI) == 1.0
    ensures Wave(WAVE_TRIANGLE, (p + q) / 2.0) == (Wave(WAVE_TRIANGLE, p) + Wave(WAVE_TRIANGLE, q)) / 2.0
    ensures Wave(WAVE_TRIANGLE, TWO_PI - p) == Wave(WAVE_TRIANGLE, p)
  {
  }

  predicate Close(x: real, y: real) { -0.0001 < x - y < 0.0001 }

  /** The sine is odd, and within a ten-thousandth of 0, a half and 1 where a sine first has these values. */
  lemma SineShape(x: real)
    requires -PI <= x <= PI
    ensures SinApprox(-x) == -SinApprox(x) && Wave(WAVE_SINE, x) == SinApprox(x)
    ensures SinApprox(0.0) == 0.0 && Close(SinApprox(PI / 6.0), 0.5) && Close(SinApprox(PI / 2.0), 1.0)
  {
    PolynomialOdd(x);
    SineValues();
  }

  lemma PolynomialOdd(x: real)
    ensures Polynomial(-x) == -Polynomial(x)
  {
    assert -x * -x == x * x;
  }

  lemma SineValues()
    ensures Close(Polynomial(PI / 6.0), 0.5) && Close(Polynomial(PI / 2.0), 1.0)
  {
  }

  /** At the ends of its range, where a sine is 0, it is off by more than 0.038, and the wave jumps by twice
      that from one period to the next. */
  lemma SineMissesAtPi()
    ensures SinApprox(PI) < -0.038 && SinApprox(-PI) > 0.038
  {
    PolynomialOdd(PI);
    assert Polynomial(PI) < -0.038;
  }

  // ---- pitch ---------------------------------------------------------------------------

  const SEMITONE: real := 1.0594630943592953

  function Scaled(f: real, c: real, k: nat): real {
    if k == 0 then f else Scaled(f, c, k - 1) * c
  }

  function Hz(note: nat): real {
    var n := if note > 127 then 127 else note;
    if n >= 69 then Scaled(440.0, SEMITONE, n - 69) else Scaled(440.0, 1.0 / SEMITONE, 69 - n)
  }

  method MidiToHz(note: nat) returns (f: real)
    ensures f == Hz(note)
  {
    var n := if note > 127 then 127 else note;
    f := 440.0;
    var steps := n - 69;
    if steps > 0 {
      for i := 0 to steps
        invariant f == Scaled(440.0, SEMITONE, i)
      {
        f := f * SEMITONE;
      }
    } else if steps < 0 {
      for i := 0 to -steps
        invariant f == Scaled(440.0, 1.0 / SEMITONE, i)
      {
        f := f * (1.0 / SEMITONE);
      }
    }
  }

  /** Equal temperament: every step of the table, on both sides of A4 and across it, is the same ratio. */
  lemma HzStep(note: nat)
    requires note < 127
    ensures Hz(note + 1) == Hz(note) * SEMITONE
  {
    if note < 69 {
      var g := Scaled(440.0, 1.0 / SEMITONE, 68 - note);
      assert Hz(note) == g * (1.0 / SEMITONE);
      assert g * (1.0 / SEMITONE) * SEMITONE == g;
      assert Hz(note + 1) == g;
    }
  }

  /** The table is anchored at A4 and ends at note 127. */
  lemma HzAnchors(note: nat)
    requires note >= 127
    ensures Hz(69) == 440.0 && Hz(note) == Hz(127)
  {
  }
}
