/** The tracker's ADSR envelope over the reals: bounds, continuity and a slope limit. */
module Adsr {
  /** Envelope parameters of an instrument, in seconds and a level. */
  datatype Shape = Shape(attack: real, decay: real, sustain: real, release: real)

  /** adsr: t is the time since note-on, held the note's duration (an unsigned sample count). */
  function Envelope(t: real, held: real, e: Shape): real
    requires held >= 0.0
  {
    if t < 0.0 then 0.0
    else if t >= held then
      var rt := t - held;
      if e.release <= 0.0 || rt >= e.release then 0.0
      else
        var base :=
          if held < e.attack then held / e.attack
          else if held < e.attack + e.decay && e.decay > 0.0 then
            1.0 - (held - e.attack) / e.decay * (1.0 - e.sustain)
          else e.sustain;
        base * (1.0 - rt / e.release)
    else if t < e.attack then (if e.attack > 0.0 then t / e.attack else 1.0)
    else if t < e.attack + e.decay && e.decay > 0.0 then
      1.0 - (t - e.attack) / e.decay * (1.0 - e.sustain)
    else e.sustain
  }

  /** What instrument data promises: a sustain level in [0, 1]. */
  predicate LevelOk(e: Shape) { 0.0 <= e.sustain <= 1.0 }

  predicate Positive(e: Shape) { e.attack > 0.0 && e.decay > 0.0 && e.release > 0.0 }

  function Max(x: real, y: real): real { if x < y then y else x }

  /** The steepest of the three ramps. */
  function Slope(e: Shape): real
    requires Positive(e)
  {
    Max(1.0 / e.attack, Max((1.0 - e.sustain) / e.decay, 1.0 / e.release))
  }

  // ---- real arithmetic --------------------------------------------------------

  lemma Fraction(x: real, y: real)
    requires y > 0.0 && 0.0 <= x <= y
    ensures 0.0 <= x / y <= 1.0
  {
  }

  lemma Times(x: real, y: real)
    requires 0.0 <= x <= 1.0 && 0.0 <= y <= 1.0
    ensures 0.0 <= x * y <= 1.0 && x * y <= x && x * y <= y
  {
  }

  lemma MulLe(x: real, y: real, w: real)
    requires x <= y && w >= 0.0
    ensures x * w <= y * w
  {
  }

  lemma UnitTimes(b: real, i: real, k: real)
    requires 0.0 <= b <= 1.0 && 0.0 <= i <= k
    ensures 0.0 <= b * i <= k
  {
    assert b * i + (1.0 - b) * i == i;
    MulLe(0.0, 1.0 - b, i);
    MulLe(0.0, b, i);
  }

  lemma DivMul(x: real, y: real)
    requires y != 0.0
    ensures x / y == x * (1.0 / y)
  {
  }

  // ---- bounds ---------------------------------------------------------------------

  /** The level reached while the key is held, as both halves of adsr compute it. */
  function Held(t: real, e: Shape): real
    requires t >= 0.0
  {
    if t < e.attack then t / e.attack
    else if t < e.attack + e.decay && e.decay > 0.0 then
      1.0 - (t - e.attack) / e.decay * (1.0 - e.sustain)
    else e.sustain
  }

  lemma HeldBounds(t: real, e: Shape)
    requires t >= 0.0 && LevelOk(e)
    ensures 0.0 <= Held(t, e) <= 1.0
  {
    if t < e.attack {
      Fraction(t, e.attack);
    } else if t < e.attack + e.decay && e.decay > 0.0 {
      Fraction(t - e.attack, e.decay);
      Times((t - e.attack) / e.decay, 1.0 - e.sustain);
    }
  }

  /** The two halves agree: during the note the envelope is Held(t), afterwards it fades Held(held). */
  lemma EnvelopeIsHeld(t: real, held: real, e: Shape)
    requires t >= 0.0 && held >= 0.0
    ensures t < held ==> Envelope(t, held, e) == Held(t, e)
    ensures t >= held && e.release > 0.0 && t < held + e.release ==>
              Envelope(t, held, e) == Held(held, e) * (1.0 - (t - held) / e.release)
  {
  }

  /** The envelope never leaves [0, 1], whatever the signs of the three times. */
  lemma EnvelopeBounds(t: real, held: real, e: Shape)
    requires held >= 0.0 && LevelOk(e)
    ensures 0.0 <= Envelope(t, held, e) <= 1.0
  {
    if t >= 0.0 {
      EnvelopeIsHeld(t, held, e);
      HeldBounds(t, e);
      HeldBounds(held, e);
      if t >= held && e.release > 0.0 && t - held < e.release {
        Fraction(t - held, e.release);
        Times(Held(held, e), 1.0 - (t - held) / e.release);
      }
    }
  }

  // ---- slope limit ------------------------------------------------------------------

  lemma SlopeCovers(e: Shape)
    requires Positive(e) && LevelOk(e)
    ensures 0.0 < 1.0 / e.attack <= Slope(e) && 0.0 < 1.0 / e.release <= Slope(e)
    ensures 0.0 <= (1.0 - e.sustain) / e.decay <= Slope(e)
  {
  }

  /** y is within k per second of x over the w seconds between them. */
  predicate Near(x: real, y: real, k: real, w: real) { -(k * w) <= y - x <= k * w }

  lemma NearChain(x: real, y: real, z: real, k: real, v: real, w: real)
    requires Near(x, y, k, v) && Near(y, z, k, w)
    ensures Near(x, z, k, v + w)
  {
  }

  /** The held level continued by zero before note-on. */
  function Level(t: real, e: Shape): real { if t < 0.0 then 0.0 else Held(t, e) }

  lemma FlatNear(x: real, k: real, w: real)
    requires k >= 0.0 && w >= 0.0
    ensures Near(x, x, k, w)
  {
  }

  /** Two points of a line that rises from 0. */
  lemma RiseNear(x: real, y: real, slope: real, t: real, u: real, k: real)
    requires t <= u && 0.0 <= slope <= k
    requires x == slope * t && y == slope * u
    ensures Near(x, y, k, u - t)
  {
  }

  /** Two points of a line that falls from c at 0. */
  lemma DropNear(x: real, y: real, c: real, slope: real, t: real, u: real, k: real)
    requires t <= u && 0.0 <= slope <= k
    requires x == c - slope * t && y == c - slope * u
    ensures Near(x, y, k, u - t)
  {
    assert y - x == -(slope * (u - t));
    MulLe(slope, k, u - t);
  }

  /** Two points of a line that falls from c at off. */
  lemma FallNear(x: real, y: real, c: real, slope: real, off: real, t: real, u: real, k: real)
    requires t <= u && 0.0 <= slope <= k
    requires x == c - slope * (t - off) && y == c - slope * (u - off)
    ensures Near(x, y, k, u - t)
  {
  }

  lemma AttackLevel(t: real, e: Shape)
    requires Positive(e) && 0.0 <= t <= e.attack
    ensures Level(t, e) == 1.0 / e.attack * t
  {
  }

  lemma AttackNear(t: real, u: real, e: Shape, k: real)
    requires Positive(e) && 0.0 <= t <= u <= e.attack && 0.0 <= 1.0 / e.attack <= k
    ensures Near(Level(t, e), Level(u, e), k, u - t)
  {
    AttackLevel(t, e);
    AttackLevel(u, e);
    RiseNear(Level(t, e), Level(u, e), 1.0 / e.attack, t, u, k);
  }

  lemma DecayLevel(t: real, e: Shape)
    requires Positive(e) && e.attack <= t <= e.attack + e.decay
    ensures Level(t, e) == 1.0 - (1.0 - e.sustain) / e.decay * (t - e.attack)
  {
  }

  /** The decay ramp is steep enough for k. */
  predicate DecayWithin(e: Shape, k: real) { e.decay > 0.0 && 0.0 <= (1.0 - e.sustain) / e.decay <= k }

  lemma DecayNear(t: real, u: real, e: Shape, k: real)
    requires Positive(e) && DecayWithin(e, k) && e.attack <= t <= u <= e.attack + e.decay
    ensures Near(Level(t, e), Level(u, e), k, u - t)
  {
    DecayLevel(t, e);
    DecayLevel(u, e);
    FallNear(Level(t, e), Level(u, e), 1.0, (1.0 - e.sustain) / e.decay, e.attack, t, u, k);
  }

  lemma AfterDecayNear(t: real, u: real, e: Shape, k: real)
    requires Positive(e) && DecayWithin(e, k) && e.attack <= t <= u
    ensures Near(Level(t, e), Level(u, e), k, u - t)
  {
    var p := e.attack + e.decay;
    if u <= p {
      DecayNear(t, u, e, k);
    } else if t >= p {
      FlatNear(e.sustain, k, u - t);
    } else {
      DecayNear(t, p, e, k);
      FlatNear(e.sustain, k, u - p);
      NearChain(Level(t, e), Level(p, e), Level(u, e), k, p - t, u - p);
    }
  }

  lemma AfterAttackNear(t: real, u: real, e: Shape, k: real)
    requires Positive(e) && DecayWithin(e, k) && 0.0 <= 1.0 / e.attack <= k && 0.0 <= t <= u
    ensures Near(Level(t, e), Level(u, e), k, u - t)
  {
    var p := e.attack;
    if u <= p {
      AttackNear(t, u, e, k);
    } else if t >= p {
      AfterDecayNear(t, u, e, k);
    } else {
      AttackNear(t, p, e, k);
      AfterDecayNear(p, u, e, k);
      NearChain(Level(t, e), Level(p, e), Level(u, e), k, p - t, u - p);
    }
  }

  lemma LevelNear(t: real, u: real, e: Shape, k: real)
    requires Positive(e) && DecayWithin(e, k) && 0.0 <= 1.0 / e.attack <= k && t <= u
    ensures Near(Level(t, e), Level(u, e), k, u - t)
  {
    AttackLevel(0.0, e);
    if u <= 0.0 {
      FlatNear(0.0, k, u - t);
    } else if t >= 0.0 {
      AfterAttackNear(t, u, e, k);
    } else {
      FlatNear(0.0, k, 0.0 - t);
      AfterAttackNear(0.0, u, e, k);
      NearChain(Level(t, e), Level(0.0, e), Level(u, e), k, 0.0 - t, u);
    }
  }

  // ---- the release, from whatever level b was held -----------------------------------------

  /** The release ramp r seconds after note-off. */
  function Fade(b: real, r: real, release: real): real
    requires release > 0.0
  {
    if r >= release then 0.0 else b * (1.0 - r / release)
  }

  lemma FadeLine(b: real, r: real, release: real)
    requires release > 0.0 && 0.0 <= r <= release
    ensures Fade(b, r, release) == b - b * (1.0 / release) * r
  {
    var i := 1.0 / release;
    DivMul(r, release);
    assert b * (1.0 - r * i) == b - b * i * r;
    if r == release {
      assert i * r == 1.0;
      assert b * i * r == b * (i * r);
    }
  }

  lemma FadeRampNear(b: real, r: real, q: real, release: real, k: real)
    requires 0.0 <= b <= 1.0 && release > 0.0 && 1.0 / release <= k && 0.0 <= r <= q <= release
    ensures Near(Fade(b, r, release), Fade(b, q, release), k, q - r)
  {
    FadeLine(b, r, release);
    FadeLine(b, q, release);
    UnitTimes(b, 1.0 / release, k);
    DropNear(Fade(b, r, release), Fade(b, q, release), b, b * (1.0 / release), r, q, k);
  }

  lemma FadeNear(b: real, r: real, q: real, release: real, k: real)
    requires 0.0 <= b <= 1.0 && release > 0.0 && 1.0 / release <= k && 0.0 <= r <= q
    ensures Near(Fade(b, r, release), Fade(b, q, release), k, q - r)
  {
    if q <= release {
      FadeRampNear(b, r, q, release, k);
    } else if r >= release {
      FlatNear(0.0, k, q - r);
    } else {
      FadeRampNear(b, r, release, release, k);
      FlatNear(0.0, k, q - release);
      NearChain(Fade(b, r, release), 0.0, Fade(b, q, release), k, release - r, q - release);
    }
  }

  lemma EnvelopeFades(t: real, held: real, e: Shape)
    requires Positive(e) && 0.0 <= held <= t
    ensures Envelope(t, held, e) == Fade(Held(held, e), t - held, e.release)
  {
    EnvelopeIsHeld(t, held, e);
  }

  lemma AfterNoteOffNear(t: real, u: real, held: real, e: Shape, k: real)
    requires Positive(e) && LevelOk(e) && 1.0 / e.release <= k && 0.0 <= held <= t <= u
    ensures Near(Envelope(t, held, e), Envelope(u, held, e), k, u - t)
  {
    EnvelopeFades(t, held, e);
    EnvelopeFades(u, held, e);
    HeldBounds(held, e);
    FadeNear(Held(held, e), t - held, u - held, e.release, k);
  }

  lemma HeldLevel(t: real, held: real, e: Shape)
    requires Positive(e) && held >= 0.0 && t <= held
    ensures Envelope(t, held, e) == Level(t, e)
  {
    if t == held {
      EnvelopeFades(t, held, e);
    } else if t >= 0.0 {
      EnvelopeIsHeld(t, held, e);
    }
  }

  lemma HeldNear(t: real, u: real, held: real, e: Shape, k: real)
    requires Positive(e) && DecayWithin(e, k) && 0.0 <= 1.0 / e.attack <= k && held >= 0.0 && t <= u <= held
    ensures Near(Envelope(t, held, e), Envelope(u, held, e), k, u - t)
  {
    LevelNear(t, u, e, k);
    HeldLevel(t, held, e);
    HeldLevel(u, held, e);
  }

  lemma SteepestNear(t: real, u: real, held: real, e: Shape, k: real)
    requires Positive(e) && LevelOk(e) && DecayWithin(e, k) && 0.0 <= 1.0 / e.attack <= k && 1.0 / e.release <= k
    requires held >= 0.0 && t <= u
    ensures Near(Envelope(t, held, e), Envelope(u, held, e), k, u - t)
  {
    if u <= held {
      HeldNear(t, u, held, e, k);
    } else if t >= held {
      AfterNoteOffNear(t, u, held, e, k);
    } else {
      HeldNear(t, held, held, e, k);
      AfterNoteOffNear(held, u, held, e, k);
      NearChain(Envelope(t, held, e), Envelope(held, held, e), Envelope(u, held, e), k, held - t, u - held);
    }
  }

  /** The envelope changes by at most Slope per second anywhere: across the attack, decay and sustain
      corners, across note-off in any phase, and across the end of the release. So it is continuous. */
  lemma EnvelopeLipschitz(t: real, u: real, held: real, e: Shape)
    requires Positive(e) && LevelOk(e) && held >= 0.0 && t <= u
    ensures Near(Envelope(t, held, e), Envelope(u, held, e), Slope(e), u - t)
  {
    SlopeCovers(e);
    SteepestNear(t, u, held, e, Slope(e));
  }

  // ---- where the envelope jumps --------------------------------------------------------------------

  /** The times instrument data gives: none of them negative. */
  predicate TimesOk(e: Shape) { e.attack >= 0.0 && e.decay >= 0.0 && e.release >= 0.0 }

  /** The level just before note-off. */
  function LevelBefore(held: real, e: Shape): real
    requires TimesOk(e) && held > 0.0
  {
    if held <= e.attack then held / e.attack
    else if held <= e.attack + e.decay && e.decay > 0.0 then
      1.0 - (held - e.attack) / e.decay * (1.0 - e.sustain)
    else e.sustain
  }

  /** No attack, and a note that sounds at all from a level other than 0. */
  predicate JumpsAtNoteOn(held: real, e: Shape) {
    e.attack == 0.0 && (held > 0.0 || e.release > 0.0) && (e.decay > 0.0 || e.sustain != 0.0)
  }

  /** An attack that is reached, no decay, and a sustain level below the peak. */
  predicate JumpsAtPeak(held: real, e: Shape) {
    e.attack > 0.0 && e.decay == 0.0 && e.sustain != 1.0 && held >= e.attack
  }

  /** No release, from a level other than 0. */
  predicate JumpsAtNoteOff(held: real, e: Shape)
    requires TimesOk(e)
  {
    e.release == 0.0 && held > 0.0 && LevelBefore(held, e) != 0.0
  }

  predicate Jumps(held: real, e: Shape)
    requires TimesOk(e)
  {
    JumpsAtNoteOn(held, e) || JumpsAtPeak(held, e) || JumpsAtNoteOff(held, e)
  }

  predicate Differ(x: real, y: real, gap: real) { x - y >= gap || y - x >= gap }

  /** Everywhere shortly before p the envelope is at least gap away from its value at p. */
  ghost predicate JumpsAt(held: real, e: Shape, p: real, gap: real, room: real)
    requires held >= 0.0
  {
    gap > 0.0 && room > 0.0 && forall t :: p - room < t < p ==> Differ(Envelope(t, held, e), Envelope(p, held, e), gap)
  }

  ghost predicate Lipschitz(held: real, e: Shape, k: real)
    requires held >= 0.0
  {
    forall t, u :: t <= u ==> Near(Envelope(t, held, e), Envelope(u, held, e), k, u - t)
  }

  /** Some slope bounds the envelope everywhere; for straight pieces that is what continuity comes to. */
  ghost predicate Smooth(held: real, e: Shape)
    requires held >= 0.0
  {
    exists k :: Lipschitz(held, e, k)
  }

  lemma NoteOnJump(held: real, e: Shape)
    requires TimesOk(e) && LevelOk(e) && held >= 0.0 && JumpsAtNoteOn(held, e)
    ensures JumpsAt(held, e, 0.0, if e.decay > 0.0 then 1.0 else e.sustain, 1.0)
  {
  }

  /** On a ramp from 0 that would reach its top at p, the last stretch is far from anything lower. */
  lemma RampGap(t: real, p: real, length: real, level: real)
    requires 0.0 < p <= length && level < p / length && level >= 0.0
    requires p - (p - level * length) / 2.0 < t < p
    ensures 0.0 < t && t / length - level >= (p / length - level) / 2.0
  {
  }

  lemma Positives(x: real, y: real)
    requires x > 0.0 && y > 0.0
    ensures x * y > 0.0
  {
  }

  lemma DivLe(x: real, y: real, z: real)
    requires x <= y && z > 0.0
    ensures x / z <= y / z
  {
    DivMul(x, z);
    DivMul(y, z);
    MulLe(x, y, 1.0 / z);
  }

  /** Left of p the envelope is the attack ramp, and at p it is below the level the ramp reaches. */
  lemma RampJump(held: real, e: Shape, p: real, level: real)
    requires e.attack > 0.0 && 0.0 < p <= e.attack && p <= held
    requires Envelope(p, held, e) == level && 0.0 <= level < p / e.attack
    ensures JumpsAt(held, e, p, (p / e.attack - level) / 2.0, (p - level * e.attack) / 2.0)
  {
    var gap, room := (p / e.attack - level) / 2.0, (p - level * e.attack) / 2.0;
    assert room > 0.0 by { Positives(gap, e.attack); assert room == gap * e.attack; }
    forall t | p - room < t < p ensures Differ(Envelope(t, held, e), level, gap) {
      RampGap(t, p, e.attack, level);
    }
  }

  lemma OverItself(x: real)
    requires x > 0.0
    ensures x / x == 1.0
  {
  }

  lemma PeakJump(held: real, e: Shape)
    requires TimesOk(e) && LevelOk(e) && held >= 0.0 && JumpsAtPeak(held, e)
    ensures exists gap, room :: JumpsAt(held, e, e.attack, gap, room)
  {
    EnvelopeIsHeld(e.attack, held, e);
    OverItself(e.attack);
    RampJump(held, e, e.attack, Envelope(e.attack, held, e));
  }

  lemma DecayAbove(t: real, held: real, e: Shape)
    requires LevelOk(e) && e.decay > 0.0 && e.attack <= t <= held <= e.attack + e.decay
    ensures 1.0 - (t - e.attack) / e.decay * (1.0 - e.sustain) >= 1.0 - (held - e.attack) / e.decay * (1.0 - e.sustain)
  {
    DivLe(t - e.attack, held - e.attack, e.decay);
    MulLe((t - e.attack) / e.decay, (held - e.attack) / e.decay, 1.0 - e.sustain);
  }

  lemma NoteOffJump(held: real, e: Shape)
    requires TimesOk(e) && LevelOk(e) && JumpsAtNoteOff(held, e)
    ensures exists gap, room :: JumpsAt(held, e, held, gap, room)
  {
    var level := LevelBefore(held, e);
    LevelBeforeBounds(held, e);
    if held <= e.attack {
      RampJump(held, e, held, 0.0);
    } else if held <= e.attack + e.decay && e.decay > 0.0 {
      forall t | e.attack < t < held ensures Envelope(t, held, e) >= level { DecayAbove(t, held, e); }
      assert JumpsAt(held, e, held, level, held - e.attack);
    } else {
      assert JumpsAt(held, e, held, level, held - (e.attack + e.decay));
    }
  }

  lemma LevelBeforeBounds(held: real, e: Shape)
    requires TimesOk(e) && LevelOk(e) && held > 0.0
    ensures 0.0 <= LevelBefore(held, e) <= 1.0
  {
    if held <= e.attack {
      Fraction(held, e.attack);
    } else if held <= e.attack + e.decay && e.decay > 0.0 {
      Fraction(held - e.attack, e.decay);
      Times((held - e.attack) / e.decay, 1.0 - e.sustain);
    }
  }

  /** No slope bounds a jump. */
  lemma JumpIsSteep(held: real, e: Shape, p: real, gap: real, room: real, k: real)
    requires held >= 0.0 && JumpsAt(held, e, p, gap, room)
    ensures !Lipschitz(held, e, k)
  {
    var w := StepWithin(k, gap, room);
    assert Differ(Envelope(p - w, held, e), Envelope(p, held, e), gap);
    assert !Near(Envelope(p - w, held, e), Envelope(p, held, e), k, p - (p - w));
  }

  /** A step so short that slope k changes by less than gap over it. */
  lemma StepWithin(k: real, gap: real, room: real) returns (w: real)
    requires gap > 0.0 && room > 0.0
    ensures 0.0 < w < room && k * w < gap
  {
    w := room / 2.0;
    if k * w >= gap {
      w := gap / k / 2.0;
      assert k * w == gap / 2.0;
    }
  }

  // ---- and nowhere else ---------------------------------------------------------------------------------

  /** A ramp of no length that causes no jump could as well have any length. */
  function Repaired(e: Shape): Shape {
    e.(decay := if e.decay == 0.0 then 1.0 else e.decay, release := if e.release == 0.0 then 1.0 else e.release)
  }

  /** Without jumps the envelope is 0 throughout or that of positive ramps. */
  lemma NoJumpEnvelope(t: real, held: real, e: Shape)
    requires TimesOk(e) && LevelOk(e) && held >= 0.0 && !Jumps(held, e)
    ensures e.attack == 0.0 ==> Envelope(t, held, e) == 0.0
    ensures e.attack > 0.0 ==> Envelope(t, held, e) == Envelope(t, held, Repaired(e))
  {
    if t >= 0.0 && e.attack > 0.0 { SameEnvelope(t, held, e); }
  }

  lemma SameHeld(t: real, held: real, e: Shape)
    requires TimesOk(e) && e.attack > 0.0 && 0.0 <= t <= held && !JumpsAtPeak(held, e)
    ensures Held(t, e) == Held(t, Repaired(e))
  {
    if e.decay == 0.0 && t >= e.attack { assert e.sustain == 1.0; }
  }

  lemma SameEnvelope(t: real, held: real, e: Shape)
    requires TimesOk(e) && held >= 0.0 && t >= 0.0 && e.attack > 0.0 && !Jumps(held, e)
    ensures Envelope(t, held, e) == Envelope(t, held, Repaired(e))
  {
    EnvelopeIsHeld(t, held, e);
    EnvelopeIsHeld(t, held, Repaired(e));
    if t < held {
      SameHeld(t, held, e);
    } else {
      SameHeld(held, held, e);
      if e.release == 0.0 { SilentAtNoteOff(held, e); }
    }
  }

  lemma SilentAtNoteOff(held: real, e: Shape)
    requires TimesOk(e) && held >= 0.0 && e.attack > 0.0 && e.release == 0.0 && !JumpsAtNoteOff(held, e)
    ensures Held(held, e) == 0.0 || JumpsAtPeak(held, e)
  {
    if held > e.attack && held < e.attack + e.decay && e.decay > 0.0 {
      assert LevelBefore(held, e) == Held(held, e);
    }
  }

  lemma NoJumpSmooth(held: real, e: Shape)
    requires TimesOk(e) && LevelOk(e) && held >= 0.0 && !Jumps(held, e)
    ensures Smooth(held, e)
  {
    var r := Repaired(e);
    var k := if e.attack > 0.0 then Slope(r) else 0.0;
    forall t, u | t <= u ensures Near(Envelope(t, held, e), Envelope(u, held, e), k, u - t) {
      NoJumpEnvelope(t, held, e);
      NoJumpEnvelope(u, held, e);
      if e.attack > 0.0 { EnvelopeLipschitz(t, u, held, r); }
    }
    assert Lipschitz(held, e, k);
  }

  lemma JumpNotSmooth(held: real, e: Shape)
    requires TimesOk(e) && LevelOk(e) && held >= 0.0 && Jumps(held, e)
    ensures exists p, gap, room :: JumpsAt(held, e, p, gap, room)
    ensures !Smooth(held, e)
  {
    if JumpsAtNoteOn(held, e) {
      NoteOnJump(held, e);
    } else if JumpsAtPeak(held, e) {
      PeakJump(held, e);
    } else {
      NoteOffJump(held, e);
    }
    var p, gap, room :| JumpsAt(held, e, p, gap, room);
    forall k ensures !Lipschitz(held, e, k) { JumpIsSteep(held, e, p, gap, room, k); }
  }

  /** The envelope's slope is bounded exactly when no ramp of length zero has a height to cover: no jump at
      note-on, at the peak or at note-off, each told from the instrument's data and the note's length. */
  lemma SmoothExactly(held: real, e: Shape)
    requires TimesOk(e) && LevelOk(e) && held >= 0.0
    ensures Smooth(held, e) <==> !Jumps(held, e)
  {
    if Jumps(held, e) { JumpNotSmooth(held, e); } else { NoJumpSmooth(held, e); }
  }

  /** One such: with no attack ramp the envelope jumps at note-on. */
  lemma NoAttackJumps(e: Shape, held: real, t: real)
    requires LevelOk(e) && e.attack == 0.0 && e.decay > 0.0 && held > 0.0 && t < 0.0
    ensures Envelope(t, held, e) == 0.0 && Envelope(0.0, held, e) == 1.0
  {
  }

  // ---- the shape itself --------------------------------------------------------------------------------

  /** Its corners: silence before note-on and after the release, the peak at the end of the attack, the
      sustain level from the end of the decay to note-off. */
  lemma EnvelopeCorners(t: real, held: real, e: Shape)
    requires TimesOk(e) && LevelOk(e) && held >= 0.0
    ensures t < 0.0 || t >= held + e.release ==> Envelope(t, held, e) == 0.0
    ensures e.attack + e.decay <= t < held ==> Envelope(t, held, e) == e.sustain
    ensures Positive(e) ==> Envelope(0.0, held, e) == 0.0
    ensures Positive(e) && e.attack <= held ==> Envelope(e.attack, held, e) == 1.0
    ensures Positive(e) && e.attack + e.decay <= held ==> Envelope(e.attack + e.decay, held, e) == e.sustain
    ensures Positive(e) && e.attack + e.decay <= held ==> Envelope(held, held, e) == e.sustain
  {
  }

  /** Two times on the same ramp: of the attack or the decay while the note is held, or of the release. */
  predicate SameRamp(t: real, u: real, held: real, e: Shape) {
    || (0.0 <= t <= u <= e.attack && u <= held)
    || (e.attack <= t <= u <= e.attack + e.decay && u <= held)
    || (held <= t <= u <= held + e.release)
  }

  /** The middle value belongs to the middle time. */
  predicate Middle(x: real, m: real, y: real) { m == (x + y) / 2.0 }

  /** And between corners it is straight: half way along a ramp the level is half way too. */
  lemma EnvelopeStraight(t: real, u: real, held: real, e: Shape)
    requires Positive(e) && held >= 0.0 && SameRamp(t, u, held, e)
    ensures Middle(Envelope(t, held, e), Envelope((t + u) / 2.0, held, e), Envelope(u, held, e))
  {
    var m := (t + u) / 2.0;
    if held <= t {
      ReleaseStraight(t, m, u, held, e);
    } else {
      HeldLevel(t, held, e);
      HeldLevel(u, held, e);
      HeldLevel(m, held, e);
      if u <= e.attack { AttackStraight(t, m, u, e); } else { DecayStraight(t, m, u, e); }
    }
  }

  lemma AttackStraight(t: real, m: real, u: real, e: Shape)
    requires Positive(e) && 0.0 <= t <= u <= e.attack && Middle(t, m, u)
    ensures Middle(Level(t, e), Level(m, e), Level(u, e))
  {
    AttackLevel(t, e);
    AttackLevel(u, e);
    AttackLevel(m, e);
    Halfway(t, m, u, 1.0 / e.attack);
  }

  lemma DecayStraight(t: real, m: real, u: real, e: Shape)
    requires Positive(e) && e.attack <= t <= u <= e.attack + e.decay && Middle(t, m, u)
    ensures Middle(Level(t, e), Level(m, e), Level(u, e))
  {
    DecayLevel(t, e);
    DecayLevel(u, e);
    DecayLevel(m, e);
    Halfway(t - e.attack, m - e.attack, u - e.attack, (1.0 - e.sustain) / e.decay);
  }

  lemma ReleaseStraight(t: real, m: real, u: real, held: real, e: Shape)
    requires Positive(e) && 0.0 <= held <= t <= u <= held + e.release && Middle(t, m, u)
    ensures Middle(Envelope(t, held, e), Envelope(m, held, e), Envelope(u, held, e))
  {
    EnvelopeFades(t, held, e);
    EnvelopeFades(u, held, e);
    EnvelopeFades(m, held, e);
    FadeStraight(Held(held, e), t - held, m - held, u - held, e.release);
  }

  lemma FadeStraight(b: real, r: real, m: real, q: real, release: real)
    requires release > 0.0 && 0.0 <= r <= q <= release && Middle(r, m, q)
    ensures Middle(Fade(b, r, release), Fade(b, m, release), Fade(b, q, release))
  {
    FadeLine(b, r, release);
    FadeLine(b, m, release);
    FadeLine(b, q, release);
    Halfway(r, m, q, b * (1.0 / release));
  }

  lemma Halfway(x: real, m: real, y: real, slope: real)
    requires Middle(x, m, y)
    ensures Middle(slope * x, slope * m, slope * y)
  {
  }
}
