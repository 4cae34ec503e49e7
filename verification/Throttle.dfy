/// Energy-driven throttling of the cognition rate.
module Throttle {
  import opened RealMath

  datatype SurvivalProfile = Apex | Feral | MicroWilds

  datatype ThrottleProfile = ThrottleProfile(start: real, floor: real, aggressive: bool)

  /// The smallest step above one in double precision, 2^-52.
  const EPSILON: real := 1.0 / 4503599627370496.0

  const MIN_COGNITION_RATE: real := 0.0

  function ForProfile(profile: SurvivalProfile): ThrottleProfile {
    match profile
    case Apex => ThrottleProfile(0.10, 0.0, false)
    case Feral => ThrottleProfile(0.50, 0.05, true)
    case MicroWilds => ThrottleProfile(0.35, 0.05, false)
  }

  function ComputeThrottle(energyFraction: real, preset: ThrottleProfile): real {
    var e := Clamp(energyFraction, 0.0, 1.0);
    if e >= preset.start then 1.0
    else if e <= preset.floor then 0.0
    else Shaped(Ramp(e, preset), preset.aggressive)
  }

  /// Aggressive profiles throttle along a steeper curve.
  function Shaped(t: real, aggressive: bool): real {
    if aggressive then t * t else t
  }

  /// How far `e` has come from the floor towards the start.
  function Ramp(e: real, preset: ThrottleProfile): real {
    var span := Max(preset.start - preset.floor, EPSILON);
    assert span > 0.0;
    (e - preset.floor) / span
  }

  lemma {:induction false} RampRange(e: real, preset: ThrottleProfile)
    requires preset.floor < e < preset.start
    ensures 0.0 < Ramp(e, preset) < 1.0
  {
    var span := Max(preset.start - preset.floor, EPSILON);
    Fraction(e - preset.floor, span, Ramp(e, preset));
  }

  lemma {:induction false} Fraction(x: real, span: real, q: real)
    requires 0.0 < x < span && q == x / span
    ensures 0.0 < q < 1.0
  {
    assert q * span == x;
    Scaled(q, 1.0, span, x, span);
    Scaled(0.0, q, span, 0.0, x);
  }

  lemma {:induction false} RampRises(e: real, f: real, preset: ThrottleProfile)
    requires e <= f
    ensures Ramp(e, preset) <= Ramp(f, preset)
  {
    var span := Max(preset.start - preset.floor, EPSILON);
    QuotientRises(e - preset.floor, f - preset.floor, span, Ramp(e, preset), Ramp(f, preset));
  }

  lemma {:induction false} QuotientRises(x: real, y: real, span: real, p: real, q: real)
    requires x <= y && span > 0.0 && p == x / span && q == y / span
    ensures p <= q
  {
    assert p * span == x && q * span == y;
    Scaled(q, p, span, y, x);
  }

  lemma {:induction false} SquareRises(t: real, u: real, tt: real, uu: real)
    requires 0.0 <= t <= u < 1.0 && tt == t * t && uu == u * u
    ensures 0.0 <= tt <= uu <= 1.0
  {
    MulNonNeg(t, t);
    MulLe(t, u, t);
    MulLe(t, u, u);
    MulLe(u, 1.0, u);
  }

  lemma {:induction false} ShapedRises(t: real, u: real, aggressive: bool)
    requires 0.0 <= t <= u < 1.0
    ensures 0.0 <= Shaped(t, aggressive) <= Shaped(u, aggressive) <= 1.0
  {
    SquareRises(t, u, t * t, u * u);
  }

  /// For every preset the throttle is a rate between zero and one that never falls as energy rises.
  lemma {:induction false} ThrottleIsMonotone(e: real, f: real, preset: ThrottleProfile)
    requires e <= f
    ensures 0.0 <= ComputeThrottle(e, preset) <= ComputeThrottle(f, preset) <= 1.0
  {
    hide Ramp, Shaped;
    var x, y := Clamp(e, 0.0, 1.0), Clamp(f, 0.0, 1.0);
    var p, q := Ramp(x, preset), Ramp(y, preset);
    if preset.floor < x < preset.start {
      RampRange(x, preset);
      ShapedRises(p, p, preset.aggressive);
    }
    if preset.floor < y < preset.start {
      RampRange(y, preset);
      ShapedRises(q, q, preset.aggressive);
    }
    if preset.floor < x && y < preset.start {
      RampRises(x, y, preset);
      ShapedRises(p, q, preset.aggressive);
    }
  }

  /// The ends of the scale: full rate exactly from the start up, standstill exactly from the
  /// floor down.
  lemma {:induction false} ThrottleExtremes(energyFraction: real, preset: ThrottleProfile)
    requires 0.0 <= preset.floor < preset.start <= 1.0
    ensures ComputeThrottle(energyFraction, preset) == 1.0 <==> energyFraction >= preset.start
    ensures ComputeThrottle(energyFraction, preset) == 0.0 <==> energyFraction <= preset.floor
  {
    var e := Clamp(energyFraction, 0.0, 1.0);
    if preset.floor < e < preset.start {
      RampRange(e, preset);
      StrictProduct(Ramp(e, preset), Ramp(e, preset), Ramp(e, preset) * Ramp(e, preset));
    }
    hide Ramp;
  }

  lemma {:induction false} StrictProduct(t: real, u: real, p: real)
    requires 0.0 < t < 1.0 && 0.0 < u < 1.0 && p == t * u
    ensures 0.0 < p < 1.0
  {
    MulPos(t, u);
    Scaled(t, 1.0, u, p, u);
  }

  lemma {:induction false} RampIs(e: real, preset: ThrottleProfile, span: real)
    requires span == preset.start - preset.floor && span > EPSILON
    ensures Ramp(e, preset) * span == e - preset.floor
  {
  }

  lemma {:induction false} SquaredRamp(t: real, span: real, risen: real)
    requires t * span == risen
    ensures t * t * span * span == risen * risen
  {
    assert t * t * span * span == (t * span) * (t * span);
  }

  /// The three profiles in figures. A wasteful agent slows down in the last tenth of its energy
  /// only, in proportion; the companion between 0.35 and 0.05, in proportion; the scavenger
  /// between 0.5 and 0.05, along a square.
  lemma {:induction false} ThrottleCurves(profile: SurvivalProfile, e: real)
    requires 0.0 <= e <= 1.0
    ensures var t := ComputeThrottle(e, ForProfile(profile));
      match profile
      case Apex => (e >= 0.10 ==> t == 1.0) && (e < 0.10 ==> t * 0.10 == e)
      case Feral => (e >= 0.50 ==> t == 1.0) && (e <= 0.05 ==> t == 0.0)
        && (0.05 < e < 0.50 ==> t * 0.45 * 0.45 == (e - 0.05) * (e - 0.05))
      case MicroWilds => (e >= 0.35 ==> t == 1.0) && (e <= 0.05 ==> t == 0.0) && (0.05 < e < 0.35 ==> t * 0.30 == e - 0.05)
  {
    var preset := ForProfile(profile);
    RampIs(e, preset, preset.start - preset.floor);
    SquaredRamp(Ramp(e, preset), preset.start - preset.floor, e - preset.floor);
    hide Ramp;
  }
}
