/**
 * The parts of Unity's `Mathf` the noise engine calls. Floats are modelled
 * as `real`; the transcendental functions cannot be written out exactly, so
 * they travel as a bundle of uninterpreted functions that every generator
 * takes as a parameter.
 */
module Mathf {

  /**
   * `Mathf.Cos`, `Mathf.Sin`, `Mathf.Pow`, the `Smootherstep` that is called
   * but not defined in the modelled files, and the implicit `uint` to `float`
   * conversion (which rounds to 24 significant bits) applied before `Cos`/`Sin`.
   */
  datatype Transcendental = Transcendental(
    uintToFloat: bv32 -> real,
    cos: real -> real,
    sin: real -> real,
    pow: (real, real) -> real,
    smootherstep: real -> real)

  /** The bundle's cosine and sine satisfy cos^2 + sin^2 = 1, as Unity's do up to rounding. */
  ghost predicate Pythagorean(m: Transcendental)
  {
    forall t :: m.cos(t) * m.cos(t) + m.sin(t) * m.sin(t) == 1.0
  }

  /** `Mathf.Clamp`: below the range gives the lower end, above it the upper end. */
  function Clamp(value: real, lo: real, hi: real): (r: real)
    ensures lo <= hi ==> lo <= r <= hi
    ensures lo <= value <= hi ==> r == value
    ensures value < lo ==> r == lo
    ensures lo <= hi < value ==> r == hi
  {
    if value < lo then lo else if value > hi then hi else value
  }

  /** `Mathf.Clamp01`. */
  function Clamp01(value: real): (r: real)
    ensures 0.0 <= r <= 1.0
    ensures 0.0 <= value <= 1.0 ==> r == value
    ensures value <= 0.0 ==> r == 0.0
    ensures value >= 1.0 ==> r == 1.0
  {
    if value < 0.0 then 0.0 else if value > 1.0 then 1.0 else value
  }

  /** `Mathf.InverseLerp`: where `value` sits between `a` and `b`, clamped; 0 for an empty interval. */
  function InverseLerp(a: real, b: real, value: real): (r: real)
    ensures 0.0 <= r <= 1.0
    ensures a == b ==> r == 0.0
    ensures a < b && a <= value <= b ==> r * (b - a) == value - a
    ensures a < b && value <= a ==> r == 0.0
    ensures a < b && b <= value ==> r == 1.0
  {
    if a != b then
      var t := (value - a) / (b - a);
      assert t * (b - a) == value - a;
      assert a < b ==> (value <= a ==> t <= 0.0) && (a <= value ==> t >= 0.0) by {
        if a < b {
          SignOfQuotient(t, b - a, value - a);
        }
      }
      assert a < b ==> (b <= value ==> t >= 1.0) && (value <= b ==> t <= 1.0) by {
        if a < b {
          assert (t - 1.0) * (b - a) == t * (b - a) - (b - a);
          SignOfQuotient(t - 1.0, b - a, value - b);
        }
      }
      Clamp01(t)
    else
      0.0
  }

  lemma SignOfQuotient(t: real, d: real, n: real)
    requires d > 0.0 && t * d == n
    ensures n <= 0.0 ==> t <= 0.0
    ensures n >= 0.0 ==> t >= 0.0
  {
  }

  /** `Mathf.Min` of two floats. */
  function Min(a: real, b: real): (r: real)
    ensures r <= a && r <= b
    ensures r == a || r == b
  {
    if a < b then a else b
  }

  /** A square is non-negative, and at most 1 for a value in [-1, 1]. */
  lemma SquareBounds(a: real)
    ensures a * a >= 0.0
    ensures -1.0 <= a <= 1.0 ==> a * a <= 1.0
  {
    if a >= 0.0 {
      assert a * a <= a * 1.0 || a > 1.0;
    } else {
      assert (-a) * (-a) <= (-a) * 1.0 || a < -1.0;
    }
  }

  /** r lies on the segment between a and b, whichever is larger. */
  predicate Between(r: real, a: real, b: real)
  {
    (a <= r <= b) || (b <= r <= a)
  }
}
