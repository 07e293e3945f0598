/**
 * Two-dimensional gradient noise: each cell's value interpolates the dot
 * products of the four surrounding lattice gradients with the offsets from
 * those lattice corners, then is remapped, optionally inverted and raised
 * to a power.
 */
module PerlinNoiseGenerator {
  import opened Mathf
  import opened NoiseUtils
  import opened Grids

  /** The parameters of one Perlin layer, in the order of its constructor. */
  datatype PerlinNoiseLayer = PerlinNoiseLayer(
    gradientOffset: int,
    noiseScale: int,
    useSmootherStep: bool,
    inverse: bool,
    pow: real)

  /** The cubic smoothstep of w clamped to [0, 1]. */
  function Smoothstep(w: real): (r: real)
    ensures 0.0 <= r <= 1.0
    ensures w <= 0.0 ==> r == 0.0
    ensures w >= 1.0 ==> r == 1.0
  {
    var c := Clamp(w, 0.0, 1.0);
    SmoothstepBounds(c);
    c * c * (3.0 - 2.0 * c)
  }

  lemma SmoothstepBounds(c: real)
    requires 0.0 <= c <= 1.0
    ensures 0.0 <= c * c * (3.0 - 2.0 * c) <= 1.0
  {
    SmoothstepComplement(c);
    ProductSigns(1.0 - c, 1.0 - c);
    ProductSigns((1.0 - c) * (1.0 - c), 1.0 + 2.0 * c);
    ProductSigns(c, c);
    ProductSigns(c * c, 3.0 - 2.0 * c);
  }

  /** 1 - w^2 (3 - 2w) factors as (1 - w)^2 (1 + 2w). */
  lemma SmoothstepComplement(c: real)
    ensures 1.0 - c * c * (3.0 - 2.0 * c) == (1.0 - c) * (1.0 - c) * (1.0 + 2.0 * c)
  {
  }

  /** The product of two non-negative factors is non-negative. */
  lemma ProductSigns(a: real, b: real)
    ensures a >= 0.0 && b >= 0.0 ==> a * b >= 0.0
  {
  }

  /** a0 + (a1 - a0) * t stays between a0 and a1 for a weight t in [0, 1]. */
  lemma LerpBetween(a0: real, a1: real, t: real)
    requires 0.0 <= t <= 1.0
    ensures Between(a0 + (a1 - a0) * t, a0, a1)
  {
    var d := a1 - a0;
    if d >= 0.0 {
      ProductSigns(d, t);
      ProductSigns(d, 1.0 - t);
      assert d * (1.0 - t) == d - d * t;
    } else {
      ProductSigns(-d, t);
      ProductSigns(-d, 1.0 - t);
      assert (-d) * (1.0 - t) == d * t - d;
      assert (-d) * t == -(d * t);
    }
  }

  /** The weight Interpolate uses: the smootherstep or the smoothstep of w. */
  function SmoothWeight(w: real, smootherStep: bool, m: Transcendental): real
  {
    if smootherStep then m.smootherstep(w) else Smoothstep(w)
  }

  /**
   * Interpolation between a0 and a1 by weight w. With the smoothstep weight
   * the result stays between the two ends and reaches each end outside (0, 1).
   */
  function Interpolate(a0: real, a1: real, w: real, smootherStep: bool, m: Transcendental): (r: real)
    ensures !smootherStep ==> Between(r, a0, a1)
    ensures !smootherStep && w <= 0.0 ==> r == a0
    ensures !smootherStep && w >= 1.0 ==> r == a1
    ensures smootherStep && 0.0 <= m.smootherstep(w) <= 1.0 ==> Between(r, a0, a1)
    ensures smootherStep && m.smootherstep(w) == 0.0 ==> r == a0
  {
    var smoothW := SmoothWeight(w, smootherStep, m);
    assert 0.0 <= smoothW <= 1.0 ==> Between(a0 + (a1 - a0) * smoothW, a0, a1) by {
      if 0.0 <= smoothW <= 1.0 {
        LerpBetween(a0, a1, smoothW);
      }
    }
    a0 + (a1 - a0) * smoothW
  }

  /** The gradient of a lattice corner: (cos a, sin a) for the corner's seed a, read as a float. */
  function RandomGradient2D(ix: int, iy: int, seed: int, m: Transcendental): (real, real)
  {
    var a := GetCellSeed2D(ix, iy, seed);
    (m.cos(m.uintToFloat(a)), m.sin(m.uintToFloat(a)))
  }

  /** (c, s) has length 1. */
  predicate UnitVector(c: real, s: real)
  {
    c * c + s * s == 1.0
  }

  /** d is at most, in absolute value, the length of (dx, dy). */
  predicate WithinLength(d: real, dx: real, dy: real)
  {
    d * d <= dx * dx + dy * dy
  }

  /** Where cos^2 + sin^2 = 1, every lattice gradient is a unit vector. */
  lemma GradientIsUnit(ix: int, iy: int, seed: int, m: Transcendental)
    requires Pythagorean(m)
    ensures var g := RandomGradient2D(ix, iy, seed, m);
            UnitVector(g.0, g.1)
  {
    var t := m.uintToFloat(GetCellSeed2D(ix, iy, seed));
    assert m.cos(t) * m.cos(t) + m.sin(t) * m.sin(t) == 1.0;
  }

  /**
   * The Cauchy-Schwarz bound in the plane: (dx c + dy s)^2 is at most
   * (dx^2 + dy^2)(c^2 + s^2), the gap being (dx s - dy c)^2.
   */
  lemma DotBound(dx: real, dy: real, g: (real, real))
    requires UnitVector(g.0, g.1)
    ensures WithinLength(dx * g.0 + dy * g.1, dx, dy)
  {
    var c, s := g.0, g.1;
    var gap := dx * s - dy * c;
    assert (dx * dx + dy * dy) * (c * c + s * s) - (dx * c + dy * s) * (dx * c + dy * s) == gap * gap;
    SquareBounds(gap);
  }

  /** The dot product of the corner's gradient with the offset from the corner to (x, y). */
  function DotGridGradient2D(ix: int, iy: int, x: real, y: real, gradientOffset: int, m: Transcendental): (r: real)
    ensures x == ix as real && y == iy as real ==> r == 0.0
  {
    var randomVec := RandomGradient2D(ix, iy, gradientOffset, m);
    var dx := x - ix as real;
    var dy := y - iy as real;
    dx * randomVec.0 + dy * randomVec.1
  }

  /**
   * With unit gradients a corner's dot product is at most, in absolute
   * value, the distance from the corner to the sample.
   */
  lemma DotWithinDistance(ix: int, iy: int, x: real, y: real, gradientOffset: int, m: Transcendental)
    requires Pythagorean(m)
    ensures WithinLength(DotGridGradient2D(ix, iy, x, y, gradientOffset, m), x - ix as real, y - iy as real)
  {
    var g := RandomGradient2D(ix, iy, gradientOffset, m);
    var dx, dy := x - ix as real, y - iy as real;
    assert DotGridGradient2D(ix, iy, x, y, gradientOffset, m) == dx * g.0 + dy * g.1;
    GradientIsUnit(ix, iy, gradientOffset, m);
    DotBound(dx, dy, g);
  }

  /** `v - FloorToInt(v)`: the position of v within its lattice cell. */
  function CellWeight(v: real): (s: real)
    ensures 0.0 <= s < 1.0
    ensures s == 0.0 <==> v == v.Floor as real
  {
    v - v.Floor as real
  }

  /** The dot product for one of the four corners (x0 + cx, y0 + cy) of the sample's cell. */
  function CornerDot(ix: int, iy: int, cx: int, cy: int, layer: PerlinNoiseLayer, m: Transcendental): real
    requires layer.noiseScale != 0
  {
    var x := Sample(ix, layer.noiseScale);
    var y := Sample(iy, layer.noiseScale);
    DotGridGradient2D(x.Floor + cx, y.Floor + cy, x, y, layer.gradientOffset, m)
  }

  /** The interpolated value of cell (ix, iy) before it is remapped (line 84). */
  function RawValue(ix: int, iy: int, layer: PerlinNoiseLayer, m: Transcendental): real
    requires layer.noiseScale != 0
  {
    var sx := CellWeight(Sample(ix, layer.noiseScale));
    var sy := CellWeight(Sample(iy, layer.noiseScale));
    var smoother := layer.useSmootherStep;
    var ix0 := Interpolate(CornerDot(ix, iy, 0, 0, layer, m), CornerDot(ix, iy, 1, 0, layer, m), sx, smoother, m);
    var ix1 := Interpolate(CornerDot(ix, iy, 0, 1, layer, m), CornerDot(ix, iy, 1, 1, layer, m), sx, smoother, m);
    Interpolate(ix0, ix1, sy, smoother, m)
  }

  /** `v / 2 + 0.5`, then `1 - v` when the layer is inverted: the value handed to `Pow`. */
  function PrePow(ix: int, iy: int, layer: PerlinNoiseLayer, m: Transcendental): real
    requires layer.noiseScale != 0
  {
    Remap(RawValue(ix, iy, layer, m), layer.inverse)
  }

  /** The value GetNoiseValue stores for cell (ix, iy). */
  function NoiseValue(ix: int, iy: int, layer: PerlinNoiseLayer, m: Transcendental): real
    requires layer.noiseScale != 0
  {
    m.pow(PrePow(ix, iy, layer, m), layer.pow)
  }

  /** The noise field of a layer: cell (x, y) holds NoiseValue(x, y). */
  function Field(layer: PerlinNoiseLayer, m: Transcendental): (nat, nat) -> real
    requires layer.noiseScale != 0
  {
    (x: nat, y: nat) => NoiseValue(x, y, layer, m)
  }

  /**
   * GenerateZone: a zone-sized map whose every cell holds the value
   * GetNoiseValue computes for it.
   */
  method GenerateZone(zone: Zone, layer: PerlinNoiseLayer, m: Transcendental) returns (result: array2<real>)
    requires layer.noiseScale != 0
    ensures fresh(result)
    ensures result.Length0 == zone.x && result.Length1 == zone.y
    ensures forall x: nat, y: nat :: x < zone.x && y < zone.y ==> result[x, y] == NoiseValue(x, y, layer, m)
    ensures GridOf(result) == Tabulate(zone, Field(layer, m))
  {
    result := FillZone(zone, Field(layer, m));
  }


  /** With a non-zero scale both interpolation weights lie in [0, 1). */
  lemma WeightsInUnitInterval(ix: int, iy: int, layer: PerlinNoiseLayer)
    requires layer.noiseScale != 0
    ensures 0.0 <= CellWeight(Sample(ix, layer.noiseScale)) < 1.0
    ensures 0.0 <= CellWeight(Sample(iy, layer.noiseScale)) < 1.0
  {
  }

  /** A multiple of the scale is a lattice coordinate. */
  lemma SampleOfMultiple(i: int, noiseScale: int)
    requires noiseScale != 0 && i % noiseScale == 0
    ensures Sample(i, noiseScale) == (i / noiseScale) as real
    ensures CellWeight(Sample(i, noiseScale)) == 0.0
  {
    var q := i / noiseScale;
    assert i == noiseScale * q;
    assert i as real == noiseScale as real * q as real;
  }

  /**
   * At a lattice point the interpolation collapses onto the corner the sample
   * sits on, whose offset is zero, so the raw value is 0: this holds with
   * smoothstep, and with the smootherstep when it maps 0 to 0.
   */
  lemma {:induction false} LatticeRawValue(ix: int, iy: int, layer: PerlinNoiseLayer, m: Transcendental)
    requires layer.noiseScale != 0
    requires ix % layer.noiseScale == 0 && iy % layer.noiseScale == 0
    requires layer.useSmootherStep ==> m.smootherstep(0.0) == 0.0
    ensures RawValue(ix, iy, layer, m) == 0.0
  {
    SampleOfMultiple(ix, layer.noiseScale);
    SampleOfMultiple(iy, layer.noiseScale);
    var x := Sample(ix, layer.noiseScale);
    var y := Sample(iy, layer.noiseScale);
    assert x.Floor == ix / layer.noiseScale && y.Floor == iy / layer.noiseScale;
    assert CornerDot(ix, iy, 0, 0, layer, m) == 0.0;
  }

  /** Hence at a lattice point the value handed to `Pow` is 0.5, inverted or not. */
  lemma {:induction false} LatticePrePow(ix: int, iy: int, layer: PerlinNoiseLayer, m: Transcendental)
    requires layer.noiseScale != 0 && !layer.useSmootherStep
    requires ix % layer.noiseScale == 0 && iy % layer.noiseScale == 0
    ensures PrePow(ix, iy, layer, m) == 0.5
    ensures NoiseValue(ix, iy, layer, m) == m.pow(0.5, layer.pow)
  {
    LatticeRawValue(ix, iy, layer, m);
  }

  /**
   * With smoothstep weights the raw value is a bilinear blend of the four
   * corner dot products, so it lies between the smallest and the largest.
   */
  lemma {:induction false} RawValueWithinCorners(ix: int, iy: int, layer: PerlinNoiseLayer, m: Transcendental)
    requires layer.noiseScale != 0 && !layer.useSmootherStep
    ensures
      var d00, d10 := CornerDot(ix, iy, 0, 0, layer, m), CornerDot(ix, iy, 1, 0, layer, m);
      var d01, d11 := CornerDot(ix, iy, 0, 1, layer, m), CornerDot(ix, iy, 1, 1, layer, m);
      var lo := Min(Min(d00, d10), Min(d01, d11));
      var r := RawValue(ix, iy, layer, m);
      lo <= r && r <= -Min(Min(-d00, -d10), Min(-d01, -d11))
  {
    var sx := CellWeight(Sample(ix, layer.noiseScale));
    var sy := CellWeight(Sample(iy, layer.noiseScale));
    var d00, d10 := CornerDot(ix, iy, 0, 0, layer, m), CornerDot(ix, iy, 1, 0, layer, m);
    var d01, d11 := CornerDot(ix, iy, 0, 1, layer, m), CornerDot(ix, iy, 1, 1, layer, m);
    var ix0 := Interpolate(d00, d10, sx, false, m);
    var ix1 := Interpolate(d01, d11, sx, false, m);
    assert Between(ix0, d00, d10) && Between(ix1, d01, d11);
    assert Between(RawValue(ix, iy, layer, m), ix0, ix1);
  }

  /**
   * Horizontally neighbouring cells share their common corners: the right-hand
   * corners of (x0, y0) are the left-hand corners of (x0 + 1, y0), so both
   * samples see the same gradient there.
   */
  lemma SharedCornerGradient(ix: int, iy: int, jx: int, jy: int, layer: PerlinNoiseLayer, m: Transcendental)
    requires layer.noiseScale != 0
    requires Sample(jx, layer.noiseScale).Floor == Sample(ix, layer.noiseScale).Floor + 1
    requires Sample(jy, layer.noiseScale).Floor == Sample(iy, layer.noiseScale).Floor
    ensures
      var x0, y0 := Sample(ix, layer.noiseScale).Floor, Sample(iy, layer.noiseScale).Floor;
      var x0', y0' := Sample(jx, layer.noiseScale).Floor, Sample(jy, layer.noiseScale).Floor;
      RandomGradient2D(x0 + 1, y0, layer.gradientOffset, m) == RandomGradient2D(x0', y0', layer.gradientOffset, m) &&
      RandomGradient2D(x0 + 1, y0 + 1, layer.gradientOffset, m) == RandomGradient2D(x0', y0' + 1, layer.gradientOffset, m)
  {
  }
}
