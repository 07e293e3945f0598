/**
 * Cellular (Voronoi) noise: every lattice cell holds one pseudo-random site,
 * and a sample's value is its squared distance to the nearest site among
 * the 3 x 3 cells around it, capped at 2, remapped and optionally inverted.
 */
module VornoiNoiseGenerator {
  import opened Mathf
  import opened NoiseUtils
  import opened Grids

  /**
   * The parameters of one Voronoi layer. `useSmootherStep` is carried but
   * never read by this generator.
   */
  datatype VornoiNoiseLayer = VornoiNoiseLayer(
    gradientOffset: int,
    noiseScale: int,
    useSmootherStep: bool,
    inverse: bool)

  /** The initial value of the running minimum, and so its upper bound. */
  const InitialSqrDist: real := 2.0

  /** The `float2` difference a - b. */
  function Sub(a: (real, real), b: (real, real)): (real, real)
  {
    (a.0 - b.0, a.1 - b.1)
  }

  /** `v.x * v.x + v.y * v.y`: non-negative, 0 for the zero vector, at most 2 inside the unit square around it. */
  function SqrMagnitude(v: (real, real)): (r: real)
    ensures r >= 0.0
    ensures v == (0.0, 0.0) ==> r == 0.0
    ensures -1.0 <= v.0 <= 1.0 && -1.0 <= v.1 <= 1.0 ==> r <= 2.0
  {
    SquareBounds(v.0);
    SquareBounds(v.1);
    v.0 * v.0 + v.1 * v.1
  }

  /**
   * The site of lattice cell (cellX, cellY): its x offset comes from the
   * first RandomFloat on the cell seed, its y offset from the second.
   */
  function GetCellPointCoordinates(cellX: int, cellY: int, seed: int): (p: (real, real))
    ensures cellX as real <= p.0 <= cellX as real + 1.0
    ensures cellY as real <= p.1 <= cellY as real + 1.0
  {
    var cellSeed := GetCellSeed2D(cellX, cellY, seed);
    var first := RandomFloat(cellSeed);
    var second := RandomFloat(first.1);
    (cellX as real + first.0 / 2.0 + 0.5, cellY as real + second.0 / 2.0 + 0.5)
  }

  /**
   * The site's offsets within its cell are the cell seed's first and second
   * hash divided by 2^32 - 1.
   */
  lemma {:induction false} CellPointFromHashes(cellX: int, cellY: int, seed: int)
    ensures
      var h := GetCellSeed2D(cellX, cellY, seed);
      var p := GetCellPointCoordinates(cellX, cellY, seed);
      p.0 - cellX as real == (Hash(h) as int) as real / MaxUInt &&
      p.1 - cellY as real == (Hash(Hash(h)) as int) as real / MaxUInt
  {
    var h := GetCellSeed2D(cellX, cellY, seed);
    RandomFloatTwice(h);
    assert RandomFloat(h).0 == ToSignedUnit(Hash(h));
  }

  /**
   * The squared distance from the sample position, which lies in cell
   * (x0, y0), to the site of the neighbouring cell (x0 + jx, y0 + jy).
   */
  function CandidateSqrDist(position: (real, real), x0: int, y0: int, seed: int, jx: int, jy: int): (r: real)
    ensures r >= 0.0
  {
    SqrMagnitude(Sub(GetCellPointCoordinates(x0 + jx, y0 + jy, seed), position))
  }

  /** The squared distances to the sites around cell (x0, y0), indexed by the offset (jx, jy). */
  function Candidates(position: (real, real), x0: int, y0: int, seed: int): (int, int) -> real
  {
    (jx: int, jy: int) => CandidateSqrDist(position, x0, y0, seed, jx, jy)
  }

  /**
   * The running minimum of the inner loop over column jx, started at `init`,
   * once jy has run from -1 up to (not including) `jyEnd`.
   */
  function RowMin(dist: (int, int) -> real, init: real, jx: int, jyEnd: int): real
    requires -1 <= jyEnd
    decreases jyEnd + 1
  {
    if jyEnd == -1 then init
    else Min(RowMin(dist, init, jx, jyEnd - 1), dist(jx, jyEnd - 1))
  }

  /** The running minimum of the outer loop once jx has run from -1 up to (not including) `jxEnd`. */
  function GridMin(dist: (int, int) -> real, jxEnd: int): real
    requires -1 <= jxEnd
    decreases jxEnd + 1
  {
    if jxEnd == -1 then InitialSqrDist
    else RowMin(dist, GridMin(dist, jxEnd - 1), jxEnd - 1, 2)
  }

  /**
   * The inner loop's minimum is no larger than its start and than any
   * distance seen, and it is either the start or one of those distances.
   */
  lemma {:induction false} RowMinBounds(dist: (int, int) -> real, init: real, jx: int, jyEnd: int)
    requires -1 <= jyEnd
    ensures RowMin(dist, init, jx, jyEnd) <= init
    ensures forall jy :: -1 <= jy < jyEnd ==> RowMin(dist, init, jx, jyEnd) <= dist(jx, jy)
    ensures RowMin(dist, init, jx, jyEnd) == init ||
            exists jy :: -1 <= jy < jyEnd && RowMin(dist, init, jx, jyEnd) == dist(jx, jy)
    decreases jyEnd + 1
  {
    if jyEnd != -1 {
      RowMinBounds(dist, init, jx, jyEnd - 1);
    }
  }

  /**
   * The outer loop's minimum is at most 2 and than every distance of the
   * columns seen, and it is either 2 or one of those distances.
   */
  lemma {:induction false} GridMinBounds(dist: (int, int) -> real, jxEnd: int)
    requires -1 <= jxEnd
    ensures GridMin(dist, jxEnd) <= InitialSqrDist
    ensures forall jx, jy :: -1 <= jx < jxEnd && -1 <= jy <= 1 ==> GridMin(dist, jxEnd) <= dist(jx, jy)
    ensures GridMin(dist, jxEnd) == InitialSqrDist ||
            exists jx, jy :: -1 <= jx < jxEnd && -1 <= jy <= 1 && GridMin(dist, jxEnd) == dist(jx, jy)
    decreases jxEnd + 1
  {
    if jxEnd != -1 {
      GridMinBounds(dist, jxEnd - 1);
      RowMinBounds(dist, GridMin(dist, jxEnd - 1), jxEnd - 1, 2);
    }
  }

  /** The sample position of grid cell (ix, iy) in lattice units. */
  function Position(ix: int, iy: int, layer: VornoiNoiseLayer): (real, real)
    requires layer.noiseScale != 0
  {
    (Sample(ix, layer.noiseScale), Sample(iy, layer.noiseScale))
  }

  /** `minSqrDist` for a sample at `position` once both loops have finished. */
  function MinSqrDist(position: (real, real), seed: int): real
  {
    GridMin(Candidates(position, position.0.Floor, position.1.Floor, seed), 2)
  }

  /** The value GetNoiseValue stores for cell (ix, iy). */
  function NoiseValue(ix: int, iy: int, layer: VornoiNoiseLayer): real
    requires layer.noiseScale != 0
  {
    Remap(MinSqrDist(Position(ix, iy, layer), layer.gradientOffset), layer.inverse)
  }

  /**
   * The nested loop of GetNoiseValue (lines 65-73): starting from 2, the
   * running minimum of dist(jx, jy) over the nine offsets, where dist(jx, jy)
   * is the squared distance from the sample to the site of cell
   * (x0 + jx, y0 + jy).
   */
  method NearestSqrDist(dist: (int, int) -> real) returns (minSqrDist: real)
    ensures minSqrDist == GridMin(dist, 2)
  {
    minSqrDist := InitialSqrDist;
    var jx := -1;
    while jx <= 1
      invariant -1 <= jx <= 2
      invariant minSqrDist == GridMin(dist, jx)
    {
      ghost var rowStart := minSqrDist;
      var jy := -1;
      while jy <= 1
        invariant -1 <= jy <= 2
        invariant minSqrDist == RowMin(dist, rowStart, jx, jy)
      {
        minSqrDist := Min(minSqrDist, dist(jx, jy));
        jy := jy + 1;
      }
      jx := jx + 1;
    }
  }

  /** The body of GetNoiseValue for cell (ix, iy), up to the write (lines 56-83). */
  method CellValue(ix: nat, iy: nat, layer: VornoiNoiseLayer) returns (layerValue: real)
    requires layer.noiseScale != 0
    ensures layerValue == NoiseValue(ix, iy, layer)
  {
    var position := Position(ix, iy, layer);
    var minSqrDist := NearestSqrDist(Candidates(position, position.0.Floor, position.1.Floor, layer.gradientOffset));
    layerValue := minSqrDist / 2.0 + 0.5;
    if layer.inverse {
      layerValue := 1.0 - layerValue;
    }
  }

  /** Computes cell (index % xSize, index / xSize) and writes it; no other cell changes. */
  method GetNoiseValue(index: nat, xSize: nat, layer: VornoiNoiseLayer, result: array2<real>)
    requires xSize > 0 && layer.noiseScale != 0
    requires index % xSize < result.Length0 && index / xSize < result.Length1
    modifies result
    ensures result[index % xSize, index / xSize] == NoiseValue(index % xSize, index / xSize, layer)
    ensures forall x, y :: 0 <= x < result.Length0 && 0 <= y < result.Length1 && (x, y) != (index % xSize, index / xSize)
              ==> result[x, y] == old(result[x, y])
  {
    var ix: nat, iy: nat := index % xSize, index / xSize;
    var layerValue := CellValue(ix, iy, layer);
    result[ix, iy] := layerValue;
  }

  /** The noise field of a layer: cell (x, y) holds NoiseValue(x, y). */
  function Field(layer: VornoiNoiseLayer): (nat, nat) -> real
    requires layer.noiseScale != 0
  {
    (x: nat, y: nat) => NoiseValue(x, y, layer)
  }

  /**
   * GenerateZone: a zone-sized map whose every cell holds the value
   * GetNoiseValue computes for it.
   */
  method GenerateZone(zone: Zone, layer: VornoiNoiseLayer) returns (result: array2<real>)
    requires layer.noiseScale != 0
    ensures fresh(result)
    ensures result.Length0 == zone.x && result.Length1 == zone.y
    ensures forall x: nat, y: nat :: x < zone.x && y < zone.y ==> result[x, y] == NoiseValue(x, y, layer)
    ensures GridOf(result) == Tabulate(zone, Field(layer))
  {
    result := FillZone(zone, Field(layer));
  }


  /** A position lies in its own cell, at most one unit from that cell's site in each direction. */
  lemma OwnCellWithinReach(position: (real, real), x0: int, y0: int, seed: int)
    requires x0 == position.0.Floor && y0 == position.1.Floor
    ensures CandidateSqrDist(position, x0, y0, seed, 0, 0) <= InitialSqrDist
  {
  }

  /**
   * After both loops the running minimum is the smallest of the nine
   * distances, and is one of them as soon as the centre one is at most 2.
   */
  lemma {:induction false} GridMinIsMinimum(dist: (int, int) -> real)
    requires dist(0, 0) <= InitialSqrDist
    ensures forall jx, jy :: -1 <= jx <= 1 && -1 <= jy <= 1 ==> GridMin(dist, 2) <= dist(jx, jy)
    ensures exists jx, jy :: -1 <= jx <= 1 && -1 <= jy <= 1 && GridMin(dist, 2) == dist(jx, jy)
  {
    GridMinBounds(dist, 2);
    if GridMin(dist, 2) == InitialSqrDist {
      assert GridMin(dist, 2) <= dist(0, 0);
    }
  }

  /**
   * The minimum is the squared distance to one of the nine neighbouring
   * sites, no neighbouring site is nearer, and the starting value 2 never
   * decides it, since the sample's own cell is within reach.
   */
  lemma MinIsNearestSite(position: (real, real), x0: int, y0: int, seed: int)
    requires x0 == position.0.Floor && y0 == position.1.Floor
    ensures forall jx, jy :: -1 <= jx <= 1 && -1 <= jy <= 1 ==>
              GridMin(Candidates(position, x0, y0, seed), 2) <= Candidates(position, x0, y0, seed)(jx, jy)
    ensures exists jx, jy :: -1 <= jx <= 1 && -1 <= jy <= 1 &&
              GridMin(Candidates(position, x0, y0, seed), 2) == Candidates(position, x0, y0, seed)(jx, jy)
    ensures 0.0 <= GridMin(Candidates(position, x0, y0, seed), 2) <= InitialSqrDist
  {
    var dist := Candidates(position, x0, y0, seed);
    OwnCellWithinReach(position, x0, y0, seed);
    assert dist(0, 0) == CandidateSqrDist(position, x0, y0, seed, 0, 0);
    GridMinIsMinimum(dist);
    var jx, jy :| -1 <= jx <= 1 && -1 <= jy <= 1 && GridMin(dist, 2) == dist(jx, jy);
    assert dist(jx, jy) == CandidateSqrDist(position, x0, y0, seed, jx, jy);
  }

  /** The stored value lies in [0.5, 1.5], or in [-0.5, 0.5] for an inverted layer. */
  lemma NoiseValueRange(ix: int, iy: int, layer: VornoiNoiseLayer)
    requires layer.noiseScale != 0
    ensures !layer.inverse ==> 0.5 <= NoiseValue(ix, iy, layer) <= 1.5
    ensures layer.inverse ==> -0.5 <= NoiseValue(ix, iy, layer) <= 0.5
  {
    var position := Position(ix, iy, layer);
    MinIsNearestSite(position, position.0.Floor, position.1.Floor, layer.gradientOffset);
  }
}
