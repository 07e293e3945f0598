/**
 * Zones, height maps and the flat-index traversal shared by both generators.
 * A `float[,]` of the source is an `array2<real>` indexed `[x, y]`; its
 * contents, as a value, are a `Grid` whose `cells[x][y]` is that entry.
 */
module Grids {

  /** A `Vector2Int` zone size: `x` columns by `y` rows. */
  datatype Zone = Zone(x: nat, y: nat)

  /** The contents of a `w` by `h` height map. */
  datatype Grid = Grid(w: nat, h: nat, cells: seq<seq<real>>)

  predicate Shaped(g: Grid)
  {
    |g.cells| == g.w && forall x :: 0 <= x < g.w ==> |g.cells[x]| == g.h
  }

  /** The contents of a rectangular `float[,]`. */
  type HeightMap = g: Grid | Shaped(g) witness Grid(0, 0, [])

  /** The grid has (at least) the size of the zone in both directions. */
  predicate Covers(g: Grid, zone: Zone)
  {
    zone.x <= g.w && zone.y <= g.h
  }

  function Row(a: array2<real>, x: nat): (r: seq<real>)
    requires x < a.Length0
    reads a
    ensures |r| == a.Length1
    ensures forall y :: 0 <= y < a.Length1 ==> r[y] == a[x, y]
  {
    seq(a.Length1, y requires 0 <= y < a.Length1 reads a => a[x, y])
  }

  /** The value held by an array. */
  function GridOf(a: array2<real>): (g: HeightMap)
    reads a
    ensures Shaped(g) && g.w == a.Length0 && g.h == a.Length1
    ensures forall x, y :: 0 <= x < a.Length0 && 0 <= y < a.Length1 ==> g.cells[x][y] == a[x, y]
  {
    Grid(a.Length0, a.Length1, seq(a.Length0, x requires 0 <= x < a.Length0 reads a => Row(a, x)))
  }

  /** Two shaped grids of one size are equal when they agree cell by cell. */
  lemma {:induction false} GridExtensionality(g: Grid, k: Grid)
    requires Shaped(g) && Shaped(k) && g.w == k.w && g.h == k.h
    requires forall x, y :: 0 <= x < g.w && 0 <= y < g.h ==> g.cells[x][y] == k.cells[x][y]
    ensures g == k
  {
    forall x | 0 <= x < g.w
      ensures g.cells[x] == k.cells[x]
    {
      assert forall y :: 0 <= y < g.h ==> g.cells[x][y] == k.cells[x][y];
    }
  }

  /** The freshly allocated `new float[zone.x, zone.y]`. */
  function Zeros(zone: Zone): (g: HeightMap)
    ensures Shaped(g) && g.w == zone.x && g.h == zone.y
    ensures forall x, y :: 0 <= x < zone.x && 0 <= y < zone.y ==> g.cells[x][y] == 0.0
  {
    Grid(zone.x, zone.y, seq(zone.x, x => seq(zone.y, y => 0.0)))
  }

  /** `(float)i / NoiseScale`: a grid coordinate in lattice units. */
  function Sample(i: int, noiseScale: int): real
    requires noiseScale != 0
  {
    i as real / noiseScale as real
  }

  /**
   * The last step both generators share: `v / 2 + 0.5`, then `1 - v` for an
   * inverted layer. Inversion reflects the value about 1/2.
   */
  function Remap(v: real, inverse: bool): (r: real)
    ensures inverse ==> r == 1.0 - Remap(v, false)
    ensures -1.0 <= v <= 1.0 ==> 0.0 <= r <= 1.0
    ensures 0.0 <= v <= 2.0 && !inverse ==> 0.5 <= r <= 1.5
    ensures 0.0 <= v <= 2.0 && inverse ==> -0.5 <= r <= 0.5
  {
    var remapped := v / 2.0 + 0.5;
    if inverse then 1.0 - remapped else remapped
  }

  /** Index i of `Parallel.For(0, xSize * ySize, ...)` lands inside the grid. */
  lemma FlatIndexInRange(i: int, xSize: nat, ySize: nat)
    requires 0 <= i < xSize * ySize
    ensures xSize > 0
    ensures 0 <= i % xSize < xSize && 0 <= i / xSize < ySize
  {
    assert i >= xSize * (i / xSize);
    MulMonotone(xSize, ySize, i / xSize);
  }

  lemma MulMonotone(k: int, a: int, b: int)
    requires k >= 0
    ensures a <= b ==> k * a <= k * b
  {
  }

  /** The cell (x, y) is visited at index y * xSize + x, and only there. */
  lemma {:induction false} FlatIndexOf(x: int, y: int, xSize: int)
    requires 0 <= x < xSize && 0 <= y
    ensures (y * xSize + x) % xSize == x && (y * xSize + x) / xSize == y
  {
    var i := y * xSize + x;
    var q, r := i / xSize, i % xSize;
    assert i == q * xSize + r;
    assert (y - q) * xSize == r - x;
    MulMonotone(xSize, 1, y - q);
    MulMonotone(xSize, y - q, -1);
  }

  /** Distinct indices visit distinct cells, so no cell is written twice. */
  lemma FlatIndexInjective(i: int, j: int, xSize: int)
    requires xSize > 0 && 0 <= i && 0 <= j
    requires i % xSize == j % xSize && i / xSize == j / xSize
    ensures i == j
  {
    assert i == xSize * (i / xSize) + i % xSize;
    assert j == xSize * (j / xSize) + j % xSize;
  }

  /** Every cell of the zone has an index below xSize * ySize, so every cell is written. */
  lemma FlatIndexOnto(x: int, y: int, xSize: int, ySize: int)
    requires 0 <= x < xSize && 0 <= y < ySize
    ensures 0 <= y * xSize + x < xSize * ySize
  {
    MulMonotone(xSize, y, ySize - 1);
  }

  /** The grid whose cell (x, y) is value(x, y). */
  function Tabulate(zone: Zone, value: (nat, nat) -> real): (g: HeightMap)
    ensures Shaped(g) && g.w == zone.x && g.h == zone.y
    ensures forall x: nat, y: nat :: x < zone.x && y < zone.y ==> g.cells[x][y] == value(x, y)
  {
    Grid(zone.x, zone.y, seq(zone.x, x requires 0 <= x => seq(zone.y, y requires 0 <= y => value(x, y))))
  }

  /**
   * Writes cell (index % xSize, index / xSize), the cell that flat index
   * `index` stands for, and no other (the per-index body of the generators).
   */
  method WriteCell(index: nat, xSize: nat, value: (nat, nat) -> real, result: array2<real>)
    requires xSize > 0
    requires index % xSize < result.Length0 && index / xSize < result.Length1
    modifies result
    ensures result[index % xSize, index / xSize] == value(index % xSize, index / xSize)
    ensures forall x, y :: 0 <= x < result.Length0 && 0 <= y < result.Length1 && (x, y) != (index % xSize, index / xSize)
              ==> result[x, y] == old(result[x, y])
  {
    var ix: nat, iy: nat := index % xSize, index / xSize;
    result[ix, iy] := value(ix, iy);
  }

  /**
   * `new float[zone.x, zone.y]` followed by
   * `Parallel.For(0, zone.x * zone.y, i => GetNoiseValue(i, zone.x, ...))`,
   * with the iterations run in index order: every cell of the zone is
   * written once, with its own value.
   */
  method FillZone(zone: Zone, value: (nat, nat) -> real) returns (result: array2<real>)
    ensures fresh(result)
    ensures GridOf(result) == Tabulate(zone, value)
  {
    result := new real[zone.x, zone.y];
    var n := zone.x * zone.y;
    var i := 0;
    while i < n
      invariant 0 <= i <= n
      invariant forall x: nat, y: nat :: x < zone.x && y < zone.y && y * zone.x + x < i ==> result[x, y] == value(x, y)
    {
      FlatIndexInRange(i, zone.x, zone.y);
      ghost var ix: nat, iy: nat := i % zone.x, i / zone.x;
      WriteCell(i, zone.x, value, result);
      forall x: nat, y: nat | x < zone.x && y < zone.y && y * zone.x + x < i + 1
        ensures result[x, y] == value(x, y)
      {
        FlatIndexOf(x, y, zone.x);
        if y * zone.x + x == i {
          assert x == ix && y == iy;
        }
      }
      i := i + 1;
    }
    forall x: nat, y: nat | x < zone.x && y < zone.y
      ensures result[x, y] == value(x, y)
    {
      FlatIndexOnto(x, y, zone.x, zone.y);
    }
    GridExtensionality(GridOf(result), Tabulate(zone, value));
  }

  /**
   * A loop over the rows y < zone.y and the columns x < zone.x of a map
   * touches only existing cells: either it runs no iteration at all or
   * the zone lies inside the map.
   */
  predicate Fits(g: HeightMap, zone: Zone)
  {
    zone.x == 0 || zone.y == 0 || Covers(g, zone)
  }

  /** The map g with every cell (x, y) of the zone replaced by f(x, y, old value). */
  function UpdatedGrid(g: HeightMap, zone: Zone, f: (nat, nat, real) -> real): (r: HeightMap)
    requires Fits(g, zone)
    ensures r.w == g.w && r.h == g.h
    ensures forall x: nat, y: nat :: x < g.w && y < g.h ==>
              r.cells[x][y] == if x < zone.x && y < zone.y then f(x, y, g.cells[x][y]) else g.cells[x][y]
  {
    Grid(g.w, g.h, seq(g.w, x requires 0 <= x < g.w =>
      seq(g.h, y requires 0 <= y < g.h =>
        if x < zone.x && y < zone.y then f(x, y, g.cells[x][y]) else g.cells[x][y])))
  }

  /**
   * `for (int y = 0; y < zone.y; y++) Parallel.For(0, zone.x, x => a[x, y] = f(x, y, a[x, y]))`,
   * with the columns of a row visited in order; the cells are disjoint, so
   * the order does not matter.
   */
  method UpdateZone(a: array2<real>, zone: Zone, f: (nat, nat, real) -> real)
    requires Fits(GridOf(a), zone)
    modifies a
    ensures GridOf(a) == UpdatedGrid(old(GridOf(a)), zone, f)
  {
    ghost var before := GridOf(a);
    var y := 0;
    while y < zone.y
      invariant 0 <= y <= zone.y
      invariant forall x: nat, y': nat :: x < a.Length0 && y' < a.Length1 ==>
                  a[x, y'] == if x < zone.x && y' < y then f(x, y', before.cells[x][y']) else before.cells[x][y']
    {
      var x := 0;
      while x < zone.x
        invariant 0 <= x <= zone.x
        invariant forall x': nat, y': nat :: x' < a.Length0 && y' < a.Length1 ==>
                    a[x', y'] == if x' < zone.x && (y' < y || (y' == y && x' < x)) then f(x', y', before.cells[x'][y'])
                                 else before.cells[x'][y']
      {
        a[x, y] := f(x, y, a[x, y]);
        x := x + 1;
      }
      y := y + 1;
    }
    GridExtensionality(GridOf(a), UpdatedGrid(before, zone, f));
  }

  /** A fresh array holding the map g. */
  method Load(g: HeightMap) returns (a: array2<real>)
    ensures fresh(a)
    ensures GridOf(a) == g
  {
    a := new real[g.w, g.h]((x, y) requires 0 <= x < g.w && 0 <= y < g.h => g.cells[x][y]);
    GridExtensionality(GridOf(a), g);
  }
}
