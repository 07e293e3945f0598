# NoisyEnvironment noise engine, modelled in Dafny

This project models the noise-field engine of NoisyEnvironment
(`Assets/Scripts/NoiseGeneration`) and proves properties of the model. The
engine has three layers:

- **Seeds and hashes** (`NoiseUtils.dfy`). The lattice-cell seed
  `GetCellSeed2D`, the Schechter–Bridson `Hash` and `RandomFloat` work on
  unsigned 32-bit integers that wrap around, written as `bv32`.
  `RandomFloat` modifies its `ref` seed, so here it returns the pair
  (value, new seed).
- **Per-cell generators** (`PerlinNoiseGenerator.dfy`,
  `VornoiNoiseGenerator.dfy`, and the shared traversal in `Grids.dfy`).
  `GenerateZone` allocates a `zone.x × zone.y` array. It then writes each
  cell from its flat index (`ix = i % xSize`, `iy = i / xSize`). Perlin
  interpolates four lattice-gradient dot products. Voronoi takes the
  minimum squared distance to the jittered sites of the 3 × 3 neighbouring
  cells. Both then remap `v / 2 + 0.5` and optionally invert. Perlin also
  applies `Pow`.
- **Layer nodes with caches** (`Layers.dfy`, `LayerGraph.dfy`,
  `LayerProperties.dfy`).
  - `NoiseLayer` generates its map, masks it by another layer's map and
    keeps a snapshot of the settings it used.
  - `LayerAggregation` sums its children's maps, each weighted by its
    normalised weight. It caches the result until the zone changes or
    `Changed` reports a change.
  - Nodes live in an arena: a sequence of nodes addressed by index. A layer
    reference is the index of that layer.
  - `Layers` states, as functions on values, what a `GetHeightMap` call
    returns and leaves behind (`Eval`).
  - `LayerGraph.Arena` is a class over that sequence. Its methods update the
    caches in place and run the per-cell loops on arrays. Each method is
    proved to match `Eval`.
  - `LayerProperties` proves the cache, masking and weighted-average
    properties about `Eval`.

`Mathf.dfy` holds the Unity `Mathf` helpers the engine uses. Floats are
modelled as `real`. `Mathf.Cos`, `Mathf.Sin`, `Mathf.Pow`, the
`Smootherstep` that is called but not defined, and the implicit
`uint`-to-`float` conversion of a corner seed before `Mathf.Cos` and
`Mathf.Sin` cannot be written exactly. They are fields of a
`Transcendental` value that the Perlin generator and the layer functions
take as a parameter; the Voronoi generator uses none of them. Nothing is
assumed about them, except in the lemmas that require `Mathf.Pythagorean`
(cos² + sin² = 1).

The children of an aggregation must have smaller indices than the
aggregation. A mask index may be at most the layer's own index, and an
equal index is the `m_mask == this` error case. The source has no other
cycle guard: on any other cycle its recursion does not terminate.

## Model

Paths are relative to the repository root; every source file lies under `Assets/Scripts/NoiseGeneration/`.

| member | source | states |
|---|---|---|
| Mathf.Clamp | Assets/Scripts/NoiseGeneration/Perlin/PerlinNoiseGenerator.cs:97 | the result lies in [lo, hi]; a value inside is kept, a value below gives lo, a value above gives hi |
| Mathf.Clamp01 | Assets/Scripts/NoiseGeneration/NoiseLayer.cs:187 | the result lies in [0, 1]; 0 for a value at or below 0, 1 at or above 1, the value itself in between |
| Mathf.InverseLerp | Assets/Scripts/NoiseGeneration/NoiseLayer.cs:187 | the result lies in [0, 1]; it is 0 for an empty interval; inside the interval, r · (b − a) = value − a; it is 0 at or below a and 1 at or above b |
| Mathf.Min | Assets/Scripts/NoiseGeneration/Vornoi/VornoiNoiseGenerator.cs:71 | the result is at most both arguments and equals one of them |
| NoiseUtils.Rotl16 | Assets/Scripts/NoiseGeneration/NoiseUtils.cs:9-16 | the shift-or of x by s = w / 2 = 16 places, with w = 32, is the 16-bit left rotation |
| NoiseUtils.Rotl16Twice | Assets/Scripts/NoiseGeneration/NoiseUtils.cs:14-16 | rotating by 16 twice gives back x |
| NoiseUtils.GetCellSeed2D | Assets/Scripts/NoiseGeneration/NoiseUtils.cs:7-19 | no contract of its own: the uint casts of ix, iy and seed fed to CellSeed; its properties are the lemmas below |
| NoiseUtils.XorRotatedTwice | Assets/Scripts/NoiseGeneration/NoiseUtils.cs:14 | `b ^= rotl16(a)` applied twice with the same a gives back b |
| NoiseUtils.UnmulRowMulRow | Assets/Scripts/NoiseGeneration/NoiseUtils.cs:15 | multiplication by 335132421 undoes `b *= 1911520717` modulo 2^32 |
| NoiseUtils.UnmulOutMulOut | Assets/Scripts/NoiseGeneration/NoiseUtils.cs:17 | multiplication by 1193713493 undoes `a *= 2048419325` modulo 2^32 |
| NoiseUtils.UnmixCellMixCell | Assets/Scripts/NoiseGeneration/NoiseUtils.cs:14-17 | the last four steps of GetCellSeed2D can be undone: from the first product a and the result, UnmixCell recovers b |
| NoiseUtils.CellSeedRowInjective | Assets/Scripts/NoiseGeneration/NoiseUtils.cs:11-18 | for a fixed column and seed, two uint rows with the same cell seed are equal |
| NoiseUtils.GetCellSeed2DRowInjective | Assets/Scripts/NoiseGeneration/NoiseUtils.cs:7-19 | two cells of one column with the same seed have rows with the same uint cast |
| NoiseUtils.CellSeedColumnZero | Assets/Scripts/NoiseGeneration/NoiseUtils.cs:13-17 | for ix = 0 the cell seed is the same for every seed |
| NoiseUtils.CellSeedGoldenOne | Assets/Scripts/NoiseGeneration/NoiseUtils.cs:7-19 | GetCellSeed2D(1, 0, 0) = 3658973919 |
| NoiseUtils.CellSeedGoldenDiagonal | Assets/Scripts/NoiseGeneration/NoiseUtils.cs:7-19 | GetCellSeed2D(1, 1, 0) = 548588431 |
| NoiseUtils.CellSeedGoldenSeeded | Assets/Scripts/NoiseGeneration/NoiseUtils.cs:7-19 | GetCellSeed2D(3, 5, 7) = 2970708774 |
| NoiseUtils.ToUIntMinusOne | Assets/Scripts/NoiseGeneration/NoiseUtils.cs:11-12 | the cast `(uint)(-1)` is 0xFFFFFFFF |
| NoiseUtils.CellSeedGoldenNegative | Assets/Scripts/NoiseGeneration/NoiseUtils.cs:7-19 | GetCellSeed2D(−1, −1, 0) = 3577655738, the casts of −1 being 0xFFFFFFFF |
| NoiseUtils.XorShift16Twice | Assets/Scripts/NoiseGeneration/NoiseUtils.cs:26 | `s ^= s >> 16` applied twice gives back s, so the step is invertible |
| NoiseUtils.WhitenTwice | Assets/Scripts/NoiseGeneration/NoiseUtils.cs:24 | xor with 2747636419 applied twice gives back s |
| NoiseUtils.UnmixMix | Assets/Scripts/NoiseGeneration/NoiseUtils.cs:25 | multiplication by 340573321 undoes multiplication by the odd 2654435769 modulo 2^32 |
| NoiseUtils.Hash | Assets/Scripts/NoiseGeneration/NoiseUtils.cs:22-31 | no contract of its own: the six steps in order; inverted by Unhash (UnhashHash) and injective (HashInjective) |
| NoiseUtils.UnhashHash | Assets/Scripts/NoiseGeneration/NoiseUtils.cs:22-31 | Hash has a left inverse, Unhash, which undoes its six steps in reverse order |
| NoiseUtils.HashInjective | Assets/Scripts/NoiseGeneration/NoiseUtils.cs:22-31 | two seeds with the same hash are equal |
| NoiseUtils.HashGoldenValues | Assets/Scripts/NoiseGeneration/NoiseUtils.cs:22-31 | Hash(0) = 1739749167, Hash(1) = 150776505 and Hash(Hash(0)) = 1640446612 |
| NoiseUtils.ToSignedUnit | Assets/Scripts/NoiseGeneration/NoiseUtils.cs:36-37 | `h / (2^32 − 1) · 2 − 1` lies in [−1, 1], and remapping it by `/ 2 + 0.5` gives back h / (2^32 − 1) |
| NoiseUtils.RandomFloat | Assets/Scripts/NoiseGeneration/NoiseUtils.cs:33-38 | the new seed is Hash(seed) and the value lies in [−1, 1] |
| NoiseUtils.RandomFloatTwice | Assets/Scripts/NoiseGeneration/NoiseUtils.cs:35 | two calls on one seed variable consume Hash(s) and then Hash(Hash(s)); the second value comes from Hash(Hash(s)) |
| Grids.Zeros | Assets/Scripts/NoiseGeneration/LayerAggregation.cs:66 | a new `float[zone.x, zone.y]` has the zone's size and holds 0 in every cell |
| Grids.Remap | Assets/Scripts/NoiseGeneration/Perlin/PerlinNoiseGenerator.cs:86-91 | the inverted value is 1 minus the plain one; for v in [−1, 1] the result is in [0, 1]; for v in [0, 2] it is in [0.5, 1.5], or in [−0.5, 0.5] when inverted |
| Grids.FlatIndexInRange | Assets/Scripts/NoiseGeneration/Perlin/PerlinNoiseGenerator.cs:57-58 | for 0 ≤ i < xSize · ySize, xSize is positive, i % xSize < xSize and i / xSize < ySize |
| Grids.FlatIndexOf | Assets/Scripts/NoiseGeneration/Perlin/PerlinNoiseGenerator.cs:57-58 | index y · xSize + x maps back to the cell (x, y) |
| Grids.FlatIndexInjective | Assets/Scripts/NoiseGeneration/Vornoi/VornoiNoiseGenerator.cs:53-54 | two indices that map to the same cell are equal, so no cell is written twice |
| Grids.FlatIndexOnto | Assets/Scripts/NoiseGeneration/Vornoi/VornoiNoiseGenerator.cs:46 | every cell of the zone has an index below xSize · ySize, so every cell is written |
| Grids.WriteCell | Assets/Scripts/NoiseGeneration/Perlin/PerlinNoiseGenerator.cs:92 | the cell (index % xSize, index / xSize) receives its value and every other cell is unchanged |
| Grids.FillZone | Assets/Scripts/NoiseGeneration/Perlin/PerlinNoiseGenerator.cs:45-53 | the fresh array holds value(x, y) in every cell (x, y) of the zone |
| Grids.UpdateZone | Assets/Scripts/NoiseGeneration/NoiseLayer.cs:178-181 | each cell of the zone becomes f(x, y, old value) and each cell outside the zone keeps its value |
| PerlinNoiseGenerator.Smoothstep | Assets/Scripts/NoiseGeneration/Perlin/PerlinNoiseGenerator.cs:95-99 | the result lies in [0, 1]; it is 0 for w ≤ 0 and 1 for w ≥ 1 |
| PerlinNoiseGenerator.SmoothstepBounds | Assets/Scripts/NoiseGeneration/Perlin/PerlinNoiseGenerator.cs:98 | the cubic c² (3 − 2c) stays in [0, 1] for c in [0, 1] |
| PerlinNoiseGenerator.LerpBetween | Assets/Scripts/NoiseGeneration/Perlin/PerlinNoiseGenerator.cs:113 | a0 + (a1 − a0) · t lies between a0 and a1 when t is in [0, 1] |
| PerlinNoiseGenerator.Interpolate | Assets/Scripts/NoiseGeneration/Perlin/PerlinNoiseGenerator.cs:101-114 | with smoothstep the result lies between a0 and a1; it is a0 for w ≤ 0 and a1 for w ≥ 1; with smootherstep it lies between them when the smootherstep weight is in [0, 1], and is a0 when that weight is 0 |
| PerlinNoiseGenerator.RandomGradient2D | Assets/Scripts/NoiseGeneration/Perlin/PerlinNoiseGenerator.cs:149-155 | no contract of its own: (cos a, sin a) of the corner seed a read as a float; GradientIsUnit states its length |
| PerlinNoiseGenerator.GradientIsUnit | Assets/Scripts/NoiseGeneration/Perlin/PerlinNoiseGenerator.cs:149-155 | where cos² + sin² = 1, every corner gradient has length 1 |
| PerlinNoiseGenerator.DotBound | Assets/Scripts/NoiseGeneration/Perlin/PerlinNoiseGenerator.cs:179 | for a unit vector (c, s), (dx · c + dy · s)² ≤ dx² + dy² |
| PerlinNoiseGenerator.DotWithinDistance | Assets/Scripts/NoiseGeneration/Perlin/PerlinNoiseGenerator.cs:170-180 | where cos² + sin² = 1, the square of a corner's dot product is at most the squared distance from the corner to the sample |
| PerlinNoiseGenerator.DotGridGradient2D | Assets/Scripts/NoiseGeneration/Perlin/PerlinNoiseGenerator.cs:170-180 | at the corner itself the dot product is 0, whatever the gradient |
| PerlinNoiseGenerator.CellWeight | Assets/Scripts/NoiseGeneration/Perlin/PerlinNoiseGenerator.cs:71-72 | `v − FloorToInt(v)` lies in [0, 1), and is 0 exactly when v is an integer |
| PerlinNoiseGenerator.RawValue | Assets/Scripts/NoiseGeneration/Perlin/PerlinNoiseGenerator.cs:57-84 | no contract of its own: the two-level interpolation of the four corner dots; bounded by RawValueWithinCorners and 0 on the lattice by LatticeRawValue |
| PerlinNoiseGenerator.PrePow | Assets/Scripts/NoiseGeneration/Perlin/PerlinNoiseGenerator.cs:86-91 | no contract of its own: Remap of RawValue; 0.5 on the lattice by LatticePrePow |
| PerlinNoiseGenerator.NoiseValue | Assets/Scripts/NoiseGeneration/Perlin/PerlinNoiseGenerator.cs:92 | no contract of its own: Pow of PrePow; GenerateZone stores it in every cell |
| PerlinNoiseGenerator.GenerateZone | Assets/Scripts/NoiseGeneration/Perlin/PerlinNoiseGenerator.cs:45-93 | a fresh zone-sized array whose cell (x, y) holds GetNoiseValue's `Pow(remapped value, Pow)` for that cell |
| PerlinNoiseGenerator.WeightsInUnitInterval | Assets/Scripts/NoiseGeneration/Perlin/PerlinNoiseGenerator.cs:60-72 | with a non-zero NoiseScale, both weights sx and sy lie in [0, 1) |
| PerlinNoiseGenerator.SampleOfMultiple | Assets/Scripts/NoiseGeneration/Perlin/PerlinNoiseGenerator.cs:60-61 | a multiple of NoiseScale samples an integer lattice coordinate with weight 0 |
| PerlinNoiseGenerator.LatticeRawValue | Assets/Scripts/NoiseGeneration/Perlin/PerlinNoiseGenerator.cs:60-84 | at a lattice point the interpolated value is 0, with smoothstep and with any smootherstep that maps 0 to 0 |
| PerlinNoiseGenerator.LatticePrePow | Assets/Scripts/NoiseGeneration/Perlin/PerlinNoiseGenerator.cs:60-92 | at a lattice point with smoothstep the value handed to `Pow` is 0.5, inverted or not, and the stored value is Pow(0.5, Pow) |
| PerlinNoiseGenerator.RawValueWithinCorners | Assets/Scripts/NoiseGeneration/Perlin/PerlinNoiseGenerator.cs:78-84 | with smoothstep the interpolated value lies between the smallest and the largest of the four corner dot products |
| PerlinNoiseGenerator.SharedCornerGradient | Assets/Scripts/NoiseGeneration/Perlin/PerlinNoiseGenerator.cs:149-155 | two horizontally neighbouring lattice cells see the same gradient at the two corners they share; it follows because the gradient is a function of the corner and the offset alone |
| VornoiNoiseGenerator.SqrMagnitude | Assets/Scripts/NoiseGeneration/Vornoi/VornoiNoiseGenerator.cs:88-91 | the squared length is non-negative, 0 for the zero vector, and at most 2 when both components are in [−1, 1] |
| VornoiNoiseGenerator.GetCellPointCoordinates | Assets/Scripts/NoiseGeneration/Vornoi/VornoiNoiseGenerator.cs:93-98 | the site of cell (cx, cy) lies in [cx, cx + 1] × [cy, cy + 1] |
| VornoiNoiseGenerator.CellPointFromHashes | Assets/Scripts/NoiseGeneration/Vornoi/VornoiNoiseGenerator.cs:95-97 | the site's x offset is Hash(cellSeed) / (2^32 − 1) and its y offset is Hash(Hash(cellSeed)) / (2^32 − 1) |
| VornoiNoiseGenerator.CandidateSqrDist | Assets/Scripts/NoiseGeneration/Vornoi/VornoiNoiseGenerator.cs:71 | each candidate distance is non-negative |
| VornoiNoiseGenerator.RowMinBounds | Assets/Scripts/NoiseGeneration/Vornoi/VornoiNoiseGenerator.cs:69-72 | the inner loop's minimum is at most its start value and every distance it has seen, and equals one of them |
| VornoiNoiseGenerator.GridMinBounds | Assets/Scripts/NoiseGeneration/Vornoi/VornoiNoiseGenerator.cs:65-73 | the outer loop's minimum is at most 2 and every distance seen in the columns it covered, and is 2 or one of those distances |
| VornoiNoiseGenerator.NearestSqrDist | Assets/Scripts/NoiseGeneration/Vornoi/VornoiNoiseGenerator.cs:65-73 | the nested loop over jx, jy ∈ {−1, 0, 1} computes the running minimum, started at 2, of the nine distances in loop order |
| VornoiNoiseGenerator.MinSqrDist | Assets/Scripts/NoiseGeneration/Vornoi/VornoiNoiseGenerator.cs:59-73 | no contract of its own: the fold of the nine candidate distances from 2; MinIsNearestSite states what it is |
| VornoiNoiseGenerator.NoiseValue | Assets/Scripts/NoiseGeneration/Vornoi/VornoiNoiseGenerator.cs:76-85 | no contract of its own: Remap of MinSqrDist; NoiseValueRange bounds it |
| VornoiNoiseGenerator.CellValue | Assets/Scripts/NoiseGeneration/Vornoi/VornoiNoiseGenerator.cs:53-83 | the value computed for cell (ix, iy) is the remapped and optionally inverted nearest-site distance |
| VornoiNoiseGenerator.GetNoiseValue | Assets/Scripts/NoiseGeneration/Vornoi/VornoiNoiseGenerator.cs:51-86 | cell (index % xSize, index / xSize) receives its value and every other cell is unchanged |
| VornoiNoiseGenerator.GenerateZone | Assets/Scripts/NoiseGeneration/Vornoi/VornoiNoiseGenerator.cs:41-49 | a fresh zone-sized array whose cell (x, y) holds GetNoiseValue's value for that cell |
| VornoiNoiseGenerator.OwnCellWithinReach | Assets/Scripts/NoiseGeneration/Vornoi/VornoiNoiseGenerator.cs:62-71 | the site of the sample's own cell is at squared distance at most 2 |
| VornoiNoiseGenerator.GridMinIsMinimum | Assets/Scripts/NoiseGeneration/Vornoi/VornoiNoiseGenerator.cs:65-73 | when the centre distance is at most 2, the loop's result is at most each of the nine distances and equals one of them |
| VornoiNoiseGenerator.MinIsNearestSite | Assets/Scripts/NoiseGeneration/Vornoi/VornoiNoiseGenerator.cs:62-73 | `minSqrDist` is the squared distance to one of the nine neighbouring sites, no neighbouring site is nearer, and it lies in [0, 2] |
| VornoiNoiseGenerator.NoiseValueRange | Assets/Scripts/NoiseGeneration/Vornoi/VornoiNoiseGenerator.cs:76-85 | the stored value lies in [0.5, 1.5], or in [−0.5, 0.5] for an inverted layer |
| Layers.Equals | Assets/Scripts/NoiseGeneration/LayerAggregation.cs:35-40 | the result is true exactly when obj is an entry with the same layer and the same weight; it is false for null |
| Layers.Clone | Assets/Scripts/NoiseGeneration/LayerAggregation.cs:42-49 | the copy Equals the original in both directions |
| Layers.CloneAll | Assets/Scripts/NoiseGeneration/LayerAggregation.cs:78 | the saved list has the children's length, and each child Equals its saved copy |
| Layers.Generated | Assets/Scripts/NoiseGeneration/NoiseLayer.cs:121-134 | the generator of the layer's type produces a map of the zone's size |
| Layers.GetMaskValue | Assets/Scripts/NoiseGeneration/NoiseLayer.cs:184-189 | the mask value lies in [0, 1]; the inverted one is 1 minus the plain one; with a proper interval, a mask at or below its low end gives 0 and one at or above its high end gives 1 |
| Layers.MaskUpdate | Assets/Scripts/NoiseGeneration/NoiseLayer.cs:180 | no contract of its own: the cell update v · GetMaskValue(x, y); MaskedResult and ApplyMask apply it over the saved zone |
| Layers.NeedsFullRegeneration | Assets/Scripts/NoiseGeneration/NoiseLayer.cs:94-112 | as written it returns true; in particular it asks for a regeneration whenever the comparison after its early return would |
| Layers.ParameterCheck | Assets/Scripts/NoiseGeneration/NoiseLayer.cs:97-111 | no contract of its own: the unreachable comparison; RegeneratedIsCurrent and ParameterCheckIgnores state what it compares |
| Layers.InverseChanged | Assets/Scripts/NoiseGeneration/NoiseLayer.cs:162-165 | no contract of its own: the saved and current inverse flags differ; cleared by Regenerated (RegeneratedIsCurrent) and by RecalculatedInverse |
| Layers.Save | Assets/Scripts/NoiseGeneration/NoiseLayer.cs:144-159 | no contract of its own: the saved copies GenerateZone writes; RegeneratedIsCurrent states that they match the settings |
| Layers.IsChanged | Assets/Scripts/NoiseGeneration/LayerAggregation.cs:84-102 | no contract of its own: `Changed` of both node kinds; Arena.Changed is proved to answer it and NoiseBelowMeansChanged states when it holds |
| Layers.Regenerated | Assets/Scripts/NoiseGeneration/NoiseLayer.cs:142-159 | a completed GenerateZone leaves the layer's settings unchanged |
| Layers.RecalculatedInverse | Assets/Scripts/NoiseGeneration/NoiseLayer.cs:167-174 | its loop body raises NullReference exactly when there is no map and the saved zone is non-empty, and IndexOutOfRange exactly when the map does not cover the saved zone; otherwise each cell of the saved zone becomes 1 − v, every other cell keeps its value, the saved inverse becomes the setting, every other field is unchanged and InverseChanged no longer holds |
| Layers.Eval | Assets/Scripts/NoiseGeneration/NoiseLayerBase.cs:5-9 | `GetHeightMap` never alters a layer's settings or an aggregation's children, anywhere in the arena |
| Layers.EvalNoiseLayer | Assets/Scripts/NoiseGeneration/NoiseLayer.cs:76-87 | `NoiseLayer.GetHeightMap` never alters any node's settings or children |
| Layers.EvalAggregation | Assets/Scripts/NoiseGeneration/LayerAggregation.cs:62-82 | `LayerAggregation.GetHeightMap` never alters any node's settings or children |
| Layers.ApplyLayer | Assets/Scripts/NoiseGeneration/LayerAggregation.cs:20-28 | the sum keeps the zone's size; when the child throws, nothing is added |
| Layers.ApplyLayerRunsChild | Assets/Scripts/NoiseGeneration/LayerAggregation.cs:20-22 | the step leaves the arena the child's GetHeightMap leaves, and its map or exception is the child's |
| Layers.ApplyLayers | Assets/Scripts/NoiseGeneration/LayerAggregation.cs:73-76 | the loop over the children keeps every node's shape and the sum's size |
| LayerGraph.ApplyMask | Assets/Scripts/NoiseGeneration/NoiseLayer.cs:176-182 | it completes exactly when the saved zone fits both maps; then each cell of that zone is multiplied by its mask value and every other cell is unchanged; otherwise the map is unchanged |
| LayerGraph.SumWeights | Assets/Scripts/NoiseGeneration/LayerAggregation.cs:68-72 | the loop computes the sum of the children's weights |
| LayerGraph.Arena.GetHeightMap | Assets/Scripts/NoiseGeneration/NoiseLayerBase.cs:5-9 | the arena and the result after the call are those that Eval gives for the arena before it |
| LayerGraph.Arena.NoiseLayerGetHeightMap | Assets/Scripts/NoiseGeneration/NoiseLayer.cs:76-160 | the arena and the result are those that EvalNoiseLayer gives |
| LayerGraph.Arena.ApplyLayer | Assets/Scripts/NoiseGeneration/LayerAggregation.cs:20-33 | the arena, the child's map and the summed array are those that Layers.ApplyLayer gives |
| LayerGraph.Arena.AggregationGetHeightMap | Assets/Scripts/NoiseGeneration/LayerAggregation.cs:62-82 | the arena and the result are those that EvalAggregation gives |
| LayerGraph.Arena.AccumulateLayers | Assets/Scripts/NoiseGeneration/LayerAggregation.cs:73-76 | the arena, the summed array and the exception are those that Layers.ApplyLayers gives |
| LayerGraph.Arena.Changed | Assets/Scripts/NoiseGeneration/LayerAggregation.cs:84-102 | with its early returns, the loop answers IsChanged: true for no map, a different length, an entry unequal to its saved copy, or a changed child |
| LayerGraph.Arena.RecalculateInverse | Assets/Scripts/NoiseGeneration/NoiseLayer.cs:167-174 | the arena becomes the one RecalculatedInverse describes: each cell of the saved zone becomes 1 − v and the saved inverse follows the setting; on an exception nothing changes |
| LayerProperties.NoiseBelowMeansChanged | Assets/Scripts/NoiseGeneration/LayerAggregation.cs:94-100 | a node with a noise layer at or below it always reports Changed |
| LayerProperties.StaleAggregationRecomputes | Assets/Scripts/NoiseGeneration/LayerAggregation.cs:64-80 | with another zone or a change, the map is recomputed from zero through the children and saved; on success the zone is saved; on an exception only the partial map is stored in the node |
| LayerProperties.AggregationOverNoiseRecomputes | Assets/Scripts/NoiseGeneration/LayerAggregation.cs:64-76 | an aggregation with a noise layer below it never returns its cache: it returns the recomputed map or the child's exception |
| LayerProperties.CachedMapReturned | Assets/Scripts/NoiseGeneration/LayerAggregation.cs:64-81 | with the saved zone and no change, a map exists, it is returned unmodified, and the arena is unchanged |
| LayerProperties.AfterAggregationOnlyChildrenMatter | Assets/Scripts/NoiseGeneration/LayerAggregation.cs:78-100 | after a successful call the node holds the returned map and the zone, its saved children Equal its children, and it reports Changed exactly when a child does |
| LayerProperties.EvalFrame | Assets/Scripts/NoiseGeneration/NoiseLayerBase.cs:5-9 | `GetHeightMap` on node i leaves every node after i exactly as it was |
| LayerProperties.EvalNoiseLayerFrame | Assets/Scripts/NoiseGeneration/NoiseLayer.cs:114-160 | a noise layer's GenerateZone leaves every node after it unchanged |
| LayerProperties.EvalAggregationFrame | Assets/Scripts/NoiseGeneration/LayerAggregation.cs:62-82 | an aggregation's GetHeightMap leaves every node after it unchanged |
| LayerProperties.ApplyLayerFrame | Assets/Scripts/NoiseGeneration/LayerAggregation.cs:20-28 | a child's ApplyLayer leaves every node after the child unchanged |
| LayerProperties.ApplyLayersFrame | Assets/Scripts/NoiseGeneration/LayerAggregation.cs:73-76 | the children's loop of aggregation i leaves node i and every later node unchanged |
| LayerProperties.SelfMaskRejected | Assets/Scripts/NoiseGeneration/NoiseLayer.cs:116-119 | a layer masked by itself throws `Invalid Mask`, and nothing in the arena changes |
| LayerProperties.UnmaskedLayerIsGenerated | Assets/Scripts/NoiseGeneration/NoiseLayer.cs:121-134 | without a mask, the layer returns exactly its generator's map of the zone |
| LayerProperties.GenerationSaves | Assets/Scripts/NoiseGeneration/NoiseLayer.cs:142-165 | after a successful call the flag is cleared, the map and the zone are saved, InverseChanged is false and the unreachable comparison finds nothing to regenerate |
| LayerProperties.MaskShrinks | Assets/Scripts/NoiseGeneration/NoiseLayer.cs:180 | multiplying by a mask value in [0, 1] moves a value towards 0 without crossing it |
| LayerProperties.MaskedResult | Assets/Scripts/NoiseGeneration/NoiseLayer.cs:136-140 | a masked layer's map is its generated map with ApplyMask run over the zone saved by the previous call |
| LayerProperties.MaskedVornoiRange | Assets/Scripts/NoiseGeneration/NoiseLayer.cs:176-189 | masking cells in the Voronoi range leaves them in [0, 1.5], or in [−0.5, 0.5] when inverted |
| LayerProperties.GeneratedVornoiRange | Assets/Scripts/NoiseGeneration/NoiseLayer.cs:129-133 | every cell a Voronoi layer generates lies in [0.5, 1.5], or in [−0.5, 0.5] when inverted |
| LayerProperties.VornoiLayerRange | Assets/Scripts/NoiseGeneration/NoiseLayer.cs:114-140 | a map a Voronoi layer returns, masked or not, has the zone's size and cells in [0, 1.5], or in [−0.5, 0.5] when inverted |
| LayerProperties.ParameterCheckIgnores | Assets/Scripts/NoiseGeneration/NoiseLayer.cs:97-111 | the unreachable comparison ignores mul, offset and inverse |
| LayerProperties.RegeneratedIsCurrent | Assets/Scripts/NoiseGeneration/NoiseLayer.cs:97-165 | after GenerateZone the comparison asks for a regeneration exactly when the zone differs, and InverseChanged is false |
| LayerProperties.RecalculateInverseTwice | Assets/Scripts/NoiseGeneration/NoiseLayer.cs:167-174 | applying it twice restores the map, and the saved inverse follows the setting |
| LayerProperties.ScaledWeightSumFactors | Assets/Scripts/NoiseGeneration/LayerAggregation.cs:23 | the sum of the weights `layerWeightMultiplier · Weight` is the multiplier times the sum of the weights |
| LayerProperties.NormalizedWeightsSumToOne | Assets/Scripts/NoiseGeneration/LayerAggregation.cs:68-75 | with multiplier 1 / weightSum, the effective weights sum to 1 |
| LayerProperties.AddedCell | Assets/Scripts/NoiseGeneration/LayerAggregation.cs:30-33 | ApplyLayerAtCoordinates adds the child's cell times the weight to the cell of the sum |
| LayerProperties.AddedContribution | Assets/Scripts/NoiseGeneration/LayerAggregation.cs:24-27 | adding the next child to a map that holds the weighted sum of the earlier children gives the weighted sum including it |
| LayerProperties.ApplyLayerAdds | Assets/Scripts/NoiseGeneration/LayerAggregation.cs:20-28 | when the child returns a map, the zone fits it and the map is added with weight `multiplier · Weight` |
| LayerProperties.ApplyLayersSum | Assets/Scripts/NoiseGeneration/LayerAggregation.cs:73-76 | the loop preserves "each cell is the weighted sum of the maps added so far", and every child has been added when it completes |
| LayerProperties.AggregationIsWeightedSum | Assets/Scripts/NoiseGeneration/LayerAggregation.cs:62-76 | starting from zero, each cell of the recomputed map is the sum of childᵢ[x, y] · Weightᵢ · (1 / ΣWeight) |
| LayerProperties.ContributionOfConstant | Assets/Scripts/NoiseGeneration/LayerAggregation.cs:20-33 | children that agree on a cell contribute that value times the sum of their weights |
| LayerProperties.NormalizedContributionOfConstant | Assets/Scripts/NoiseGeneration/LayerAggregation.cs:68-75 | with normalised weights, children that agree on a cell give exactly that value |
| LayerProperties.AgreeingChildrenGiveTheirValue | Assets/Scripts/NoiseGeneration/LayerAggregation.cs:62-76 | when every child has value c at a cell, the aggregation's map has c there, whatever the weights |
| LayerProperties.WeightSumNonNegative | Assets/Scripts/NoiseGeneration/LayerAggregation.cs:68-72 | non-negative weights have a non-negative sum |
| LayerProperties.ContributionBounds | Assets/Scripts/NoiseGeneration/LayerAggregation.cs:20-33 | with non-negative weights, a weighted sum of cells in [lo, hi] lies between lo and hi times the sum of the weights |
| LayerProperties.NormalizedBounds | Assets/Scripts/NoiseGeneration/LayerAggregation.cs:68-75 | with normalised non-negative weights, the weighted sum of cells in [lo, hi] lies in [lo, hi] |
| LayerProperties.AggregationWithinChildRange | Assets/Scripts/NoiseGeneration/LayerAggregation.cs:62-76 | with non-negative weights, the aggregation's cell lies in [lo, hi] when every child's cell does |

## Left out

- Floats are `real`, so rounding, infinities and NaN are not modelled. A weight that is NaN is not modelled.
- `Mathf.Cos`, `Mathf.Sin`, `Mathf.Pow`, `Smootherstep` and the `uint`-to-`float` conversion of a corner seed before `Cos` and `Sin` are uninterpreted functions passed in a `Transcendental` value.
- NoiseUtils.ToSignedUnit: the conversion `seed / 4294967295.0f` in `RandomFloat` is taken over exact reals. In single precision the divisor rounds to 2^32 and the seed to 24 significant bits; the model divides the exact seed by 2^32 − 1.
- 32-bit `int` overflow is not modelled: `zoneToGenerate.x * zoneToGenerate.y` in both `GenerateZone`s, `x0 + 1` in the Perlin generator and `x0 + jx` in the Voronoi generator are unbounded integers here.
- NoiseUtils.GetCellSeed2DRowInjective: concludes that the two rows have the same uint cast, not that they are the same `int`. The cast is one-to-one on 32-bit ints, but that step is not proved.
- `Smootherstep` is called but not defined in the modelled files.
- PerlinNoiseGenerator.Interpolate: with the smootherstep weight, the bounds are stated only under a condition on that weight's range, because `Smootherstep` is uninterpreted.
- A zero `NoiseScale` and a zero weight sum over a non-empty list of children are excluded by a precondition. In the source each is a float division by zero.
- Zone sizes are natural numbers. A negative size makes the source's array allocation throw, and that case is not modelled.
- `Parallel.For` loops run sequentially, in index order. They write disjoint cells, so the result is the same.
- `IndexOutOfRange` and `NullReference` name the exception raised inside a `Parallel.For` body (NoiseLayer.cs:171 and :180, LayerAggregation.cs:26). The source delivers it to the caller wrapped in an `AggregateException`; the model does not represent the wrapper. Only `InvalidMask` (the `ArgumentException` of a self-mask) escapes unwrapped.
- The grid is left as it was before a loop that throws part-way. The writes already done by the parallel loop before the exception are not modelled.
- Caches are values. `GetHeightMap` returns the cached map as a value, so the source's aliasing of the returned `float[,]` is not modelled. Neither is a caller modifying that array later.
- `RecalculateInverse` flips a fresh array loaded from the cache.
- `LayerGraph.Arena.RecalculateInverse` is modelled on its own. As written, `NeedsFullRegeneration` returns true, so `GetHeightMap` never reaches it.
- The comparison after the early return in `NeedsFullRegeneration` is kept as the unreachable predicate `Layers.ParameterCheck`.
- The mask loop runs over the saved zone of the previous call, as written. `m_savedZoneToGenerate` is updated only after `ApplyMask`.
- A null `m_layers`, a null `Layer` entry and a null `m_savedLayers` are not modelled. Children always exist, and the saved list starts empty.
- `m_savedLayerWeight` is never written by the source. It is carried unchanged.
- References between layers must point to earlier nodes (a mask may be the layer itself):
  - this stands in for acyclicity;
  - cycles through other layers are not modelled;
  - on such a cycle the source recurses forever.
- The constructor calls at `NoiseLayer.cs:124` and `:130` do not match the structs they build, which take 5 and 4 parameters:
  - Perlin is given the first five arguments, and `m_mul` and `m_offset` are dropped;
  - Voronoi is given `m_gradientOffset`, `m_noiseScale`, `m_useSmootherStep` and `m_inverse` by field name;
  - order, seams, sameCell, mul and offset have no effect in the model, as in the generator structs.
- The Voronoi generator never reads `UseSmootherStep`.
- Layers.Eval: its own contract states only what a call never changes. What the call computes is its body; the LayerProperties lemmas state it, and LayerGraph.Arena.GetHeightMap is proved equal to it.
- Layers.EvalNoiseLayer: likewise, its contract states only that settings and children are kept. What it computes is stated by LayerProperties.SelfMaskRejected, UnmaskedLayerIsGenerated, MaskedResult, GenerationSaves and VornoiLayerRange.
- Layers.EvalAggregation: likewise. What it computes is stated by LayerProperties.StaleAggregationRecomputes, CachedMapReturned, AfterAggregationOnlyChildrenMatter and AggregationIsWeightedSum.
- Layers.ApplyLayer: its contract states the sum's size and the exception case. Layers.ApplyLayerRunsChild ties the arena and the result to the child's Eval, and LayerProperties.ApplyLayerAdds states the addition.
- Layers.ApplyLayers: its contract states only sizes and shapes. The weighted sum is stated by LayerProperties.ApplyLayersSum.
- Layers.Regenerated: its contract states only that the settings are kept. The saved copies are stated by LayerProperties.GenerationSaves.
- Layers.Generated: its contract states only the map's size. The cell values are stated by the two generators' GenerateZone methods and by LayerProperties.GeneratedVornoiRange.
- PerlinNoiseGenerator.SmoothstepBounds: states the range [0, 1] and not the strict bounds inside (0, 1).
- VornoiNoiseGenerator.SqrMagnitude: states that the zero vector gives 0, not the converse.
- `RandomGradient`, `RandomFloat3InsideUnitSphere` and `DotGridGradient` (the 3D variants) are not modelled. They are unused, and their rejection loop has no termination bound.
- `ShowLayerAsTexture`, `NoiseTerrainController.cs` and the Unity serialization and editor attributes are not modelled. They only create assets and apply maps to terrain.
- `NoiseLayerBase.cs` only declares `GetHeightMap` and `Changed`. Here it becomes the dispatch in `Layers.Eval` and `LayerGraph.Arena.GetHeightMap`.
