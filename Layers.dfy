/**
 * The layer graph as values: `NoiseLayer` and `LayerAggregation` nodes held
 * in an arena and addressed by index, their change detection, and what one
 * `GetHeightMap` call on a node computes and leaves behind. The arena class
 * in LayerGraph is proved against `Eval`.
 *
 * A reference to another layer (`m_mask`, `LayerAndWeigth.Layer`) is the index
 * of that node. A mask index may equal the node's own index (the `m_mask ==
 * this` case the source rejects) but may not exceed it, and the children of
 * an aggregation come strictly before it: the source has no other guard
 * against cycles, and on a cycle its recursion does not terminate.
 */
module Layers {
  import opened Mathf
  import opened Grids
  import PerlinNoiseGenerator
  import VornoiNoiseGenerator

  datatype Option<T> = None | Some(value: T)

  /**
   * The exceptions a `GetHeightMap` call can end with. `IndexOutOfRange` and
   * `NullReference` are raised inside a `Parallel.For` body, which delivers
   * them to the caller wrapped in an `AggregateException`; `InvalidMask` is
   * thrown directly.
   */
  datatype Error =
    | InvalidMask       // the `ArgumentException` of a layer masked by itself
    | IndexOutOfRange   // a loop body reads or writes outside a map (arrives wrapped)
    | NullReference     // a loop body runs over a map that was never generated (arrives wrapped)

  datatype Result<T> = Ok(value: T) | Fail(error: Error)

  datatype NoiseType = Perlin | Vornoi

  /** A `Vector2` remap interval. */
  datatype Interval = Interval(x: real, y: real)

  /** The serialized settings of a `NoiseLayer`. */
  datatype NoiseSettings = NoiseSettings(
    noiseType: NoiseType,
    noiseScale: int,
    useSmootherStep: bool,
    gradientOffset: int,
    inverse: bool,
    pow: real,
    mul: real,
    offset: real,
    order: int,
    markSeams: bool,
    seamWidth: real,
    sameCellSameValue: bool,
    mask: Option<nat>,
    inverseMask: bool,
    remapInterval: Interval)

  /** The `m_saved*` copies of the settings a `NoiseLayer` was last generated with. */
  datatype Snapshot = Snapshot(
    zone: Zone,
    noiseType: NoiseType,
    noiseScale: int,
    useSmootherStep: bool,
    gradientOffset: int,
    layerWeight: real,
    inverse: bool,
    mask: Option<nat>,
    inverseMask: bool,
    remapInterval: Interval,
    order: int,
    markSeam: bool,
    seamWidth: real,
    sameCellSameValue: bool,
    pow: real)

  /** `LayerAndWeigth`: a child layer and the weight of its contribution. */
  datatype LayerAndWeight = LayerAndWeight(layer: nat, weight: real)

  datatype Node =
    | NoiseLayer(
        settings: NoiseSettings,
        forceRecalculate: bool,
        generatedValues: Option<HeightMap>,
        saved: Snapshot)
    | LayerAggregation(
        layers: seq<LayerAndWeight>,
        savedMap: Option<HeightMap>,
        savedLayers: seq<LayerAndWeight>,
        savedZone: Zone)

  /** What `GetHeightMap` never changes: the settings of a layer, the children of an aggregation. */
  datatype Shape = NoiseShape(settings: NoiseSettings) | AggregationShape(layers: seq<LayerAndWeight>)

  function ShapeOf(n: Node): Shape
  {
    match n
    case NoiseLayer(settings, _, _, _) => NoiseShape(settings)
    case LayerAggregation(layers, _, _, _) => AggregationShape(layers)
  }

  function Shapes(nodes: seq<Node>): (r: seq<Shape>)
    ensures |r| == |nodes|
  {
    seq(|nodes|, k requires 0 <= k < |nodes| => ShapeOf(nodes[k]))
  }

  /** `weightSum += layer.Weight` over the children, in order. */
  function WeightSum(layers: seq<LayerAndWeight>): real
  {
    if |layers| == 0 then 0.0 else WeightSum(layers[..|layers| - 1]) + layers[|layers| - 1].weight
  }

  /**
   * Node k refers only to nodes before it (its mask may be itself), a noise
   * scale is non-zero and the weights of a non-empty aggregation do not sum
   * to zero (both would be a float division by zero in the source).
   */
  predicate ShapeWellFormed(shapes: seq<Shape>, k: int)
    requires 0 <= k < |shapes|
  {
    match shapes[k]
    case NoiseShape(s) => s.noiseScale != 0 && (s.mask.Some? ==> s.mask.value <= k)
    case AggregationShape(layers) =>
      (forall e :: e in layers ==> e.layer < k) && (|layers| > 0 ==> WeightSum(layers) != 0.0)
  }

  predicate ShapesWellFormed(shapes: seq<Shape>)
  {
    forall k :: 0 <= k < |shapes| ==> ShapeWellFormed(shapes, k)
  }

  predicate WellFormed(nodes: seq<Node>)
  {
    ShapesWellFormed(Shapes(nodes))
  }

  lemma ShapeAt(nodes: seq<Node>, k: int)
    requires 0 <= k < |nodes|
    ensures Shapes(nodes)[k] == ShapeOf(nodes[k])
  {
  }

  /** The facts WellFormed gives about one noise layer. */
  lemma NoiseLayerFacts(nodes: seq<Node>, i: nat)
    requires WellFormed(nodes) && i < |nodes| && nodes[i].NoiseLayer?
    ensures nodes[i].settings.noiseScale != 0
    ensures nodes[i].settings.mask.Some? ==> nodes[i].settings.mask.value <= i
  {
    assert ShapeWellFormed(Shapes(nodes), i);
  }

  /** The facts WellFormed gives about one aggregation. */
  lemma AggregationFacts(nodes: seq<Node>, i: nat)
    requires WellFormed(nodes) && i < |nodes| && nodes[i].LayerAggregation?
    ensures forall k :: 0 <= k < |nodes[i].layers| ==> nodes[i].layers[k].layer < i
    ensures |nodes[i].layers| > 0 ==> WeightSum(nodes[i].layers) != 0.0
  {
    assert ShapeWellFormed(Shapes(nodes), i);
  }

  /** Replacing a node by one of the same shape keeps every shape. */
  lemma ShapesUpdate(nodes: seq<Node>, i: nat, n: Node)
    requires i < |nodes| && ShapeOf(n) == ShapeOf(nodes[i])
    ensures Shapes(nodes[i := n]) == Shapes(nodes)
  {
  }

  /** Two arenas with the same shapes have nodes of the same kind and structure at each index. */
  lemma SameShapeAt(a: seq<Node>, b: seq<Node>, i: nat)
    requires Shapes(a) == Shapes(b) && i < |a|
    ensures ShapeOf(a[i]) == ShapeOf(b[i])
  {
    ShapeAt(a, i);
    ShapeAt(b, i);
  }

  // ---------------------------------------------------------------------
  // LayerAndWeigth
  // ---------------------------------------------------------------------

  /** `LayerAndWeigth.Equals`: the same layer and the same weight; false for null. */
  function Equals(e: LayerAndWeight, obj: Option<LayerAndWeight>): (r: bool)
    ensures r <==> obj == Some(e)
  {
    obj.Some? && obj.value.layer == e.layer && obj.value.weight == e.weight
  }

  /** `LayerAndWeigth.Clone`: a copy that Equals its original. */
  function Clone(e: LayerAndWeight): (r: LayerAndWeight)
    ensures Equals(r, Some(e)) && Equals(e, Some(r))
  {
    LayerAndWeight(e.layer, e.weight)
  }

  /** `m_layers.Select(l => l.Clone()).ToArray()`. */
  function CloneAll(layers: seq<LayerAndWeight>): (r: seq<LayerAndWeight>)
    ensures |r| == |layers|
    ensures forall k :: 0 <= k < |layers| ==> Equals(layers[k], Some(r[k]))
  {
    seq(|layers|, k requires 0 <= k < |layers| => Clone(layers[k]))
  }

  /** A cell of a map, and 0 outside it (ApplyLayer never reaches such cells: it checks the zone first). */
  function Cell(g: HeightMap, x: nat, y: nat): real
  {
    if x < g.w && y < g.h then g.cells[x][y] else 0.0
  }

  /** What one child map adds to cell (x, y). */
  function Weighted(g: HeightMap, x: nat, y: nat, weight: real): real
  {
    Cell(g, x, y) * weight
  }

  /** `ApplyLayerAtCoordinates`: `heightMap[x, y] += layerMap[x, y] * weight`. */
  function LayerUpdate(layerMap: HeightMap, weight: real): (nat, nat, real) -> real
  {
    (x: nat, y: nat, v: real) => v + Weighted(layerMap, x, y, weight)
  }

  // ---------------------------------------------------------------------
  // NoiseLayer
  // ---------------------------------------------------------------------

  /** The Perlin generator's parameters built from the layer's settings (mul and offset are dropped). */
  function PerlinLayerOf(s: NoiseSettings): PerlinNoiseGenerator.PerlinNoiseLayer
  {
    PerlinNoiseGenerator.PerlinNoiseLayer(s.gradientOffset, s.noiseScale, s.useSmootherStep, s.inverse, s.pow)
  }

  /** The Voronoi generator's parameters, taken from the settings of the same names. */
  function VornoiLayerOf(s: NoiseSettings): VornoiNoiseGenerator.VornoiNoiseLayer
  {
    VornoiNoiseGenerator.VornoiNoiseLayer(s.gradientOffset, s.noiseScale, s.useSmootherStep, s.inverse)
  }

  /** The map the generator of the layer's type produces for the zone. */
  function Generated(s: NoiseSettings, zone: Zone, m: Transcendental): (g: HeightMap)
    requires s.noiseScale != 0
    ensures g.w == zone.x && g.h == zone.y
  {
    match s.noiseType
    case Perlin => Tabulate(zone, PerlinNoiseGenerator.Field(PerlinLayerOf(s), m))
    case Vornoi => Tabulate(zone, VornoiNoiseGenerator.Field(VornoiLayerOf(s)))
  }

  /**
   * `GetMaskValue`: the mask value remapped from the interval onto [0, 1]
   * and clamped, then flipped when the mask is inverted.
   */
  function GetMaskValue(x: nat, y: nat, mask: HeightMap, s: NoiseSettings): (r: real)
    requires x < mask.w && y < mask.h
    ensures 0.0 <= r <= 1.0
    ensures s.inverseMask ==> r == 1.0 - GetMaskValue(x, y, mask, s.(inverseMask := false))
    ensures !s.inverseMask && s.remapInterval.x < s.remapInterval.y ==>
              (mask.cells[x][y] <= s.remapInterval.x ==> r == 0.0) && (mask.cells[x][y] >= s.remapInterval.y ==> r == 1.0)
    decreases if s.inverseMask then 1 else 0
  {
    var maskValue := Clamp01(InverseLerp(s.remapInterval.x, s.remapInterval.y, mask.cells[x][y]));
    if s.inverseMask then 1.0 - maskValue else maskValue
  }

  /** The cell update of `ApplyMask`: `m_generatedValues[x, y] *= GetMaskValue(x, y, mask)`. */
  function MaskUpdate(mask: HeightMap, s: NoiseSettings): (nat, nat, real) -> real
  {
    (x: nat, y: nat, v: real) => if x < mask.w && y < mask.h then Scale(v, GetMaskValue(x, y, mask, s)) else v
  }

  /** `v *= factor`. */
  function Scale(v: real, factor: real): real
  {
    v * factor
  }

  /** The cell update of `RecalculateInverse`: `1 - v`. */
  function Invert(): (nat, nat, real) -> real
  {
    (x: nat, y: nat, v: real) => 1.0 - v
  }

  /**
   * `NeedsFullRegeneration` as written: its first statement returns true, so
   * it asks for a regeneration whenever the comparison after it would.
   */
  predicate NeedsFullRegeneration(n: Node, zone: Zone): (r: bool)
    requires n.NoiseLayer?
    ensures ParameterCheck(n, zone) ==> r
  {
    true
  }

  /**
   * The comparison that follows the early return in NeedsFullRegeneration
   * and is never reached: regenerate when forced, when nothing was generated
   * yet, or when the zone or a compared setting differs from its saved copy.
   */
  predicate ParameterCheck(n: Node, zone: Zone)
    requires n.NoiseLayer?
  {
    var s, saved := n.settings, n.saved;
    n.forceRecalculate || n.generatedValues.None? ||
    !(saved.zone == zone &&
      saved.noiseType == s.noiseType &&
      saved.noiseScale == s.noiseScale &&
      saved.useSmootherStep == s.useSmootherStep &&
      saved.gradientOffset == s.gradientOffset &&
      s.mask == saved.mask &&
      s.inverseMask == saved.inverseMask &&
      saved.remapInterval == s.remapInterval &&
      saved.order == s.order &&
      saved.markSeam == s.markSeams &&
      saved.seamWidth == s.seamWidth &&
      saved.sameCellSameValue == s.sameCellSameValue &&
      saved.pow == s.pow)
  }

  /** `InverseChanged`: `m_savedInverse ^ m_inverse`. */
  predicate InverseChanged(n: Node)
    requires n.NoiseLayer?
  {
    n.saved.inverse != n.settings.inverse
  }

  /** The assignments to the saved fields at the end of GenerateZone (`m_savedLayerWeight` is never written). */
  function Save(saved: Snapshot, s: NoiseSettings, zone: Zone): Snapshot
  {
    Snapshot(zone, s.noiseType, s.noiseScale, s.useSmootherStep, s.gradientOffset, saved.layerWeight,
             s.inverse, s.mask, s.inverseMask, s.remapInterval, s.order, s.markSeams, s.seamWidth,
             s.sameCellSameValue, s.pow)
  }

  /** The layer after a complete GenerateZone that produced `values`. */
  function Regenerated(n: Node, values: HeightMap, zone: Zone): (r: Node)
    requires n.NoiseLayer?
    ensures ShapeOf(r) == ShapeOf(n)
  {
    n.(forceRecalculate := false, generatedValues := Some(values), saved := Save(n.saved, n.settings, zone))
  }

  /**
   * `RecalculateInverse` on one layer: every cell of the saved zone becomes
   * 1 - v, then the saved inverse flag is brought up to date.
   */
  function RecalculatedInverse(n: Node): (r: Result<Node>)
    requires n.NoiseLayer?
    ensures r.Fail? <==> if n.generatedValues.None? then n.saved.zone.x != 0 && n.saved.zone.y != 0
                         else !Fits(n.generatedValues.value, n.saved.zone)
    ensures r.Fail? ==> r.error == if n.generatedValues.None? then NullReference else IndexOutOfRange
    ensures r.Ok? ==> r.value.NoiseLayer? &&
                      r.value == n.(generatedValues := r.value.generatedValues, saved := n.saved.(inverse := n.settings.inverse))
    ensures r.Ok? ==> ShapeOf(r.value) == ShapeOf(n) && !InverseChanged(r.value)
    ensures r.Ok? ==> (r.value.generatedValues.Some? <==> n.generatedValues.Some?)
    ensures r.Ok? && n.generatedValues.Some? ==>
              var g, g' := n.generatedValues.value, r.value.generatedValues.value;
              g'.w == g.w && g'.h == g.h &&
              forall x: nat, y: nat :: x < g.w && y < g.h ==>
                g'.cells[x][y] == if x < n.saved.zone.x && y < n.saved.zone.y then 1.0 - g.cells[x][y] else g.cells[x][y]
  {
    var zone := n.saved.zone;
    var saved := n.saved.(inverse := n.settings.inverse);
    match n.generatedValues
    case None => if zone.x == 0 || zone.y == 0 then Ok(n.(saved := saved)) else Fail(NullReference)
    case Some(g) =>
      if Fits(g, zone) then Ok(n.(generatedValues := Some(UpdatedGrid(g, zone, Invert())), saved := saved))
      else Fail(IndexOutOfRange)
  }

  // ---------------------------------------------------------------------
  // Change detection
  // ---------------------------------------------------------------------

  /**
   * `Changed(zone)`: a noise layer as NeedsFullRegeneration or
   * InverseChanged say; an aggregation when it has no map, when its list of
   * children has changed length or an entry differs from its saved copy, or
   * when a child has changed.
   */
  predicate IsChanged(nodes: seq<Node>, i: nat, zone: Zone)
    requires WellFormed(nodes) && i < |nodes|
    decreases i
  {
    match nodes[i]
    case NoiseLayer(_, _, _, _) => NeedsFullRegeneration(nodes[i], zone) || InverseChanged(nodes[i])
    case LayerAggregation(layers, savedMap, savedLayers, _) =>
      AggregationFacts(nodes, i);
      savedMap.None? || |layers| != |savedLayers| ||
      (exists k :: 0 <= k < |layers| && !Equals(layers[k], Some(savedLayers[k]))) ||
      (exists k :: 0 <= k < |layers| && IsChanged(nodes, layers[k].layer, zone))
  }

  // ---------------------------------------------------------------------
  // GetHeightMap
  // ---------------------------------------------------------------------

  /** The arena after a call, and the map returned or the exception thrown. */
  datatype Outcome = Outcome(nodes: seq<Node>, heightMap: Result<HeightMap>)

  /**
   * The state of an aggregation's `foreach ... ApplyLayer` loop: the arena,
   * the map summed so far, the child maps added to it in order, and the
   * exception that ended the loop, if any.
   */
  datatype Accumulation = Accumulation(nodes: seq<Node>, sum: HeightMap, inputs: seq<HeightMap>, error: Option<Error>)

  /** `GetHeightMap(zone)` on node i. */
  function Eval(nodes: seq<Node>, i: nat, zone: Zone, m: Transcendental): (r: Outcome)
    requires WellFormed(nodes) && i < |nodes|
    ensures Shapes(r.nodes) == Shapes(nodes)
    decreases i, 2, 0
  {
    if nodes[i].NoiseLayer? then EvalNoiseLayer(nodes, i, zone, m) else EvalAggregation(nodes, i, zone, m)
  }

  /**
   * `NoiseLayer.GetHeightMap`: NeedsFullRegeneration holds, so this is
   * GenerateZone. A layer masked by itself throws; otherwise the generator's
   * map is masked over the saved (previous) zone and the settings are saved.
   * When the mask fails, or the loop leaves a map, the generated map stays
   * in the layer and nothing is saved.
   */
  function EvalNoiseLayer(nodes: seq<Node>, i: nat, zone: Zone, m: Transcendental): (r: Outcome)
    requires WellFormed(nodes) && i < |nodes| && nodes[i].NoiseLayer?
    ensures Shapes(r.nodes) == Shapes(nodes)
    decreases i, 1, 0
  {
    NoiseLayerFacts(nodes, i);
    var s := nodes[i].settings;
    if s.mask == Some(i) then Outcome(nodes, Fail(InvalidMask))
    else
      var values := Generated(s, zone, m);
      if s.mask.None? then
        ShapesUpdate(nodes, i, Regenerated(nodes[i], values, zone));
        Outcome(nodes[i := Regenerated(nodes[i], values, zone)], Ok(values))
      else
        var o := Eval(nodes, s.mask.value, zone, m);
        SameShapeAt(o.nodes, nodes, i);
        var cur := o.nodes[i];
        ShapesUpdate(o.nodes, i, cur.(generatedValues := Some(values)));
        match o.heightMap
        case Fail(e) => Outcome(o.nodes[i := cur.(generatedValues := Some(values))], Fail(e))
        case Ok(maskValues) =>
          if Fits(values, cur.saved.zone) && Fits(maskValues, cur.saved.zone) then
            var masked := UpdatedGrid(values, cur.saved.zone, MaskUpdate(maskValues, cur.settings));
            ShapesUpdate(o.nodes, i, Regenerated(cur, masked, zone));
            Outcome(o.nodes[i := Regenerated(cur, masked, zone)], Ok(masked))
          else
            Outcome(o.nodes[i := cur.(generatedValues := Some(values))], Fail(IndexOutOfRange))
  }

  /**
   * `LayerAggregation.GetHeightMap`: when the zone differs from the saved one
   * or the node has changed, a zero map of the zone receives every child's map
   * times its weight over the weight sum, and the children are cloned into
   * the saved list; otherwise the cached map is returned. The saved zone
   * becomes the requested one unless an exception was thrown.
   */
  function EvalAggregation(nodes: seq<Node>, i: nat, zone: Zone, m: Transcendental): (r: Outcome)
    requires WellFormed(nodes) && i < |nodes| && nodes[i].LayerAggregation?
    ensures Shapes(r.nodes) == Shapes(nodes)
    decreases i, 1, 0
  {
    var n := nodes[i];
    if n.savedZone != zone || IsChanged(nodes, i, zone) then
      var a := ApplyLayers(nodes, i, n.layers, 0, WeightSum(n.layers), zone, m, Zeros(zone), []);
      SameShapeAt(a.nodes, nodes, i);
      var cur := a.nodes[i];
      if a.error.None? then
        var done := cur.(savedMap := Some(a.sum), savedLayers := CloneAll(cur.layers), savedZone := zone);
        ShapesUpdate(a.nodes, i, done);
        Outcome(a.nodes[i := done], Ok(a.sum))
      else
        ShapesUpdate(a.nodes, i, cur.(savedMap := Some(a.sum)));
        Outcome(a.nodes[i := cur.(savedMap := Some(a.sum))], Fail(a.error.value))
    else
      ShapesUpdate(nodes, i, n.(savedZone := zone));
      Outcome(nodes[i := n.(savedZone := zone)], Ok(n.savedMap.value))
  }

  /** `layerWeightMultiplier * Weight`, the weight a child's map is added with. */
  function EntryWeight(entry: LayerAndWeight, multiplier: real): real
  {
    multiplier * entry.weight
  }

  /** The arena after `LayerAndWeigth.ApplyLayer`, the child's map or exception, and the map it added into. */
  datatype Step = Step(nodes: seq<Node>, layerMap: Result<HeightMap>, sum: HeightMap)

  /**
   * `LayerAndWeigth.ApplyLayer`: the child computes its map, which is added
   * into `acc` with weight `multiplier * Weight` over the zone. The loop
   * reads outside the child's map when that map does not cover the zone.
   */
  function ApplyLayer(nodes: seq<Node>, entry: LayerAndWeight, multiplier: real, zone: Zone, m: Transcendental,
                      acc: HeightMap): (r: Step)
    requires WellFormed(nodes) && entry.layer < |nodes|
    requires acc.w == zone.x && acc.h == zone.y
    ensures Shapes(r.nodes) == Shapes(nodes)
    ensures r.sum.w == zone.x && r.sum.h == zone.y
    ensures r.layerMap.Fail? ==> r.sum == acc
    decreases entry.layer, 3, 0
  {
    var o := Eval(nodes, entry.layer, zone, m);
    match o.heightMap
    case Fail(e) => Step(o.nodes, Fail(e), acc)
    case Ok(layerMap) =>
      if Fits(layerMap, zone) then Step(o.nodes, Ok(layerMap), UpdatedGrid(acc, zone, LayerUpdate(layerMap, EntryWeight(entry, multiplier))))
      else Step(o.nodes, Fail(IndexOutOfRange), acc)
  }

  /**
   * The step runs the child's GetHeightMap: the arena is the one the child
   * leaves, and the map returned, or the exception, is the child's.
   */
  lemma ApplyLayerRunsChild(nodes: seq<Node>, entry: LayerAndWeight, multiplier: real, zone: Zone, m: Transcendental,
                            acc: HeightMap)
    requires WellFormed(nodes) && entry.layer < |nodes|
    requires acc.w == zone.x && acc.h == zone.y
    ensures var r := ApplyLayer(nodes, entry, multiplier, zone, m, acc);
            var o := Eval(nodes, entry.layer, zone, m);
            r.nodes == o.nodes && (r.layerMap.Ok? ==> r.layerMap == o.heightMap) &&
            (o.heightMap.Fail? ==> r.layerMap == o.heightMap)
  {
  }

  /**
   * The loop `foreach (var layer in m_layers) layer.ApplyLayer(...)` from
   * child k on, with multiplier `1 / weightSum`. It stops at the first
   * exception.
   */
  function ApplyLayers(nodes: seq<Node>, i: nat, layers: seq<LayerAndWeight>, k: nat, weightSum: real,
                       zone: Zone, m: Transcendental, acc: HeightMap, inputs: seq<HeightMap>): (r: Accumulation)
    requires WellFormed(nodes) && i < |nodes| && nodes[i].LayerAggregation? && nodes[i].layers == layers
    requires k <= |layers| && weightSum == WeightSum(layers)
    requires acc.w == zone.x && acc.h == zone.y
    ensures Shapes(r.nodes) == Shapes(nodes)
    ensures r.sum.w == zone.x && r.sum.h == zone.y
    decreases i, 0, |layers| - k
  {
    if k == |layers| then Accumulation(nodes, acc, inputs, None)
    else
      AggregationFacts(nodes, i);
      var st := ApplyLayer(nodes, layers[k], 1.0 / weightSum, zone, m, acc);
      SameShapeAt(st.nodes, nodes, i);
      match st.layerMap
      case Fail(e) => Accumulation(st.nodes, acc, inputs, Some(e))
      case Ok(layerMap) => ApplyLayers(st.nodes, i, layers, k + 1, weightSum, zone, m, st.sum, inputs + [layerMap])
  }
}
