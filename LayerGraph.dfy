/**
 * The layer nodes as mutable state: an arena whose `nodes` sequence holds
 * every `NoiseLayer` and `LayerAggregation` with its caches.
 * `GetHeightMap` updates the caches as the source does and is proved to
 * leave the arena, and return the map, that `Layers.Eval` describes. The
 * per-cell loops run in place on arrays.
 */
module LayerGraph {
  import opened Mathf
  import opened Grids
  import opened Layers
  import PerlinNoiseGenerator
  import VornoiNoiseGenerator

  /**
   * `ApplyMask(mask)`: every cell of the saved zone is multiplied by its
   * GetMaskValue. Without a single iteration nothing is read; otherwise the
   * zone must lie inside both maps, or the loop is out of range.
   */
  method ApplyMask(values: array2<real>, mask: HeightMap, savedZone: Zone, s: NoiseSettings) returns (ok: bool)
    modifies values
    ensures ok <==> Fits(old(GridOf(values)), savedZone) && Fits(mask, savedZone)
    ensures ok ==> GridOf(values) == UpdatedGrid(old(GridOf(values)), savedZone, MaskUpdate(mask, s))
    ensures !ok ==> GridOf(values) == old(GridOf(values))
  {
    if !(Fits(GridOf(values), savedZone) && Fits(mask, savedZone)) {
      return false;
    }
    UpdateZone(values, savedZone, MaskUpdate(mask, s));
    return true;
  }

  /** The `weightSum += layer.Weight` loop over the children. */
  method SumWeights(layers: seq<LayerAndWeight>) returns (weightSum: real)
    ensures weightSum == WeightSum(layers)
  {
    weightSum := 0.0;
    var k := 0;
    while k < |layers|
      invariant 0 <= k <= |layers|
      invariant weightSum == WeightSum(layers[..k])
    {
      assert layers[..k + 1][..k] == layers[..k];
      weightSum := weightSum + layers[k].weight;
      k := k + 1;
    }
    assert layers[..k] == layers;
  }

  class Arena {
    var nodes: seq<Node>

    constructor(nodes: seq<Node>)
      ensures this.nodes == nodes
    {
      this.nodes := nodes;
    }

    /** `GetHeightMap(zone)` on node i, dispatched on the node's class. */
    method GetHeightMap(i: nat, zone: Zone, m: Transcendental) returns (heightMap: Result<HeightMap>)
      requires WellFormed(nodes) && i < |nodes|
      modifies this
      ensures Outcome(nodes, heightMap) == Eval(old(nodes), i, zone, m)
      decreases i, 2, 0
    {
      if nodes[i].NoiseLayer? {
        heightMap := NoiseLayerGetHeightMap(i, zone, m);
      } else {
        heightMap := AggregationGetHeightMap(i, zone, m);
      }
    }

    /**
     * `NoiseLayer.GetHeightMap`: NeedsFullRegeneration returns true, so this
     * is always GenerateZone (the RecalculateInverse branch is never taken).
     */
    method NoiseLayerGetHeightMap(i: nat, zone: Zone, m: Transcendental) returns (heightMap: Result<HeightMap>)
      requires WellFormed(nodes) && i < |nodes| && nodes[i].NoiseLayer?
      modifies this
      ensures Outcome(nodes, heightMap) == EvalNoiseLayer(old(nodes), i, zone, m)
      decreases i, 1, 0
    {
      NoiseLayerFacts(nodes, i);
      var s := nodes[i].settings;
      if s.mask == Some(i) {
        return Fail(InvalidMask);
      }
      var values: array2<real>;
      match s.noiseType {
        case Perlin => values := PerlinNoiseGenerator.GenerateZone(zone, PerlinLayerOf(s), m);
        case Vornoi => values := VornoiNoiseGenerator.GenerateZone(zone, VornoiLayerOf(s));
      }
      if s.mask.Some? {
        var maskValues := GetHeightMap(s.mask.value, zone, m);
        SameShapeAt(old(nodes), nodes, i);
        if maskValues.Fail? {
          nodes := nodes[i := nodes[i].(generatedValues := Some(GridOf(values)))];
          return maskValues;
        }
        var ok := ApplyMask(values, maskValues.value, nodes[i].saved.zone, nodes[i].settings);
        if !ok {
          nodes := nodes[i := nodes[i].(generatedValues := Some(GridOf(values)))];
          return Fail(IndexOutOfRange);
        }
      }
      nodes := nodes[i := Regenerated(nodes[i], GridOf(values), zone)];
      return Ok(GridOf(values));
    }

    /**
     * `LayerAndWeigth.ApplyLayer`: the child computes its map, which is added
     * into `heightMap` with weight `layerWeightMultiplier * Weight` over the
     * zone. Returns the child's map, or the exception that stopped it.
     */
    method ApplyLayer(entry: LayerAndWeight, heightMap: array2<real>, layerWeightMultiplier: real, zone: Zone, m: Transcendental)
      returns (layerMap: Result<HeightMap>)
      requires WellFormed(nodes) && entry.layer < |nodes|
      requires heightMap.Length0 == zone.x && heightMap.Length1 == zone.y
      modifies this, heightMap
      ensures var st := Layers.ApplyLayer(old(nodes), entry, layerWeightMultiplier, zone, m, old(GridOf(heightMap)));
              nodes == st.nodes && layerMap == st.layerMap && GridOf(heightMap) == st.sum
      decreases entry.layer, 3, 0
    {
      layerMap := GetHeightMap(entry.layer, zone, m);
      if layerMap.Fail? {
        return;
      }
      if !Fits(layerMap.value, zone) {
        return Fail(IndexOutOfRange);
      }
      var weight := EntryWeight(entry, layerWeightMultiplier);
      UpdateZone(heightMap, zone, LayerUpdate(layerMap.value, weight));
    }

    /** `LayerAggregation.GetHeightMap`. */
    method AggregationGetHeightMap(i: nat, zone: Zone, m: Transcendental) returns (heightMap: Result<HeightMap>)
      requires WellFormed(nodes) && i < |nodes| && nodes[i].LayerAggregation?
      modifies this
      ensures Outcome(nodes, heightMap) == EvalAggregation(old(nodes), i, zone, m)
      decreases i, 1, 0
    {
      AggregationFacts(nodes, i);
      var layers := nodes[i].layers;
      var regenerate := nodes[i].savedZone != zone;
      if !regenerate {
        regenerate := Changed(i, zone);
      }
      if !regenerate {
        var cached := nodes[i].savedMap.value;
        nodes := nodes[i := nodes[i].(savedZone := zone)];
        return Ok(cached);
      }
      var weightSum := SumWeights(layers);
      var savedMap := new real[zone.x, zone.y]((x, y) => 0.0);
      GridExtensionality(GridOf(savedMap), Zeros(zone));
      var error := AccumulateLayers(i, layers, weightSum, zone, m, savedMap);
      SameShapeAt(old(nodes), nodes, i);
      if error.Some? {
        nodes := nodes[i := nodes[i].(savedMap := Some(GridOf(savedMap)))];
        return Fail(error.value);
      }
      nodes := nodes[i := nodes[i].(savedMap := Some(GridOf(savedMap)), savedLayers := CloneAll(nodes[i].layers), savedZone := zone)];
      return Ok(GridOf(savedMap));
    }

    /**
     * The loop `foreach (var layer in m_layers) layer.ApplyLayer(...)` of
     * aggregation i, adding every child's map into `heightMap` with weight
     * `1 / weightSum * Weight`; it stops at the first exception.
     */
    method AccumulateLayers(i: nat, layers: seq<LayerAndWeight>, weightSum: real, zone: Zone, m: Transcendental, heightMap: array2<real>)
      returns (error: Option<Error>)
      requires WellFormed(nodes) && i < |nodes| && nodes[i].LayerAggregation? && nodes[i].layers == layers
      requires weightSum == WeightSum(layers)
      requires heightMap.Length0 == zone.x && heightMap.Length1 == zone.y
      modifies this, heightMap
      ensures var a := ApplyLayers(old(nodes), i, layers, 0, weightSum, zone, m, old(GridOf(heightMap)), []);
              nodes == a.nodes && GridOf(heightMap) == a.sum && error == a.error
      decreases i, 0, 0
    {
      AggregationFacts(nodes, i);
      ghost var nodes0, sum0 := nodes, GridOf(heightMap);
      ghost var inputs: seq<HeightMap> := [];
      var k := 0;
      while k < |layers|
        invariant 0 <= k <= |layers|
        invariant WellFormed(nodes) && Shapes(nodes) == Shapes(nodes0)
        invariant nodes[i].LayerAggregation? && nodes[i].layers == layers
        invariant ApplyLayers(nodes0, i, layers, 0, weightSum, zone, m, sum0, [])
               == ApplyLayers(nodes, i, layers, k, weightSum, zone, m, GridOf(heightMap), inputs)
      {
        var layerMap := ApplyLayer(layers[k], heightMap, 1.0 / weightSum, zone, m);
        SameShapeAt(nodes0, nodes, i);
        if layerMap.Fail? {
          return Some(layerMap.error);
        }
        inputs := inputs + [layerMap.value];
        k := k + 1;
      }
      return None;
    }

    /**
     * `Changed(zone)` with its early returns: a noise layer always reports a
     * change; an aggregation compares its children with the saved ones, then
     * asks each child in turn.
     */
    method Changed(i: nat, zone: Zone) returns (changed: bool)
      requires WellFormed(nodes) && i < |nodes|
      ensures changed == IsChanged(nodes, i, zone)
      decreases i
    {
      if nodes[i].NoiseLayer? {
        var inverseChanged := InverseChanged(nodes[i]);
        return NeedsFullRegeneration(nodes[i], zone) || inverseChanged;
      }
      AggregationFacts(nodes, i);
      var layers, savedLayers := nodes[i].layers, nodes[i].savedLayers;
      if nodes[i].savedMap.None? {
        return true;
      }
      if |layers| != |savedLayers| {
        return true;
      }
      var k := 0;
      while k < |layers|
        invariant 0 <= k <= |layers|
        invariant forall j :: 0 <= j < k ==> Equals(layers[j], Some(savedLayers[j]))
      {
        if !Equals(layers[k], Some(savedLayers[k])) {
          return true;
        }
        k := k + 1;
      }
      k := 0;
      while k < |layers|
        invariant 0 <= k <= |layers|
        invariant forall j :: 0 <= j < k ==> !IsChanged(nodes, layers[j].layer, zone)
      {
        var childChanged := Changed(layers[k].layer, zone);
        if childChanged {
          return true;
        }
        k := k + 1;
      }
      return false;
    }

    /**
     * `RecalculateInverse` on node i: the layer's map is flipped in place over
     * the saved zone and the saved inverse flag is updated. The map is cached
     * as a value, so the loop runs on an array loaded from it.
     */
    method RecalculateInverse(i: nat) returns (error: Option<Error>)
      requires i < |nodes| && nodes[i].NoiseLayer?
      modifies this
      ensures RecalculatedInverse(old(nodes[i])).Ok? ==>
                error.None? && nodes == old(nodes)[i := RecalculatedInverse(old(nodes[i])).value]
      ensures RecalculatedInverse(old(nodes[i])).Fail? ==>
                error == Some(RecalculatedInverse(old(nodes[i])).error) && nodes == old(nodes)
    {
      var n := nodes[i];
      var zone := n.saved.zone;
      var saved := n.saved.(inverse := n.settings.inverse);
      if n.generatedValues.None? {
        if zone.x == 0 || zone.y == 0 {
          nodes := nodes[i := n.(saved := saved)];
          return None;
        }
        return Some(NullReference);
      }
      if !Fits(n.generatedValues.value, zone) {
        return Some(IndexOutOfRange);
      }
      var values := Load(n.generatedValues.value);
      UpdateZone(values, zone, Invert());
      nodes := nodes[i := n.(generatedValues := Some(GridOf(values)), saved := saved)];
      return None;
    }
  }
}
