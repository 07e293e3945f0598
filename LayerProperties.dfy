/**
 * What the layer graph guarantees: when the caches are used and when they
 * are bypassed, what a generation leaves saved, and that an aggregation's
 * map is the weighted average of its children's maps.
 */
module LayerProperties {
  import opened Mathf
  import opened Grids
  import opened Layers
  import VornoiNoiseGenerator

  // ---------------------------------------------------------------------
  // Change detection
  // ---------------------------------------------------------------------

  /** Node i is a noise layer or an aggregation with a noise layer somewhere below it. */
  predicate HasNoiseLayer(nodes: seq<Node>, i: nat)
    requires WellFormed(nodes) && i < |nodes|
    decreases i
  {
    match nodes[i]
    case NoiseLayer(_, _, _, _) => true
    case LayerAggregation(layers, _, _, _) =>
      AggregationFacts(nodes, i);
      exists k :: 0 <= k < |layers| && HasNoiseLayer(nodes, layers[k].layer)
  }

  /**
   * A noise layer always reports a change (NeedsFullRegeneration returns
   * true), and an aggregation asks its children; so an aggregation with a
   * noise layer below it is never served from its cache.
   */
  lemma {:induction false} NoiseBelowMeansChanged(nodes: seq<Node>, i: nat, zone: Zone)
    requires WellFormed(nodes) && i < |nodes| && HasNoiseLayer(nodes, i)
    ensures IsChanged(nodes, i, zone)
    decreases i
  {
    if nodes[i].LayerAggregation? {
      AggregationFacts(nodes, i);
      var layers := nodes[i].layers;
      var k :| 0 <= k < |layers| && HasNoiseLayer(nodes, layers[k].layer);
      NoiseBelowMeansChanged(nodes, layers[k].layer, zone);
    }
  }

  /**
   * An aggregation asked for another zone than its saved one, or one that
   * has changed, recomputes its map from a zero map and the children and
   * keeps what it computed as its saved map; when a child throws, that
   * partial map is all that changes in the node.
   */
  lemma StaleAggregationRecomputes(nodes: seq<Node>, i: nat, zone: Zone, m: Transcendental)
    requires WellFormed(nodes) && i < |nodes| && nodes[i].LayerAggregation?
    requires nodes[i].savedZone != zone || IsChanged(nodes, i, zone)
    ensures var layers := nodes[i].layers;
            var a := ApplyLayers(nodes, i, layers, 0, WeightSum(layers), zone, m, Zeros(zone), []);
            var r := EvalAggregation(nodes, i, zone, m);
            |r.nodes| == |nodes| && r.nodes[i].LayerAggregation? && r.nodes[i].savedMap == Some(a.sum) &&
            (a.error.None? ==> r.heightMap == Ok(a.sum) && r.nodes[i].savedZone == zone) &&
            (a.error.Some? ==> r.heightMap == Fail(a.error.value) &&
                               r.nodes[i] == nodes[i].(savedMap := Some(a.sum)))
  {
    var a := ApplyLayers(nodes, i, nodes[i].layers, 0, WeightSum(nodes[i].layers), zone, m, Zeros(zone), []);
    SameShapeAt(a.nodes, nodes, i);
    ApplyLayersFrame(nodes, i, nodes[i].layers, 0, WeightSum(nodes[i].layers), zone, m, Zeros(zone), []);
  }

  /** The map of an aggregation with a noise layer below it is always recomputed from the children. */
  lemma AggregationOverNoiseRecomputes(nodes: seq<Node>, i: nat, zone: Zone, m: Transcendental)
    requires WellFormed(nodes) && i < |nodes| && nodes[i].LayerAggregation? && HasNoiseLayer(nodes, i)
    ensures var layers := nodes[i].layers;
            var a := ApplyLayers(nodes, i, layers, 0, WeightSum(layers), zone, m, Zeros(zone), []);
            var r := EvalAggregation(nodes, i, zone, m);
            (a.error.None? ==> r.heightMap == Ok(a.sum)) && (a.error.Some? ==> r.heightMap == Fail(a.error.value))
  {
    NoiseBelowMeansChanged(nodes, i, zone);
    StaleAggregationRecomputes(nodes, i, zone, m);
  }

  /**
   * An unchanged aggregation asked for its saved zone returns its saved map
   * and leaves the arena as it was.
   */
  lemma CachedMapReturned(nodes: seq<Node>, i: nat, zone: Zone, m: Transcendental)
    requires WellFormed(nodes) && i < |nodes| && nodes[i].LayerAggregation?
    requires nodes[i].savedZone == zone && !IsChanged(nodes, i, zone)
    ensures nodes[i].savedMap.Some?
    ensures EvalAggregation(nodes, i, zone, m) == Outcome(nodes, Ok(nodes[i].savedMap.value))
  {
    assert nodes[i := nodes[i].(savedZone := zone)] == nodes;
  }

  /**
   * After an aggregation has returned a map, it holds that map and the zone,
   * its saved children equal its children, and it reports a change exactly
   * when one of its children does.
   */
  lemma AfterAggregationOnlyChildrenMatter(nodes: seq<Node>, i: nat, zone: Zone, m: Transcendental)
    requires WellFormed(nodes) && i < |nodes| && nodes[i].LayerAggregation?
    ensures var r := EvalAggregation(nodes, i, zone, m);
            r.heightMap.Ok? ==>
              WellFormed(r.nodes) && r.nodes[i].LayerAggregation? &&
              r.nodes[i].savedZone == zone && r.nodes[i].savedMap == Some(r.heightMap.value) &&
              |r.nodes[i].savedLayers| == |r.nodes[i].layers| &&
              (forall k :: 0 <= k < |r.nodes[i].layers| ==> r.nodes[i].layers[k].layer < i) &&
              (forall k :: 0 <= k < |r.nodes[i].layers| ==> Equals(r.nodes[i].layers[k], Some(r.nodes[i].savedLayers[k]))) &&
              (IsChanged(r.nodes, i, zone) <==>
                 exists k :: 0 <= k < |r.nodes[i].layers| && IsChanged(r.nodes, r.nodes[i].layers[k].layer, zone))
  {
    var r := EvalAggregation(nodes, i, zone, m);
    SameShapeAt(r.nodes, nodes, i);
    AggregationFacts(r.nodes, i);
    if r.heightMap.Ok? {
      var n := r.nodes[i];
      if nodes[i].savedZone == zone && !IsChanged(nodes, i, zone) {
        CachedMapReturned(nodes, i, zone, m);
        assert r.nodes == nodes;
        // Not changed: the first three tests of Changed fail.
        assert !(exists k :: 0 <= k < |n.layers| && !Equals(n.layers[k], Some(n.savedLayers[k])));
      } else {
        var a := ApplyLayers(nodes, i, nodes[i].layers, 0, WeightSum(nodes[i].layers), zone, m, Zeros(zone), []);
        SameShapeAt(a.nodes, nodes, i);
        assert n == a.nodes[i].(savedMap := Some(a.sum), savedLayers := CloneAll(a.nodes[i].layers), savedZone := zone);
      }
    }
  }

  // ---------------------------------------------------------------------
  // What a call may change
  // ---------------------------------------------------------------------

  /**
   * `GetHeightMap` on node i writes only fields of node i and of the nodes
   * it reaches through masks and children, all of which come before it:
   * every node after i is left as it was.
   */
  lemma {:induction false} EvalFrame(nodes: seq<Node>, i: nat, zone: Zone, m: Transcendental)
    requires WellFormed(nodes) && i < |nodes|
    ensures var r := Eval(nodes, i, zone, m);
            forall k :: i < k < |nodes| ==> r.nodes[k] == nodes[k]
    decreases i, 2, 0
  {
    if nodes[i].NoiseLayer? {
      EvalNoiseLayerFrame(nodes, i, zone, m);
    } else {
      EvalAggregationFrame(nodes, i, zone, m);
    }
  }

  lemma {:induction false} EvalNoiseLayerFrame(nodes: seq<Node>, i: nat, zone: Zone, m: Transcendental)
    requires WellFormed(nodes) && i < |nodes| && nodes[i].NoiseLayer?
    ensures var r := EvalNoiseLayer(nodes, i, zone, m);
            forall k :: i < k < |nodes| ==> r.nodes[k] == nodes[k]
    decreases i, 1, 0
  {
    NoiseLayerFacts(nodes, i);
    var s := nodes[i].settings;
    if s.mask.Some? && s.mask.value != i {
      EvalFrame(nodes, s.mask.value, zone, m);
    }
  }

  lemma {:induction false} EvalAggregationFrame(nodes: seq<Node>, i: nat, zone: Zone, m: Transcendental)
    requires WellFormed(nodes) && i < |nodes| && nodes[i].LayerAggregation?
    ensures var r := EvalAggregation(nodes, i, zone, m);
            forall k :: i < k < |nodes| ==> r.nodes[k] == nodes[k]
    decreases i, 1, 0
  {
    var n := nodes[i];
    if n.savedZone != zone || IsChanged(nodes, i, zone) {
      ApplyLayersFrame(nodes, i, n.layers, 0, WeightSum(n.layers), zone, m, Zeros(zone), []);
    }
  }

  /** A child's ApplyLayer changes nothing after the child. */
  lemma {:induction false} ApplyLayerFrame(nodes: seq<Node>, entry: LayerAndWeight, multiplier: real, zone: Zone,
                                           m: Transcendental, acc: HeightMap)
    requires WellFormed(nodes) && entry.layer < |nodes|
    requires acc.w == zone.x && acc.h == zone.y
    ensures var st := ApplyLayer(nodes, entry, multiplier, zone, m, acc);
            forall k :: entry.layer < k < |nodes| ==> st.nodes[k] == nodes[k]
    decreases entry.layer, 3, 0
  {
    EvalFrame(nodes, entry.layer, zone, m);
  }

  /** The children's loop of aggregation i changes nothing from node i on. */
  lemma {:induction false} ApplyLayersFrame(nodes: seq<Node>, i: nat, layers: seq<LayerAndWeight>, k: nat, weightSum: real,
                                            zone: Zone, m: Transcendental, acc: HeightMap, inputs: seq<HeightMap>)
    requires WellFormed(nodes) && i < |nodes| && nodes[i].LayerAggregation? && nodes[i].layers == layers
    requires k <= |layers| && weightSum == WeightSum(layers)
    requires acc.w == zone.x && acc.h == zone.y
    ensures var a := ApplyLayers(nodes, i, layers, k, weightSum, zone, m, acc, inputs);
            forall j :: i <= j < |nodes| ==> a.nodes[j] == nodes[j]
    decreases i, 0, |layers| - k
  {
    if k < |layers| {
      AggregationFacts(nodes, i);
      var st := ApplyLayer(nodes, layers[k], 1.0 / weightSum, zone, m, acc);
      SameShapeAt(st.nodes, nodes, i);
      ApplyLayerFrame(nodes, layers[k], 1.0 / weightSum, zone, m, acc);
      if st.layerMap.Ok? {
        ApplyLayersFrame(st.nodes, i, layers, k + 1, weightSum, zone, m, st.sum, inputs + [st.layerMap.value]);
      }
    }
  }

  // ---------------------------------------------------------------------
  // Noise layers
  // ---------------------------------------------------------------------

  /** A layer masked by itself throws before anything is generated or saved. */
  lemma SelfMaskRejected(nodes: seq<Node>, i: nat, zone: Zone, m: Transcendental)
    requires WellFormed(nodes) && i < |nodes| && nodes[i].NoiseLayer? && nodes[i].settings.mask == Some(i)
    ensures Eval(nodes, i, zone, m) == Outcome(nodes, Fail(InvalidMask))
  {
  }

  /** Without a mask, a layer returns exactly what its generator computes over the zone. */
  lemma UnmaskedLayerIsGenerated(nodes: seq<Node>, i: nat, zone: Zone, m: Transcendental)
    requires WellFormed(nodes) && i < |nodes| && nodes[i].NoiseLayer? && nodes[i].settings.mask.None?
    ensures nodes[i].settings.noiseScale != 0
    ensures Eval(nodes, i, zone, m).heightMap == Ok(Generated(nodes[i].settings, zone, m))
  {
    NoiseLayerFacts(nodes, i);
  }

  /**
   * After a layer has returned a map it holds that map, the zone and every
   * setting it was generated with: the recalculation flag is cleared, the
   * inverse no longer differs, and the comparison in NeedsFullRegeneration
   * that follows its early return would find nothing to regenerate.
   */
  lemma GenerationSaves(nodes: seq<Node>, i: nat, zone: Zone, m: Transcendental)
    requires WellFormed(nodes) && i < |nodes| && nodes[i].NoiseLayer?
    ensures var r := Eval(nodes, i, zone, m);
            r.heightMap.Ok? ==>
              var n := r.nodes[i];
              |r.nodes| == |nodes| && n.NoiseLayer? && n.settings == nodes[i].settings &&
              !n.forceRecalculate && n.generatedValues == Some(r.heightMap.value) && n.saved.zone == zone &&
              !InverseChanged(n) && !ParameterCheck(n, zone)
  {
    var r := Eval(nodes, i, zone, m);
    SameShapeAt(r.nodes, nodes, i);
  }

  /** A mask value lies in [0, 1], so masking moves a value towards zero and never past it. */
  lemma MaskShrinks(v: real, maskValue: real)
    requires 0.0 <= maskValue <= 1.0
    ensures v >= 0.0 ==> 0.0 <= Scale(v, maskValue) <= v
    ensures v <= 0.0 ==> v <= Scale(v, maskValue) <= 0.0
  {
    assert v - v * maskValue == v * (1.0 - maskValue);
  }

  /** The value range of a Voronoi layer's cells: [0.5, 1.5], or [-0.5, 0.5] when inverted. */
  predicate InVornoiRange(v: real, inverse: bool)
  {
    (!inverse ==> 0.5 <= v <= 1.5) && (inverse ==> -0.5 <= v <= 0.5)
  }

  /** The same range once masked: [0, 1.5], or [-0.5, 0.5] when inverted. */
  predicate InMaskedVornoiRange(v: real, inverse: bool)
  {
    (!inverse ==> 0.0 <= v <= 1.5) && (inverse ==> -0.5 <= v <= 0.5)
  }

  /** A masked layer's map is its generated map with ApplyMask run over the saved zone. */
  lemma MaskedResult(nodes: seq<Node>, i: nat, zone: Zone, m: Transcendental)
    requires WellFormed(nodes) && i < |nodes| && nodes[i].NoiseLayer? && nodes[i].settings.mask.Some?
    ensures nodes[i].settings.noiseScale != 0 && nodes[i].settings.mask.value <= i
    ensures var s := nodes[i].settings;
            var r := Eval(nodes, i, zone, m);
            var o := Eval(nodes, s.mask.value, zone, m);
            r.heightMap.Ok? ==>
              o.heightMap.Ok? && |o.nodes| == |nodes| && o.nodes[i].NoiseLayer? &&
              Fits(Generated(s, zone, m), o.nodes[i].saved.zone) &&
              r.heightMap.value == UpdatedGrid(Generated(s, zone, m), o.nodes[i].saved.zone, MaskUpdate(o.heightMap.value, o.nodes[i].settings))
  {
    NoiseLayerFacts(nodes, i);
    var o := Eval(nodes, nodes[i].settings.mask.value, zone, m);
    SameShapeAt(o.nodes, nodes, i);
  }

  /** Masking a map whose cells lie in the Voronoi range leaves them in the masked range. */
  lemma MaskedVornoiRange(values: HeightMap, savedZone: Zone, maskValues: HeightMap, s: NoiseSettings, inverse: bool)
    requires Fits(values, savedZone)
    requires forall x: nat, y: nat :: x < values.w && y < values.h ==> InVornoiRange(values.cells[x][y], inverse)
    ensures var r := UpdatedGrid(values, savedZone, MaskUpdate(maskValues, s));
            forall x: nat, y: nat :: x < values.w && y < values.h ==> InMaskedVornoiRange(r.cells[x][y], inverse)
  {
    var r := UpdatedGrid(values, savedZone, MaskUpdate(maskValues, s));
    forall x: nat, y: nat | x < values.w && y < values.h
      ensures InMaskedVornoiRange(r.cells[x][y], inverse)
    {
      var v := values.cells[x][y];
      assert InVornoiRange(v, inverse);
      if x < savedZone.x && y < savedZone.y && x < maskValues.w && y < maskValues.h {
        var maskValue := GetMaskValue(x, y, maskValues, s);
        assert r.cells[x][y] == Scale(v, maskValue);
        MaskShrinks(v, maskValue);
      } else {
        assert r.cells[x][y] == v;
      }
    }
  }

  /** Every cell a Voronoi generator produces lies in the Voronoi range. */
  lemma GeneratedVornoiRange(s: NoiseSettings, zone: Zone, m: Transcendental)
    requires s.noiseScale != 0 && s.noiseType == Vornoi
    ensures var g := Generated(s, zone, m);
            forall x: nat, y: nat :: x < g.w && y < g.h ==> InVornoiRange(g.cells[x][y], s.inverse)
  {
    var g := Generated(s, zone, m);
    forall x: nat, y: nat | x < g.w && y < g.h
      ensures InVornoiRange(g.cells[x][y], s.inverse)
    {
      VornoiNoiseGenerator.NoiseValueRange(x, y, VornoiLayerOf(s));
    }
  }

  /**
   * Every cell of a map a Voronoi layer returns, masked or not, lies in
   * [0, 1.5], or in [-0.5, 0.5] for an inverted layer.
   */
  lemma VornoiLayerRange(nodes: seq<Node>, i: nat, zone: Zone, m: Transcendental)
    requires WellFormed(nodes) && i < |nodes| && nodes[i].NoiseLayer? && nodes[i].settings.noiseType == Vornoi
    ensures var r := Eval(nodes, i, zone, m);
            r.heightMap.Ok? ==>
              r.heightMap.value.w == zone.x && r.heightMap.value.h == zone.y &&
              forall x: nat, y: nat :: x < zone.x && y < zone.y ==> InMaskedVornoiRange(r.heightMap.value.cells[x][y], nodes[i].settings.inverse)
  {
    NoiseLayerFacts(nodes, i);
    var s := nodes[i].settings;
    GeneratedVornoiRange(s, zone, m);
    if s.mask.Some? {
      MaskedResult(nodes, i, zone, m);
      var o := Eval(nodes, s.mask.value, zone, m);
      if Eval(nodes, i, zone, m).heightMap.Ok? {
        MaskedVornoiRange(Generated(s, zone, m), o.nodes[i].saved.zone, o.heightMap.value, o.nodes[i].settings, s.inverse);
      }
    }
  }

  /** The saved copies ParameterCheck compares do not include the multiplier, the offset or the inverse flag. */
  lemma ParameterCheckIgnores(n: Node, zone: Zone, mul: real, offset: real, inverse: bool)
    requires n.NoiseLayer?
    ensures ParameterCheck(n, zone) == ParameterCheck(n.(settings := n.settings.(mul := mul, offset := offset, inverse := inverse)), zone)
  {
  }

  /**
   * A layer just regenerated is up to date: for the same zone the comparison
   * in NeedsFullRegeneration would ask for no new generation, only for
   * another zone, and its inverse flag is current.
   */
  lemma RegeneratedIsCurrent(n: Node, values: HeightMap, zone: Zone, zone': Zone)
    requires n.NoiseLayer?
    ensures ParameterCheck(Regenerated(n, values, zone), zone') <==> zone' != zone
    ensures !InverseChanged(Regenerated(n, values, zone))
  {
  }

  /**
   * RecalculateInverse applied twice restores the map: 1 - (1 - v) = v on
   * every cell of the saved zone, and the saved flag settles on the setting.
   */
  lemma RecalculateInverseTwice(n: Node)
    requires n.NoiseLayer? && RecalculatedInverse(n).Ok?
    ensures RecalculatedInverse(RecalculatedInverse(n).value).Ok?
    ensures var twice := RecalculatedInverse(RecalculatedInverse(n).value).value;
            twice.generatedValues == n.generatedValues && twice.saved == n.saved.(inverse := n.settings.inverse)
  {
    var once := RecalculatedInverse(n).value;
    if n.generatedValues.Some? {
      var g := n.generatedValues.value;
      var zone := n.saved.zone;
      var g1 := UpdatedGrid(g, zone, Invert());
      assert once.generatedValues == Some(g1);
      var g2 := UpdatedGrid(g1, zone, Invert());
      GridExtensionality(g2, g);
    }
  }

  // ---------------------------------------------------------------------
  // Weighted average
  // ---------------------------------------------------------------------

  /** The weights the children are added with, `layerWeightMultiplier * Weight`, summed. */
  function ScaledWeightSum(layers: seq<LayerAndWeight>, multiplier: real): real
  {
    if |layers| == 0 then 0.0
    else ScaledWeightSum(layers[..|layers| - 1], multiplier) + EntryWeight(layers[|layers| - 1], multiplier)
  }

  lemma {:induction false} ScaledWeightSumFactors(layers: seq<LayerAndWeight>, multiplier: real)
    ensures ScaledWeightSum(layers, multiplier) == multiplier * WeightSum(layers)
  {
    if |layers| > 0 {
      var init, last := layers[..|layers| - 1], layers[|layers| - 1];
      ScaledWeightSumFactors(init, multiplier);
      assert multiplier * (WeightSum(init) + last.weight) == multiplier * WeightSum(init) + multiplier * last.weight;
    }
  }

  /** With multiplier `1 / weightSum` the weights of the children sum to one. */
  lemma NormalizedWeightsSumToOne(layers: seq<LayerAndWeight>)
    requires WeightSum(layers) != 0.0
    ensures ScaledWeightSum(layers, 1.0 / WeightSum(layers)) == 1.0
  {
    ScaledWeightSumFactors(layers, 1.0 / WeightSum(layers));
  }

  /** The sum over the first |inputs| children of their map at (x, y) times their weight. */
  function Contribution(inputs: seq<HeightMap>, layers: seq<LayerAndWeight>, multiplier: real, x: nat, y: nat): real
    requires |inputs| <= |layers|
  {
    if |inputs| == 0 then 0.0
    else Contribution(inputs[..|inputs| - 1], layers, multiplier, x, y)
         + Weighted(inputs[|inputs| - 1], x, y, EntryWeight(layers[|inputs| - 1], multiplier))
  }

  /** ApplyLayerAtCoordinates adds the child's weighted cell to every cell of the zone. */
  lemma AddedCell(acc: HeightMap, zone: Zone, layerMap: HeightMap, weight: real, x: nat, y: nat)
    requires acc.w == zone.x && acc.h == zone.y && x < zone.x && y < zone.y
    ensures UpdatedGrid(acc, zone, LayerUpdate(layerMap, weight)).cells[x][y] == acc.cells[x][y] + Weighted(layerMap, x, y, weight)
  {
  }

  /** Adding child |inputs| to a map holding the contribution of the first |inputs| children. */
  lemma AddedContribution(acc: HeightMap, zone: Zone, layerMap: HeightMap, inputs: seq<HeightMap>,
                          layers: seq<LayerAndWeight>, multiplier: real)
    requires acc.w == zone.x && acc.h == zone.y && |inputs| < |layers|
    requires forall x: nat, y: nat :: x < zone.x && y < zone.y ==> acc.cells[x][y] == Contribution(inputs, layers, multiplier, x, y)
    ensures var sum := UpdatedGrid(acc, zone, LayerUpdate(layerMap, EntryWeight(layers[|inputs|], multiplier)));
            forall x: nat, y: nat :: x < zone.x && y < zone.y ==> sum.cells[x][y] == Contribution(inputs + [layerMap], layers, multiplier, x, y)
  {
    var next := inputs + [layerMap];
    assert next[..|next| - 1] == inputs;
    forall x: nat, y: nat | x < zone.x && y < zone.y
      ensures UpdatedGrid(acc, zone, LayerUpdate(layerMap, EntryWeight(layers[|inputs|], multiplier))).cells[x][y]
              == Contribution(next, layers, multiplier, x, y)
    {
      AddedCell(acc, zone, layerMap, EntryWeight(layers[|inputs|], multiplier), x, y);
    }
  }

  /** A child map that ApplyLayer accepted was added with the entry's weight. */
  lemma ApplyLayerAdds(nodes: seq<Node>, entry: LayerAndWeight, multiplier: real, zone: Zone, m: Transcendental, acc: HeightMap)
    requires WellFormed(nodes) && entry.layer < |nodes|
    requires acc.w == zone.x && acc.h == zone.y
    ensures var st := ApplyLayer(nodes, entry, multiplier, zone, m, acc);
            st.layerMap.Ok? ==>
              Fits(st.layerMap.value, zone) &&
              st.sum == UpdatedGrid(acc, zone, LayerUpdate(st.layerMap.value, EntryWeight(entry, multiplier)))
  {
  }

  /**
   * From child k on, the loop adds each child's weighted map; so when it
   * completes, every cell of the zone is the weighted sum of the children's
   * maps.
   */
  lemma {:induction false} ApplyLayersSum(nodes: seq<Node>, i: nat, layers: seq<LayerAndWeight>, k: nat, weightSum: real,
                                          zone: Zone, m: Transcendental, acc: HeightMap, inputs: seq<HeightMap>)
    requires WellFormed(nodes) && i < |nodes| && nodes[i].LayerAggregation? && nodes[i].layers == layers
    requires k <= |layers| && weightSum == WeightSum(layers) && weightSum != 0.0
    requires acc.w == zone.x && acc.h == zone.y && |inputs| == k
    requires forall x: nat, y: nat :: x < zone.x && y < zone.y ==> acc.cells[x][y] == Contribution(inputs, layers, 1.0 / weightSum, x, y)
    ensures var a := ApplyLayers(nodes, i, layers, k, weightSum, zone, m, acc, inputs);
            a.error.None? ==>
              |a.inputs| == |layers| &&
              forall x: nat, y: nat :: x < zone.x && y < zone.y ==> a.sum.cells[x][y] == Contribution(a.inputs, layers, 1.0 / weightSum, x, y)
    decreases |layers| - k
  {
    if k < |layers| {
      AggregationFacts(nodes, i);
      var multiplier := 1.0 / weightSum;
      var st := ApplyLayer(nodes, layers[k], multiplier, zone, m, acc);
      SameShapeAt(st.nodes, nodes, i);
      ApplyLayerAdds(nodes, layers[k], multiplier, zone, m, acc);
      if st.layerMap.Ok? {
        var layerMap := st.layerMap.value;
        AddedContribution(acc, zone, layerMap, inputs, layers, multiplier);
        ApplyLayersSum(st.nodes, i, layers, k + 1, weightSum, zone, m, st.sum, inputs + [layerMap]);
      }
    }
  }

  /**
   * `LayerAggregation.GetHeightMap` when it recomputes: starting from a zero
   * map, each cell of the result is the sum of the children's cells times
   * `Weight / weightSum`.
   */
  lemma AggregationIsWeightedSum(nodes: seq<Node>, i: nat, zone: Zone, m: Transcendental)
    requires WellFormed(nodes) && i < |nodes| && nodes[i].LayerAggregation? && |nodes[i].layers| > 0
    ensures WeightSum(nodes[i].layers) != 0.0
    ensures var layers := nodes[i].layers;
            var a := ApplyLayers(nodes, i, layers, 0, WeightSum(layers), zone, m, Zeros(zone), []);
            a.error.None? ==>
              |a.inputs| == |layers| &&
              forall x: nat, y: nat :: x < zone.x && y < zone.y ==>
                a.sum.cells[x][y] == Contribution(a.inputs, layers, 1.0 / WeightSum(layers), x, y)
  {
    AggregationFacts(nodes, i);
    ApplyLayersSum(nodes, i, nodes[i].layers, 0, WeightSum(nodes[i].layers), zone, m, Zeros(zone), []);
  }

  /** Children that agree on a cell contribute that value times the sum of their weights. */
  lemma {:induction false} ContributionOfConstant(inputs: seq<HeightMap>, layers: seq<LayerAndWeight>, multiplier: real,
                                                  x: nat, y: nat, c: real)
    requires |inputs| <= |layers|
    requires forall j :: 0 <= j < |inputs| ==> Cell(inputs[j], x, y) == c
    ensures Contribution(inputs, layers, multiplier, x, y) == c * ScaledWeightSum(layers[..|inputs|], multiplier)
  {
    var n := |inputs|;
    if n > 0 {
      ContributionOfConstant(inputs[..n - 1], layers, multiplier, x, y, c);
      assert layers[..n][..n - 1] == layers[..n - 1];
      var w := EntryWeight(layers[n - 1], multiplier);
      assert c * (ScaledWeightSum(layers[..n - 1], multiplier) + w) == c * ScaledWeightSum(layers[..n - 1], multiplier) + c * w;
    }
  }

  /** One value at a cell of every child map, weighted by `Weight / weightSum`, sums to that value. */
  lemma NormalizedContributionOfConstant(inputs: seq<HeightMap>, layers: seq<LayerAndWeight>, x: nat, y: nat, c: real)
    requires |inputs| == |layers| && WeightSum(layers) != 0.0
    requires forall j :: 0 <= j < |inputs| ==> Cell(inputs[j], x, y) == c
    ensures Contribution(inputs, layers, 1.0 / WeightSum(layers), x, y) == c
  {
    ContributionOfConstant(inputs, layers, 1.0 / WeightSum(layers), x, y, c);
    assert layers[..|inputs|] == layers;
    NormalizedWeightsSumToOne(layers);
  }

  /**
   * The average is normalised: when every child's map has the same value at
   * a cell, the aggregation's map has that value there, whatever the weights.
   */
  lemma AgreeingChildrenGiveTheirValue(nodes: seq<Node>, i: nat, zone: Zone, m: Transcendental, x: nat, y: nat, c: real)
    requires WellFormed(nodes) && i < |nodes| && nodes[i].LayerAggregation? && |nodes[i].layers| > 0
    requires x < zone.x && y < zone.y
    ensures var layers := nodes[i].layers;
            var a := ApplyLayers(nodes, i, layers, 0, WeightSum(layers), zone, m, Zeros(zone), []);
            a.error.None? && (forall j :: 0 <= j < |a.inputs| ==> Cell(a.inputs[j], x, y) == c) ==>
              a.sum.cells[x][y] == c
  {
    var layers := nodes[i].layers;
    AggregationIsWeightedSum(nodes, i, zone, m);
    var a := ApplyLayers(nodes, i, layers, 0, WeightSum(layers), zone, m, Zeros(zone), []);
    if a.error.None? && (forall j :: 0 <= j < |a.inputs| ==> Cell(a.inputs[j], x, y) == c) {
      NormalizedContributionOfConstant(a.inputs, layers, x, y, c);
    }
  }

  /** Every child has a non-negative weight. */
  predicate NonNegativeWeights(layers: seq<LayerAndWeight>)
  {
    forall k :: 0 <= k < |layers| ==> layers[k].weight >= 0.0
  }

  lemma {:induction false} WeightSumNonNegative(layers: seq<LayerAndWeight>)
    requires NonNegativeWeights(layers)
    ensures WeightSum(layers) >= 0.0
  {
    if |layers| > 0 {
      WeightSumNonNegative(layers[..|layers| - 1]);
    }
  }

  lemma ScaleBetween(c: real, lo: real, hi: real, e: real)
    requires lo <= c <= hi && e >= 0.0
    ensures lo * e <= c * e <= hi * e
  {
    assert c * e - lo * e == (c - lo) * e;
    assert hi * e - c * e == (hi - c) * e;
  }

  /**
   * Adding a cell in [lo, hi] with weight e to a partial sum within lo and
   * hi times its weights keeps the sum within lo and hi times the new total.
   */
  lemma BoundsStep(prev: real, prevWeight: real, cell: real, e: real, lo: real, hi: real, total: real, sum: real)
    requires WithinBounds(prev, prevWeight, lo, hi) && lo <= cell <= hi && e >= 0.0
    requires total == prevWeight + e && sum == prev + cell * e
    ensures WithinBounds(sum, total, lo, hi)
  {
    ScaleBetween(cell, lo, hi, e);
    assert lo * (prevWeight + e) == lo * prevWeight + lo * e;
    assert hi * (prevWeight + e) == hi * prevWeight + hi * e;
  }

  /** v lies between lo and hi times the weight w. */
  predicate WithinBounds(v: real, w: real, lo: real, hi: real)
  {
    lo * w <= v <= hi * w
  }

  /** An empty sum with no weight lies within any bounds times that weight. */
  lemma ZeroBounds(lo: real, hi: real, total: real, sum: real)
    requires total == 0.0 && sum == 0.0
    ensures WithinBounds(sum, total, lo, hi)
  {
  }

  /** With non-negative weights, a weighted sum of cells in [lo, hi] lies in [lo, hi] times the weight sum. */
  lemma {:induction false} ContributionBounds(inputs: seq<HeightMap>, layers: seq<LayerAndWeight>, multiplier: real,
                                              x: nat, y: nat, lo: real, hi: real)
    requires |inputs| <= |layers| && multiplier >= 0.0 && NonNegativeWeights(layers)
    requires forall j :: 0 <= j < |inputs| ==> lo <= Cell(inputs[j], x, y) <= hi
    ensures WithinBounds(Contribution(inputs, layers, multiplier, x, y), ScaledWeightSum(layers[..|inputs|], multiplier), lo, hi)
  {
    var n := |inputs|;
    var total := ScaledWeightSum(layers[..n], multiplier);
    var sum := Contribution(inputs, layers, multiplier, x, y);
    if n == 0 {
      ZeroBounds(lo, hi, total, sum);
    } else {
      var prefix := inputs[..n - 1];
      ContributionBounds(prefix, layers, multiplier, x, y, lo, hi);
      assert layers[..n][..n - 1] == layers[..n - 1];
      var e := EntryWeight(layers[n - 1], multiplier);
      ScaleBetween(layers[n - 1].weight, 0.0, layers[n - 1].weight, multiplier);
      var prevWeight := ScaledWeightSum(layers[..n - 1], multiplier);
      var prev := Contribution(prefix, layers, multiplier, x, y);
      BoundsStep(prev, prevWeight, Cell(inputs[n - 1], x, y), e, lo, hi, total, sum);
    }
  }

  /**
   * With non-negative weights the aggregation's map stays within the range
   * of its children's maps: a cell where every child lies in [lo, hi] lies
   * in [lo, hi].
   */
  lemma AggregationWithinChildRange(nodes: seq<Node>, i: nat, zone: Zone, m: Transcendental, x: nat, y: nat, lo: real, hi: real)
    requires WellFormed(nodes) && i < |nodes| && nodes[i].LayerAggregation? && |nodes[i].layers| > 0
    requires NonNegativeWeights(nodes[i].layers) && x < zone.x && y < zone.y
    ensures var layers := nodes[i].layers;
            var a := ApplyLayers(nodes, i, layers, 0, WeightSum(layers), zone, m, Zeros(zone), []);
            a.error.None? && (forall j :: 0 <= j < |a.inputs| ==> lo <= Cell(a.inputs[j], x, y) <= hi) ==>
              lo <= a.sum.cells[x][y] <= hi
  {
    var layers := nodes[i].layers;
    AggregationIsWeightedSum(nodes, i, zone, m);
    var a := ApplyLayers(nodes, i, layers, 0, WeightSum(layers), zone, m, Zeros(zone), []);
    if a.error.None? && (forall j :: 0 <= j < |a.inputs| ==> lo <= Cell(a.inputs[j], x, y) <= hi) {
      NormalizedBounds(a.inputs, layers, x, y, lo, hi);
    }
  }

  /** ContributionBounds with multiplier `1 / weightSum`, where the weights sum to one. */
  lemma NormalizedBounds(inputs: seq<HeightMap>, layers: seq<LayerAndWeight>, x: nat, y: nat, lo: real, hi: real)
    requires |inputs| == |layers| && WeightSum(layers) != 0.0 && NonNegativeWeights(layers)
    requires forall j :: 0 <= j < |inputs| ==> lo <= Cell(inputs[j], x, y) <= hi
    ensures lo <= Contribution(inputs, layers, 1.0 / WeightSum(layers), x, y) <= hi
  {
    WeightSumNonNegative(layers);
    ContributionBounds(inputs, layers, 1.0 / WeightSum(layers), x, y, lo, hi);
    assert layers[..|inputs|] == layers;
    NormalizedWeightsSumToOne(layers);
  }
}
