/** Night-light opacity: the light intensity of the sky gives a night factor, which
    scales the opacity curves of the heat-map and detail layers; a small
    configuration state holds the user's scales and the last map and intensity seen. */
module NightLights {
  import opened JsValues
  import opened Numeric
  import opened Expressions

  const HeatmapLayers: seq<string> := [
    "urban-heatmap-residential", "urban-heatmap-roads", "urban-heatmap-buildings"]

  const DetailLayers: seq<string> := [
    "night-residential-glow-outer", "night-residential-glow", "night-residential-core",
    "night-motorways-glow-outer", "night-motorways-glow", "night-motorways-core",
    "night-roads-glow-outer", "night-roads-glow", "night-roads-core"]

  const HeatmapStops: seq<Stop> := [
    Stop(0.0, 0.9), Stop(3.0, 0.9), Stop(6.0, 0.6), Stop(8.0, 0.3), Stop(10.0, 0.0)]

  const DetailStops: seq<Stop> := [
    Stop(7.0, 0.0), Stop(9.0, 0.3), Stop(12.0, 0.8), Stop(15.0, 0.95)]

  /** `buildZoomExpression(stops, scale)`: the zooms are kept and every value is
      multiplied by the scale. */
  function BuildZoomExpression(stops: seq<Stop>, scale: real): (e: JsValue)
    ensures e.Arr? && |e.items| == 3 + 2 * |stops|
    ensures e.items[..3] == InterpolateHeader
    ensures forall i :: 0 <= i < |stops| ==>
      e.items[3 + 2 * i] == Num(stops[i].zoom) && e.items[4 + 2 * i] == Num(stops[i].value * scale)
  {
    var e := Interpolate(stops, scale);
    assert forall i :: 0 <= i < |stops| ==>
      e.items[3 + 2 * i] == Num(stops[i].zoom) && e.items[4 + 2 * i] == Num(stops[i].value * scale)
    by {
      var flat := FlattenScaled(stops, scale);
      forall i | 0 <= i < |stops|
        ensures e.items[3 + 2 * i] == Num(stops[i].zoom) && e.items[4 + 2 * i] == Num(stops[i].value * scale)
      {
        assert e.items[3 + 2 * i] == flat[2 * i] && e.items[4 + 2 * i] == flat[2 * i + 1];
      }
    }
    e
  }

  /** At scale 1 the expression reads back as exactly the given stops. */
  lemma ZoomExpressionUnitScale(stops: seq<Stop>)
    ensures StopsOf(BuildZoomExpression(stops, 1.0)) == Some(stops)
  {
    InterpolateRoundTrip(stops);
  }

  /** `clamp01(1.3 - lightIntensity * 2.5)`: full night up to intensity 0.12, no
      night from 0.52 on. */
  function NightFactor(intensity: real): (f: real)
    ensures 0.0 <= f <= 1.0
    ensures intensity <= 0.12 ==> f == 1.0
    ensures intensity >= 0.52 ==> f == 0.0
    ensures 0.12 <= intensity <= 0.52 ==> f == 1.3 - 2.5 * intensity
  {
    Clamp01(1.3 - intensity * 2.5)
  }

  /** The night factor never rises with the light intensity. */
  lemma NightFactorMonotone(i: real, j: real)
    requires i <= j
    ensures NightFactor(j) <= NightFactor(i)
  {
    Clamp01Monotone(1.3 - j * 2.5, 1.3 - i * 2.5);
  }

  /** `coreFactorForLayer`: "outer" is tested before "glow". */
  function CoreFactor(id: string): (f: real)
    ensures Contains(id, "outer") ==> f == 0.2
    ensures !Contains(id, "outer") && Contains(id, "glow") ==> f == 0.45
    ensures !Contains(id, "outer") && !Contains(id, "glow") ==> f == 0.75
    ensures 0.2 <= f <= 0.75
  {
    if Includes(id, "outer") then 0.2
    else if Includes(id, "glow") then 0.45
    else 0.75
  }

  /** Residential layers are fills, every other detail layer is a line. */
  function OpacityProperty(id: string): (p: string)
    ensures p == "fill-opacity" <==> Contains(id, "residential")
    ensures p == "line-opacity" <==> !Contains(id, "residential")
  {
    if Includes(id, "residential") then "fill-opacity" else "line-opacity"
  }

  /** The map as the night lights see it: the ids of the layers it has. */
  datatype MapView = MapView(layers: set<string>)

  /** One `setPaintProperty(layer, prop, value)` call. */
  datatype PaintWrite = PaintWrite(layer: string, prop: string, value: JsValue)

  /** The module state: the two global scales, the per-layer overrides, and the last
      map and intensity passed to `updateNightLights`. */
  datatype NightState = NightState(
    heatmapScale: real,
    detailScale: real,
    overrides: map<string, real>,
    lastMap: Option<MapView>,
    lastIntensity: Option<real>)

  /** Every scale is non-negative. */
  predicate Valid(s: NightState) {
    s.heatmapScale >= 0.0 && s.detailScale >= 0.0 && forall k :: k in s.overrides ==> s.overrides[k] >= 0.0
  }

  /** The state at load time: scales 1, one override of 1 per detail layer, nothing
      recorded. */
  function Initial(): (s: NightState)
    ensures Valid(s)
    ensures s.overrides.Keys == set id | id in DetailLayers
    ensures s.lastMap.None? && s.lastIntensity.None?
  {
    NightState(1.0, 1.0, map id | id in DetailLayers :: 1.0, None, None)
  }

  /** `clamp01(nightFactor * heatmapScale)`. */
  function ScaledHeatmap(s: NightState, intensity: real): (x: real)
    ensures 0.0 <= x <= 1.0
    ensures s.heatmapScale == 1.0 ==> x == NightFactor(intensity)
  {
    ClampedProduct(NightFactor(intensity), s.heatmapScale)
  }

  /** `clamp01(nightFactor * detailScale)`. */
  function ScaledDetail(s: NightState, intensity: real): (x: real)
    ensures 0.0 <= x <= 1.0
    ensures s.detailScale == 1.0 ==> x == NightFactor(intensity)
  {
    ClampedProduct(NightFactor(intensity), s.detailScale)
  }

  /** With a non-negative scale, brighter sky never brightens the heat map. */
  lemma ScaledHeatmapMonotone(s: NightState, i: real, j: real)
    requires s.heatmapScale >= 0.0 && i <= j
    ensures ScaledHeatmap(s, j) <= ScaledHeatmap(s, i)
  {
    NightFactorMonotone(i, j);
    ClampedProductMonotone(NightFactor(j), NightFactor(i), s.heatmapScale);
  }

  /** `layerDetailOverrides[layerId] ?? 1`. */
  function Override(s: NightState, id: string): (v: real)
    ensures id in s.overrides ==> v == s.overrides[id]
    ensures id !in s.overrides ==> v == 1.0
  {
    if id in s.overrides then s.overrides[id] else 1.0
  }

  /** `scaledDetail * coreFactorForLayer(id) * override`. */
  function LayerScale(s: NightState, intensity: real, id: string): (x: real)
    ensures Valid(s) ==> x >= 0.0
  {
    var d := ScaledDetail(s, intensity);
    var c := CoreFactor(id);
    var o := Override(s, id);
    MulNonneg(d, c);
    var dc := d * c;
    if Valid(s) then MulNonneg(dc, o); dc * o else dc * o
  }

  function HeatmapWrite(s: NightState, intensity: real, id: string): PaintWrite {
    PaintWrite(id, "heatmap-opacity", BuildZoomExpression(HeatmapStops, ScaledHeatmap(s, intensity)))
  }

  function DetailWrite(s: NightState, intensity: real, id: string): PaintWrite {
    PaintWrite(id, OpacityProperty(id), BuildZoomExpression(DetailStops, LayerScale(s, intensity, id)))
  }

  /** The writes for the layers of `ids` that the map has, in order. */
  function WritesFor(ids: seq<string>, m: MapView, write: string -> PaintWrite): (w: seq<PaintWrite>)
    ensures |w| <= |ids|
    ensures forall x :: x in w ==> exists id :: id in ids && id in m.layers && x == write(id)
    ensures forall id :: id in ids && id in m.layers ==> write(id) in w
  {
    if |ids| == 0 then []
    else
      var rest := WritesFor(ids[1..], m, write);
      assert forall id :: id in ids <==> id == ids[0] || id in ids[1..];
      if ids[0] in m.layers then [write(ids[0])] + rest else rest
  }

  /** `applyNightLights`: the heat-map layers first, then the detail layers, each
      only when the map has it. */
  function ApplyNightLights(s: NightState, m: MapView, intensity: real): (w: seq<PaintWrite>)
    ensures |w| <= |HeatmapLayers| + |DetailLayers|
    ensures forall id :: id in HeatmapLayers && id in m.layers ==> HeatmapWrite(s, intensity, id) in w
    ensures forall id :: id in DetailLayers && id in m.layers ==> DetailWrite(s, intensity, id) in w
    ensures forall x :: x in w ==> x.layer in m.layers && (x.layer in HeatmapLayers || x.layer in DetailLayers)
  {
    WritesFor(HeatmapLayers, m, id => HeatmapWrite(s, intensity, id))
      + WritesFor(DetailLayers, m, id => DetailWrite(s, intensity, id))
  }

  /** Scaling stops whose values lie in [0, hi] by a factor in [0, 1] keeps every
      value of the expression in [0, hi]. */
  lemma ScaledValuesWithin(stops: seq<Stop>, scale: real, hi: real)
    requires forall i :: 0 <= i < |stops| ==> 0.0 <= stops[i].value <= hi
    requires 0.0 <= scale <= 1.0
    ensures var e := BuildZoomExpression(stops, scale);
      forall i :: 0 <= i < |stops| ==> e.items[4 + 2 * i].Num? && 0.0 <= e.items[4 + 2 * i].n <= hi
  {
    var e := BuildZoomExpression(stops, scale);
    forall i | 0 <= i < |stops|
      ensures e.items[4 + 2 * i].Num? && 0.0 <= e.items[4 + 2 * i].n <= hi
    {
      var v := stops[i].value;
      assert e.items[4 + 2 * i] == Num(v * scale);
      assert 0.0 <= v * scale <= hi by {
        MulNonneg(v, scale);
        MulMonotone(v, scale, 1.0);
      }
    }
  }

  /** Scaling stops with non-negative values by a non-negative factor keeps every
      value of the expression non-negative. */
  lemma ScaledValuesNonneg(stops: seq<Stop>, scale: real)
    requires forall i :: 0 <= i < |stops| ==> 0.0 <= stops[i].value
    requires 0.0 <= scale
    ensures var e := BuildZoomExpression(stops, scale);
      forall i :: 0 <= i < |stops| ==> e.items[4 + 2 * i].Num? && 0.0 <= e.items[4 + 2 * i].n
  {
    var e := BuildZoomExpression(stops, scale);
    forall i | 0 <= i < |stops|
      ensures e.items[4 + 2 * i].Num? && 0.0 <= e.items[4 + 2 * i].n
    {
      assert e.items[4 + 2 * i] == Num(stops[i].value * scale);
      assert 0.0 <= stops[i].value * scale by { MulNonneg(stops[i].value, scale); }
    }
  }

  /** Every heat-map write carries opacities within the curve's own range [0, 0.9],
      and in a valid state every detail write carries non-negative ones. */
  lemma WrittenOpacities(s: NightState, intensity: real, id: string)
    requires Valid(s)
    ensures var e := HeatmapWrite(s, intensity, id).value;
      forall i :: 0 <= i < |HeatmapStops| ==> e.items[4 + 2 * i].Num? && 0.0 <= e.items[4 + 2 * i].n <= 0.9
    ensures var e := DetailWrite(s, intensity, id).value;
      forall i :: 0 <= i < |DetailStops| ==> e.items[4 + 2 * i].Num? && e.items[4 + 2 * i].n >= 0.0
  {
    ScaledValuesWithin(HeatmapStops, ScaledHeatmap(s, intensity), 0.9);
    ScaledValuesNonneg(DetailStops, LayerScale(s, intensity, id));
  }

  /** `updateNightLights(map, lightIntensity)`: with no map nothing happens; otherwise
      the map and intensity are recorded and the lights applied. */
  function UpdateNightLights(s: NightState, m: Option<MapView>, intensity: real): (r: (NightState, seq<PaintWrite>))
    ensures m.None? ==> r.0 == s && r.1 == []
    ensures m.Some? ==> r.0.lastMap == m && r.0.lastIntensity == Some(intensity)
    ensures m.Some? ==> r.1 == ApplyNightLights(s, m.value, intensity)
    ensures r.0.heatmapScale == s.heatmapScale && r.0.detailScale == s.detailScale && r.0.overrides == s.overrides
    ensures Valid(s) ==> Valid(r.0)
  {
    match m
    case None => (s, [])
    case Some(view) => (s.(lastMap := m, lastIntensity := Some(intensity)), ApplyNightLights(s, view, intensity))
  }

  /** The last value the entries give for `id`, if any. */
  function LastFor(entries: seq<(string, real)>, id: string): Option<real> {
    if |entries| == 0 then None
    else if entries[|entries| - 1].0 == id then Some(entries[|entries| - 1].1)
    else LastFor(entries[..|entries| - 1], id)
  }

  /** The `Object.entries(layerScales).forEach` loop: known ids take `max(0, value)`,
      later entries overwriting earlier ones; unknown ids are ignored. */
  function ApplyOverrides(overrides: map<string, real>, entries: seq<(string, real)>): (r: map<string, real>)
    ensures r.Keys == overrides.Keys
    ensures forall id :: id in r ==>
      r[id] == match LastFor(entries, id) case None => overrides[id] case Some(v) => Max(0.0, v)
    decreases |entries|
  {
    if |entries| == 0 then overrides
    else
      var init := entries[..|entries| - 1];
      var (id, v) := entries[|entries| - 1];
      var before := ApplyOverrides(overrides, init);
      if id in before then before[id := Max(0.0, v)] else before
  }

  /** `setNightLightScales({heatmap, detail, layerScales})`: a given number replaces a
      global scale by its non-negative part; the lights are re-applied, and the writes
      returned, only once a map and an intensity have been recorded. */
  function SetNightLightScales(
    s: NightState, heatmap: Option<real>, detail: Option<real>, layerScales: Option<seq<(string, real)>>)
    : (r: (NightState, Option<seq<PaintWrite>>))
    ensures r.0.heatmapScale == (if heatmap.Some? then Max(0.0, heatmap.value) else s.heatmapScale)
    ensures r.0.detailScale == (if detail.Some? then Max(0.0, detail.value) else s.detailScale)
    ensures r.0.overrides.Keys == s.overrides.Keys
    ensures layerScales.None? ==> r.0.overrides == s.overrides
    ensures layerScales.Some? ==> r.0.overrides == ApplyOverrides(s.overrides, layerScales.value)
    ensures r.0.lastMap == s.lastMap && r.0.lastIntensity == s.lastIntensity
    ensures r.1.Some? <==> s.lastMap.Some? && s.lastIntensity.Some?
    ensures r.1.Some? ==> r.1.value == ApplyNightLights(r.0, s.lastMap.value, s.lastIntensity.value)
  {
    var h := if heatmap.Some? then Max(0.0, heatmap.value) else s.heatmapScale;
    var d := if detail.Some? then Max(0.0, detail.value) else s.detailScale;
    var o := if layerScales.Some? then ApplyOverrides(s.overrides, layerScales.value) else s.overrides;
    var s' := s.(heatmapScale := h, detailScale := d, overrides := o);
    if s.lastMap.Some? && s.lastIntensity.Some? then
      (s', Some(ApplyNightLights(s', s.lastMap.value, s.lastIntensity.value)))
    else (s', None)
  }

  /** Setting scales keeps every scale non-negative, for finite real inputs. */
  lemma SetKeepsValid(s: NightState, heatmap: Option<real>, detail: Option<real>, layerScales: Option<seq<(string, real)>>)
    requires Valid(s)
    ensures Valid(SetNightLightScales(s, heatmap, detail, layerScales).0)
  {
    var s' := SetNightLightScales(s, heatmap, detail, layerScales).0;
    forall k | k in s'.overrides ensures s'.overrides[k] >= 0.0 {
      if layerScales.Some? {
        match LastFor(layerScales.value, k)
        case None =>
        case Some(v) =>
      }
    }
  }

  /** Before any map has been recorded, setting scales applies nothing; after an
      update with a map, it re-applies the lights with the recorded intensity. */
  lemma ReapplyOnlyAfterUpdate(m: MapView, intensity: real, heatmap: Option<real>, detail: Option<real>)
    ensures SetNightLightScales(Initial(), heatmap, detail, None).1.None?
    ensures var s := UpdateNightLights(Initial(), Some(m), intensity).0;
      SetNightLightScales(s, heatmap, detail, None).1 ==
        Some(ApplyNightLights(SetNightLightScales(s, heatmap, detail, None).0, m, intensity))
  {
  }
}
