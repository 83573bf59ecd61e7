/** The automatic sky: the bracketing phases of the instant are blended into one
    preset, and that preset is turned into the light, the sky, the hill-shading
    direction and the night-light update. */
module AutoSky {
  import opened JsValues
  import opened Numeric
  import opened Easing
  import opened Presets
  import opened Twilight
  import opened NightLights

  /** The preset keys handed to the sky. */
  const SkyKeys: seq<string> := [
    "sky-color", "horizon-color", "fog-color", "sky-horizon-blend", "horizon-fog-blend",
    "fog-ground-blend", "atmosphere-blend"]

  /** Every configured preset can be blended without a type error. */
  predicate AllWellTyped(options: Options) {
    forall k :: k in options ==> WellTyped(options[k])
  }

  /** `preset.transitionType || 'normal'`. A truthy value that is not a string
      compares unequal to both 'stable' and 'fast', exactly as 'normal' does. */
  function TransitionType(p: Preset): (ty: string)
    ensures Truthy(Lookup(p, "transitionType")) && Lookup(p, "transitionType").Str? ==>
      ty == Lookup(p, "transitionType").s
    ensures !Truthy(Lookup(p, "transitionType")) ==> ty == "normal"
    ensures ty != ""
  {
    var v := Or(Lookup(p, "transitionType"), Str("normal"));
    if v.Str? then v.s else "normal"
  }

  datatype AutoSkyResult = AutoSkyResult(keyA: string, keyB: string, t: real, easedT: real, blended: Preset)

  /** `computeAutoSky`: `None` when the window holds fewer than two enabled events;
      otherwise both phases are enabled, the raw and eased fractions lie in [0,1], and
      the blended preset has exactly the keys of the two phases' presets. */
  function ComputeAutoSky(t0: int, lat: real, lon: real, options: Options, getTimes: Ephemeris)
    : (r: Option<AutoSkyResult>)
    requires AllWellTyped(options)
    ensures r.None? <==> |Collect(t0, lat, lon, options, getTimes)| < 2
    ensures r.Some? ==>
      && r.value.keyA in options && r.value.keyB in options
      && 0.0 <= r.value.t <= 1.0 && 0.0 <= r.value.easedT <= 1.0
      && r.value.blended.Keys == options[r.value.keyA].Keys + options[r.value.keyB].Keys
    ensures r.Some? ==>
      r.value.blended == BlendPresets(options[r.value.keyA], options[r.value.keyB], r.value.t, r.value.easedT)
    ensures r.Some? ==>
      r.value.easedT == ApplyTransitionEasing(
        r.value.t, TransitionType(options[r.value.keyA]), TransitionType(options[r.value.keyB]))
  {
    match GetBlendingFor(t0, lat, lon, options, getTimes)
    case None => None
    case Some(blend) =>
      var pA := options[blend.a.key];
      var pB := options[blend.b.key];
      var easedT := ApplyTransitionEasing(blend.t, TransitionType(pA), TransitionType(pB));
      Some(AutoSkyResult(blend.a.key, blend.b.key, blend.t, easedT, BlendPresets(pA, pB, blend.t, easedT)))
  }

  /** Before every event of the window the sky is the first phase's preset: both
      sides are that phase, both fractions are 0, and its numbers pass through. */
  lemma AutoSkyBeforeFirst(t0: int, lat: real, lon: real, options: Options, getTimes: Ephemeris, k: string)
    requires AllWellTyped(options)
    requires |Collect(t0, lat, lon, options, getTimes)| >= 2
    requires forall e :: e in Collect(t0, lat, lon, options, getTimes) ==> t0 < e.time
    ensures var r := ComputeAutoSky(t0, lat, lon, options, getTimes).value;
      && r.keyA == r.keyB && r.t == 0.0 && r.easedT == 0.0
      && (k in NumericKeys && k in options[r.keyA] && options[r.keyA][k].Num? ==> r.blended[k] == options[r.keyA][k])
  {
    var events := Collect(t0, lat, lon, options, getTimes);
    SelectBeforeFirst(events, t0);
    var r := ComputeAutoSky(t0, lat, lon, options, getTimes).value;
    var p := options[r.keyA];
    EasingShapes(0.0, TransitionType(p), TransitionType(p));
    if k in NumericKeys && k in p && p[k].Num? {
      NumberBetween(p, p, 0.0, 0.0, k);
    }
  }

  /** JavaScript's `Math.trunc`. */
  function Trunc(x: real): (n: int)
    ensures x >= 0.0 ==> n as real <= x < n as real + 1.0
    ensures x < 0.0 ==> n as real - 1.0 < x <= n as real
  {
    if x >= 0.0 then x.Floor else -((-x).Floor)
  }

  /** JavaScript's `x % 360`: the remainder takes the sign of the dividend. */
  function Rem360(x: real): (r: real)
    ensures x >= 0.0 ==> 0.0 <= r < 360.0
    ensures x < 0.0 ==> -360.0 < r <= 0.0
    ensures 0.0 <= x < 360.0 ==> r == x
    ensures 360.0 <= x < 720.0 ==> r == x - 360.0
  {
    var q := Trunc(x / 360.0);
    assert x >= 0.0 ==> q as real * 360.0 <= x < q as real * 360.0 + 360.0;
    assert x < 0.0 ==> q as real * 360.0 - 360.0 < x <= q as real * 360.0;
    assert 0.0 <= x < 360.0 ==> q == 0;
    assert 360.0 <= x < 720.0 ==> q == 1;
    x - 360.0 * q as real
  }

  /** `latLonToLightPosition`: radial 1.5, azimuth `(180 - lon + 360) % 360`, polar
      angle `90 - lat` clamped to [0, 180]. */
  function LatLonToLightPosition(lat: real, lon: real): (p: (real, real, real))
    ensures p.0 == 1.5
    ensures 0.0 <= p.2 <= 180.0
    ensures -90.0 <= lat <= 90.0 ==> p.2 == 90.0 - lat
    ensures 540.0 - lon >= 0.0 ==> 0.0 <= p.1 < 360.0
    ensures 540.0 - lon < 0.0 ==> -360.0 < p.1 <= 0.0
    ensures -180.0 < lon <= 180.0 ==> p.1 == 180.0 - lon
  {
    var azimuth := Rem360(180.0 - lon + 360.0);
    var polar := Max(0.0, Min(180.0, 90.0 - lat));
    (1.5, azimuth, polar)
  }

  /** The light the map is given. */
  datatype Light = Light(position: (real, real, real), color: JsValue, intensity: real)

  /** Everything `applyAutoSky` hands to the map, in values. */
  datatype SkyOutput = SkyOutput(light: Light, sky: map<string, JsValue>, hillWrites: seq<PaintWrite>, nightWrites: seq<PaintWrite>)

  /** Under well-typed presets the blended light intensity is a number or absent. */
  lemma BlendedIntensity(pA: Preset, pB: Preset, t: real, easedT: real)
    requires WellTyped(pA) && WellTyped(pB)
    ensures var v := Lookup(BlendPresets(pA, pB, t, easedT), "light-intensity"); v.Num? || v.Undefined?
  {
    var k := "light-intensity";
    assert k in NumericKeys && k !in ColorKeys;
  }

  /** `blended['light-intensity'] || 0.5`, a number for well-typed presets. */
  function LightIntensity(r: AutoSkyResult, options: Options): (i: real)
    requires AllWellTyped(options)
    requires r.keyA in options && r.keyB in options
    requires r.blended == BlendPresets(options[r.keyA], options[r.keyB], r.t, r.easedT)
    ensures Lookup(r.blended, "light-intensity").Num? && Lookup(r.blended, "light-intensity").n != 0.0 ==>
      i == Lookup(r.blended, "light-intensity").n
    ensures !Lookup(r.blended, "light-intensity").Num? || Lookup(r.blended, "light-intensity").n == 0.0 ==> i == 0.5
  {
    BlendedIntensity(options[r.keyA], options[r.keyB], r.t, r.easedT);
    Or(Lookup(r.blended, "light-intensity"), Num(0.5)).n
  }

  /** The sky keys the blended preset defines. */
  function SkyProps(blended: Preset): (props: map<string, JsValue>)
    ensures forall k :: k in props <==> k in SkyKeys && k in blended && !blended[k].Undefined?
    ensures forall k :: k in props ==> props[k] == blended[k]
  {
    map k | k in SkyKeys && k in blended && !blended[k].Undefined? :: blended[k]
  }

  /** The hill-shading writes: the direction always, the two colours when truthy. */
  function HillWrites(blended: Preset, direction: real): (w: seq<PaintWrite>)
    ensures |w| >= 1 && w[0] == PaintWrite("hills", "hillshade-illumination-direction", Num(direction))
    ensures PaintWrite("hills", "hillshade-highlight-color", Lookup(blended, "hillshade-highlight")) in w
      <==> Truthy(Lookup(blended, "hillshade-highlight"))
    ensures PaintWrite("hills", "hillshade-shadow-color", Lookup(blended, "hillshade-shadow")) in w
      <==> Truthy(Lookup(blended, "hillshade-shadow"))
  {
    var hi := Lookup(blended, "hillshade-highlight");
    var sh := Lookup(blended, "hillshade-shadow");
    [PaintWrite("hills", "hillshade-illumination-direction", Num(direction))]
      + (if Truthy(hi) then [PaintWrite("hills", "hillshade-highlight-color", hi)] else [])
      + (if Truthy(sh) then [PaintWrite("hills", "hillshade-shadow-color", sh)] else [])
  }

  /** `applyAutoSky`: with a result and a map, the light is placed at the subsolar
      point (an input here) with the blended colour and intensity, the sky gets the
      defined sky keys (zoom-eased on request), the hills follow the light's azimuth
      when the map has them, and the night lights are updated with the intensity. */
  function ApplyAutoSky(
    night: NightState, m: Option<MapView>, t0: int, lat: real, lon: real, options: Options,
    getTimes: Ephemeris, zoomEasing: bool, subsolar: (real, real))
    : (r: (Option<AutoSkyResult>, NightState, Option<SkyOutput>))
    requires AllWellTyped(options)
    ensures r.0 == ComputeAutoSky(t0, lat, lon, options, getTimes)
    ensures r.2.Some? <==> r.0.Some? && m.Some?
    ensures r.2.None? ==> r.1 == night
    ensures Valid(night) ==> Valid(r.1)
    ensures r.2.Some? ==>
      var out := r.2.value;
      var blended := r.0.value.blended;
      && out.light.position == LatLonToLightPosition(subsolar.0, subsolar.1)
      && out.light.color == Or(Lookup(blended, "light-color"), Str("#ffffff"))
      && (zoomEasing ==> out.sky == WithZoomEasing(SkyProps(blended)))
      && (!zoomEasing ==> out.sky == SkyProps(blended))
      && (out.hillWrites != [] <==> "hills" in m.value.layers)
      && ("hills" in m.value.layers ==> out.hillWrites == HillWrites(blended, out.light.position.1))
      && out.light.intensity == LightIntensity(r.0.value, options)
      && r.1.lastMap == m && r.1.lastIntensity == Some(out.light.intensity)
      && out.nightWrites == ApplyNightLights(night, m.value, out.light.intensity)
  {
    var result := ComputeAutoSky(t0, lat, lon, options, getTimes);
    if result.None? || m.None? then (result, night, None)
    else
      var res := result.value;
      var blended := res.blended;
      var position := LatLonToLightPosition(subsolar.0, subsolar.1);
      var intensity := LightIntensity(res, options);
      var light := Light(position, Or(Lookup(blended, "light-color"), Str("#ffffff")), intensity);
      var props := SkyProps(blended);
      var sky := if zoomEasing then WithZoomEasing(props) else props;
      var hills := if "hills" in m.value.layers then HillWrites(blended, position.1) else [];
      var (night', writes) := UpdateNightLights(night, m, intensity);
      (result, night', Some(SkyOutput(light, sky, hills, writes)))
  }
}
