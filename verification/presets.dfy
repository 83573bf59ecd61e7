/** Blending of two phase presets and the zoom curves laid over the blended sky.
    A preset is an object from attribute names to values; colours are strings,
    blend factors and intensities numbers, anything else is carried opaquely. */
module Presets {
  import opened JsValues
  import opened Numeric
  import Colors

  type Preset = map<string, JsValue>

  const ColorKeys: seq<string> :=
    ["sky-color", "horizon-color", "fog-color", "light-color", "hillshade-highlight", "hillshade-shadow"]

  const NumericKeys: seq<string> :=
    ["sky-horizon-blend", "horizon-fog-blend", "fog-ground-blend", "light-intensity"]

  /** What the blender can work with without a type error: colour keys hold strings
      (or nothing), numeric keys hold numbers (or nothing). */
  predicate WellTyped(p: Preset) {
    && (forall k :: k in p && k in ColorKeys ==> p[k].Str? || Nullish(p[k]))
    && (forall k :: k in p && k in NumericKeys ==> p[k].Num? || p[k].Undefined?)
  }

  /** `pA[key] ?? pB[key]`: this side's value, else the other side's. */
  function Side(p: Preset, q: Preset, k: string): JsValue {
    Coalesce(Lookup(p, k), Lookup(q, k))
  }

  /** A colour key is mixed when both resolved sides are truthy (non-empty strings). */
  predicate ColorMixed(pA: Preset, pB: Preset, k: string) {
    k in ColorKeys && Truthy(Side(pA, pB, k)) && Truthy(Side(pB, pA, k))
  }

  /** A numeric key is interpolated when either side defines it. */
  predicate NumericLerped(pA: Preset, pB: Preset, k: string) {
    k in NumericKeys && !Side(pA, pB, k).Undefined? && !Side(pB, pA, k).Undefined?
  }

  /** The dominating preset for keys that are not blended: A before the midpoint. */
  function Prefer(pA: Preset, pB: Preset, t: real): Preset {
    if t < 0.5 then pA else pB
  }

  function BlendedValue(pA: Preset, pB: Preset, t: real, easedT: real, k: string): JsValue
    requires WellTyped(pA) && WellTyped(pB)
  {
    if ColorMixed(pA, pB, k) then
      Str(Colors.MixHex(Side(pA, pB, k).s, Side(pB, pA, k).s, easedT))
    else if NumericLerped(pA, pB, k) then
      Num(Lerp(Side(pA, pB, k).n, Side(pB, pA, k).n, easedT))
    else
      Lookup(Prefer(pA, pB, t), k)
  }

  /** `blendPresets`: colours mixed, listed numbers interpolated with the eased
      fraction, everything else taken from the dominating side. */
  function BlendPresets(pA: Preset, pB: Preset, t: real, easedT: real): (r: Preset)
    requires WellTyped(pA) && WellTyped(pB)
    ensures r.Keys == pA.Keys + pB.Keys
    ensures forall k :: k in r && k !in ColorKeys && k !in NumericKeys ==>
      r[k] == (if t < 0.5 then Lookup(pA, k) else Lookup(pB, k))
    ensures forall k :: k in r && k in NumericKeys && k in pA && k in pB && pA[k].Num? && pB[k].Num? ==>
      r[k] == Num(Lerp(pA[k].n, pB[k].n, easedT))
    ensures forall k :: k in r && ColorMixed(pA, pB, k) ==>
      Side(pA, pB, k).Str? && Side(pB, pA, k).Str? &&
      r[k] == Str(Colors.MixHex(Side(pA, pB, k).s, Side(pB, pA, k).s, easedT))
    ensures forall k :: k in r && (k in ColorKeys || k in NumericKeys) && !ColorMixed(pA, pB, k) && !NumericLerped(pA, pB, k) ==>
      r[k] == Lookup(Prefer(pA, pB, t), k)
  {
    var r := map k | k in pA.Keys + pB.Keys :: BlendedValue(pA, pB, t, easedT, k);
    forall k | k in r {
      BlendedValueCases(pA, pB, t, easedT, k);
    }
    r
  }

  lemma BlendedValueCases(pA: Preset, pB: Preset, t: real, easedT: real, k: string)
    requires WellTyped(pA) && WellTyped(pB)
    ensures k !in ColorKeys && k !in NumericKeys ==>
      BlendedValue(pA, pB, t, easedT, k) == (if t < 0.5 then Lookup(pA, k) else Lookup(pB, k))
    ensures k in NumericKeys && k in pA && k in pB && pA[k].Num? && pB[k].Num? ==>
      BlendedValue(pA, pB, t, easedT, k) == Num(Lerp(pA[k].n, pB[k].n, easedT))
    ensures ColorMixed(pA, pB, k) ==>
      Side(pA, pB, k).Str? && Side(pB, pA, k).Str? &&
      BlendedValue(pA, pB, t, easedT, k) == Str(Colors.MixHex(Side(pA, pB, k).s, Side(pB, pA, k).s, easedT))
    ensures (k in ColorKeys || k in NumericKeys) && !ColorMixed(pA, pB, k) && !NumericLerped(pA, pB, k) ==>
      BlendedValue(pA, pB, t, easedT, k) == Lookup(Prefer(pA, pB, t), k)
  {
    if k in NumericKeys && k in pA && k in pB && pA[k].Num? && pB[k].Num? {
      assert k !in ColorKeys;
      assert Side(pA, pB, k) == pA[k] && Side(pB, pA, k) == pB[k];
    }
  }

  /** A numeric key defined on one side only passes through exactly. */
  lemma OneSidedNumber(pA: Preset, pB: Preset, t: real, easedT: real, k: string)
    requires WellTyped(pA) && WellTyped(pB)
    requires k in NumericKeys && k in pA && pA[k].Num? && Lookup(pB, k).Undefined?
    ensures BlendPresets(pA, pB, t, easedT)[k] == pA[k]
  {
    assert k !in ColorKeys;
    assert Side(pA, pB, k) == pA[k] && Side(pB, pA, k) == pA[k];
    assert BlendedValue(pA, pB, t, easedT, k) == Num(Lerp(pA[k].n, pA[k].n, easedT));
  }

  /** A colour defined on one side only passes through in its normal form, whatever
      the fractions. */
  lemma OneSidedColor(pA: Preset, pB: Preset, t: real, easedT: real, k: string)
    requires WellTyped(pA) && WellTyped(pB)
    requires k in ColorKeys && k in pA && pA[k].Str? && Colors.IsColor(pA[k].s) && Nullish(Lookup(pB, k))
    ensures BlendPresets(pA, pB, t, easedT)[k] == Str(Colors.Normalize(pA[k].s))
  {
    var a := pA[k].s;
    assert |a| >= 3 by { assert |Colors.RemoveFirst(a, '#')| <= |a|; }
    assert Side(pA, pB, k) == pA[k] && Side(pB, pA, k) == pA[k];
    assert ColorMixed(pA, pB, k);
    assert BlendedValue(pA, pB, t, easedT, k) == Str(Colors.MixHex(a, a, easedT));
    Colors.MixSelf(a, easedT);
  }

  /** A numeric key defined on B's side only passes through exactly. */
  lemma OneSidedNumberB(pA: Preset, pB: Preset, t: real, easedT: real, k: string)
    requires WellTyped(pA) && WellTyped(pB)
    requires k in NumericKeys && k in pB && pB[k].Num? && Lookup(pA, k).Undefined?
    ensures BlendPresets(pA, pB, t, easedT)[k] == pB[k]
  {
    assert k !in ColorKeys;
    assert Side(pA, pB, k) == pB[k] && Side(pB, pA, k) == pB[k];
    assert BlendedValue(pA, pB, t, easedT, k) == Num(Lerp(pB[k].n, pB[k].n, easedT));
  }

  /** A colour defined on B's side only passes through in its normal form, whatever
      the fractions. */
  lemma OneSidedColorB(pA: Preset, pB: Preset, t: real, easedT: real, k: string)
    requires WellTyped(pA) && WellTyped(pB)
    requires k in ColorKeys && k in pB && pB[k].Str? && Colors.IsColor(pB[k].s) && Nullish(Lookup(pA, k))
    ensures BlendPresets(pA, pB, t, easedT)[k] == Str(Colors.Normalize(pB[k].s))
  {
    var b := pB[k].s;
    assert |b| >= 3 by { assert |Colors.RemoveFirst(b, '#')| <= |b|; }
    assert Side(pA, pB, k) == pB[k] && Side(pB, pA, k) == pB[k];
    assert ColorMixed(pA, pB, k);
    assert BlendedValue(pA, pB, t, easedT, k) == Str(Colors.MixHex(b, b, easedT));
    Colors.MixSelf(b, easedT);
  }

  /** With both sides present, interpolated numbers stay between the two sides'
      values, and the eased fraction's end points give each side back. */
  lemma NumberBetween(pA: Preset, pB: Preset, t: real, easedT: real, k: string)
    requires WellTyped(pA) && WellTyped(pB)
    requires k in NumericKeys && k in pA && k in pB && pA[k].Num? && pB[k].Num?
    requires 0.0 <= easedT <= 1.0
    ensures BlendPresets(pA, pB, t, easedT)[k].Num?
    ensures Min(pA[k].n, pB[k].n) <= BlendPresets(pA, pB, t, easedT)[k].n <= Max(pA[k].n, pB[k].n)
    ensures easedT == 0.0 ==> BlendPresets(pA, pB, t, easedT)[k] == pA[k]
    ensures easedT == 1.0 ==> BlendPresets(pA, pB, t, easedT)[k] == pB[k]
  {
    LerpBetween(pA[k].n, pB[k].n, easedT);
  }

  /** With both sides holding valid colours, eased fraction 0 yields A's colour and 1
      yields B's, normalised. */
  lemma ColorEndpoints(pA: Preset, pB: Preset, t: real, k: string)
    requires WellTyped(pA) && WellTyped(pB)
    requires k in ColorKeys && k in pA && k in pB && pA[k].Str? && pB[k].Str?
    requires Colors.IsColor(pA[k].s) && Colors.IsColor(pB[k].s)
    ensures BlendPresets(pA, pB, t, 0.0)[k] == Str(Colors.Normalize(pA[k].s))
    ensures BlendPresets(pA, pB, t, 1.0)[k] == Str(Colors.Normalize(pB[k].s))
  {
    var a, b := pA[k].s, pB[k].s;
    assert |a| >= 3 by { assert |Colors.RemoveFirst(a, '#')| <= |a|; }
    assert |b| >= 3 by { assert |Colors.RemoveFirst(b, '#')| <= |b|; }
    assert Side(pA, pB, k) == pA[k] && Side(pB, pA, k) == pB[k];
    assert ColorMixed(pA, pB, k);
    assert BlendedValue(pA, pB, t, 0.0, k) == Str(Colors.MixHex(a, b, 0.0));
    assert BlendedValue(pA, pB, t, 1.0, k) == Str(Colors.MixHex(a, b, 1.0));
    Colors.MixEndpoints(a, b);
  }

  /* ---------------------------------------------------------------------------
     Zoom easing of the sky
     --------------------------------------------------------------------------- */

  /** `+v` on the values the sky properties can hold; strings and arrays are taken
      as NaN. */
  function ToNumber(v: JsValue): (r: JsValue)
    ensures r.Num? || r.NaN?
    ensures v.Num? ==> r == v
  {
    match v
    case Num(n) => v
    case Null => Num(0.0)
    case _ => NaN
  }

  /** `Math.max(lo, x + d)` with NaN propagation. */
  function MaxAfterShift(lo: real, v: JsValue, d: real): (r: JsValue)
    ensures r.Num? <==> ToNumber(v).Num?
    ensures r.Num? ==> r.n >= lo
  {
    var x := ToNumber(v);
    if x.Num? then Num(Max(lo, x.n + d)) else NaN
  }

  /** `Math.min(hi, x + d)` with NaN propagation. */
  function MinAfterShift(hi: real, v: JsValue, d: real): (r: JsValue)
    ensures r.Num? <==> ToNumber(v).Num?
    ensures r.Num? ==> r.n <= hi
  {
    var x := ToNumber(v);
    if x.Num? then Num(Min(hi, x.n + d)) else NaN
  }

  /** `['interpolate', ['linear'], ['zoom'], 0, v0, 6, v6, 10, v10]`. */
  function ZoomCurve(v0: JsValue, v6: JsValue, v10: JsValue): (e: JsValue)
    ensures e.Arr? && |e.items| == 9
    ensures e.items[3] == Num(0.0) && e.items[5] == Num(6.0) && e.items[7] == Num(10.0)
    ensures e.items[4] == v0 && e.items[6] == v6 && e.items[8] == v10
  {
    Arr([Str("interpolate"), Arr([Str("linear")]), Arr([Str("zoom")]),
         Num(0.0), v0, Num(6.0), v6, Num(10.0), v10])
  }

  const ZoomKeys: set<string> := {"sky-horizon-blend", "horizon-fog-blend", "fog-ground-blend"}

  /** `withZoomEasing`: the two horizon blends ease down towards zoom 10 (never below
      0.3), the ground fog ramps up from zoom 0 to zoom 10 (within [0,1]). */
  function WithZoomEasing(props: map<string, JsValue>): (r: map<string, JsValue>)
    ensures r.Keys == props.Keys + ZoomKeys
    ensures forall k :: k in props && k !in ZoomKeys ==> r[k] == props[k]
    ensures forall k :: k in r && k in ZoomKeys ==> r[k].Arr? && |r[k].items| == 9
    ensures forall k :: k in {"sky-horizon-blend", "horizon-fog-blend"} ==>
      && r[k].items[4] == Lookup(props, k) && r[k].items[6] == Lookup(props, k)
      && (r[k].items[8].Num? ==> r[k].items[8].n >= 0.3)
    ensures r["fog-ground-blend"].items[6] == Lookup(props, "fog-ground-blend")
    ensures r["fog-ground-blend"].items[4].Num? ==> r["fog-ground-blend"].items[4].n >= 0.0
    ensures r["fog-ground-blend"].items[8].Num? ==> r["fog-ground-blend"].items[8].n <= 1.0
  {
    var shb := Lookup(props, "sky-horizon-blend");
    var hfb := Lookup(props, "horizon-fog-blend");
    var fgb := Lookup(props, "fog-ground-blend");
    props[
      "sky-horizon-blend" := ZoomCurve(shb, shb, MaxAfterShift(0.3, shb, -0.2))][
      "horizon-fog-blend" := ZoomCurve(hfb, hfb, MaxAfterShift(0.3, hfb, -0.2))][
      "fog-ground-blend" := ZoomCurve(MaxAfterShift(0.0, fgb, -0.2), fgb, MinAfterShift(1.0, fgb, 0.1))]
  }

  /** The direction of each curve for a numeric base value: the horizon blends do not
      rise from zoom 6 to zoom 10 once the value is at least 0.3, and the ground fog
      does not fall across zooms 0, 6, 10. */
  lemma ZoomCurveDirections(props: map<string, JsValue>)
    ensures forall k :: k in {"sky-horizon-blend", "horizon-fog-blend"} && k in props && props[k].Num? && props[k].n >= 0.3 ==>
      WithZoomEasing(props)[k].items[8].Num? && WithZoomEasing(props)[k].items[8].n <= props[k].n
    ensures "fog-ground-blend" in props && props["fog-ground-blend"].Num? ==>
      var e := WithZoomEasing(props)["fog-ground-blend"].items;
      var x := props["fog-ground-blend"].n;
      0.0 <= x <= 1.0 ==> e[4].Num? && e[8].Num? && e[4].n <= x <= e[8].n
  {
  }
}
