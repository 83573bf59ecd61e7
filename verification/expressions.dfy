/** The zoom-stop expressions handed to the renderer:
    `['interpolate', ['linear'], ['zoom'], z0, v0, z1, v1, ...]`. */
module Expressions {
  import opened JsValues

  /** One zoom stop: at `zoom`, the property takes `value`. */
  datatype Stop = Stop(zoom: real, value: real)

  const InterpolateHeader: seq<JsValue> := [Str("interpolate"), Arr([Str("linear")]), Arr([Str("zoom")])]

  /** `stops.flatMap(([zoom, value]) => [zoom, value * factor])`. */
  function FlattenScaled(stops: seq<Stop>, factor: real): (r: seq<JsValue>)
    ensures |r| == 2 * |stops|
    ensures forall i :: 0 <= i < |stops| ==>
      r[2 * i] == Num(stops[i].zoom) && r[2 * i + 1] == Num(stops[i].value * factor)
  {
    if |stops| == 0 then []
    else
      var rest := FlattenScaled(stops[1..], factor);
      var r := [Num(stops[0].zoom), Num(stops[0].value * factor)] + rest;
      assert forall i :: 0 <= i < |stops| ==>
        r[2 * i] == Num(stops[i].zoom) && r[2 * i + 1] == Num(stops[i].value * factor)
      by {
        forall i | 1 <= i < |stops|
          ensures r[2 * i] == Num(stops[i].zoom) && r[2 * i + 1] == Num(stops[i].value * factor)
        {
          var j := i - 1;
          assert stops[1..][j] == stops[i];
          assert r[2 * i] == rest[2 * j] && r[2 * i + 1] == rest[2 * j + 1];
        }
      }
      r
  }

  /** The interpolate expression over `stops`, every value multiplied by `factor`. */
  function Interpolate(stops: seq<Stop>, factor: real): (e: JsValue)
    ensures e.Arr? && |e.items| == 3 + 2 * |stops|
    ensures e.items[..3] == InterpolateHeader
    ensures e.items[3..] == FlattenScaled(stops, factor)
  {
    Arr(InterpolateHeader + FlattenScaled(stops, factor))
  }

  /** Reads the stops back out of an interpolate expression: the partner of
      `Interpolate`. */
  function StopsOf(e: JsValue): (r: Option<seq<Stop>>)
  {
    if e.Arr? && |e.items| >= 3 && e.items[..3] == InterpolateHeader && |e.items| % 2 == 1 then
      PairsOf(e.items[3..])
    else None
  }

  function PairsOf(items: seq<JsValue>): Option<seq<Stop>>
    decreases |items|
  {
    if |items| == 0 then Some([])
    else if |items| >= 2 && items[0].Num? && items[1].Num? then
      match PairsOf(items[2..])
      case None => None
      case Some(rest) => Some([Stop(items[0].n, items[1].n)] + rest)
    else None
  }

  lemma {:induction false} PairsOfFlatten(stops: seq<Stop>)
    ensures PairsOf(FlattenScaled(stops, 1.0)) == Some(stops)
  {
    if |stops| > 0 {
      var flat := FlattenScaled(stops, 1.0);
      assert flat[2..] == FlattenScaled(stops[1..], 1.0);
      PairsOfFlatten(stops[1..]);
      assert [stops[0]] + stops[1..] == stops;
    }
  }

  /** At factor 1 the expression encodes exactly the given stops. */
  lemma InterpolateRoundTrip(stops: seq<Stop>)
    ensures StopsOf(Interpolate(stops, 1.0)) == Some(stops)
  {
    PairsOfFlatten(stops);
  }
}
