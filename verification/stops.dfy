/** The style-side expression builders: a stops object `{ "<zoom>": value, ... }` is
    parsed, filtered to finite entries, sorted by zoom and flattened into an
    `interpolate` expression; a class-weight object becomes a `match` expression. */
module Stops {
  import opened JsValues
  import opened Sorting
  import opened Expressions
  import TimeUtils

  /* ---------------------------------------------------------------------------
     Number(key)
     --------------------------------------------------------------------------- */

  function Pow10(k: nat): (p: nat)
    ensures p >= 1
  {
    if k == 0 then 1 else 10 * Pow10(k - 1)
  }

  /** The length of the longest prefix of decimal digits. */
  function DigitPrefixLength(s: string): (n: nat)
    ensures n <= |s| && TimeUtils.AllDigits(s[..n])
    ensures n < |s| ==> !TimeUtils.IsDigit(s[n])
  {
    if |s| == 0 || !TimeUtils.IsDigit(s[0]) then 0
    else
      var n := 1 + DigitPrefixLength(s[1..]);
      assert s[..n] == [s[0]] + s[1..][..n - 1];
      n
  }

  /** An unsigned decimal literal: digits, optionally a point and more digits, with
      at least one digit in all. */
  function ParseUnsigned(s: string): (r: Option<real>)
    ensures TimeUtils.AllDigits(s) && s != "" ==> r == Some(TimeUtils.ParseDigits(s) as real)
    ensures r.Some? ==> r.value >= 0.0
  {
    var n := DigitPrefixLength(s);
    var whole := TimeUtils.ParseDigits(s[..n]) as real;
    var rest := s[n..];
    if rest == "" then
      if n > 0 then assert s[..n] == s; Some(whole) else None
    else if rest[0] == '.' && TimeUtils.AllDigits(rest[1..]) && (n > 0 || |rest| > 1) then
      Some(whole + TimeUtils.ParseDigits(rest[1..]) as real / Pow10(|rest| - 1) as real)
    else None
  }

  /** `Number(key)` for the keys a stops object uses: "" is 0, an optionally signed
      decimal literal is its value, anything else is NaN. */
  function ParseNumber(key: string): (v: JsValue)
    ensures v.Num? || v.NaN?
    ensures key == "" ==> v == Num(0.0)
  {
    if key == "" then Num(0.0)
    else
      var neg := key[0] == '-';
      var body := if key[0] == '-' || key[0] == '+' then key[1..] else key;
      match ParseUnsigned(body)
      case None => NaN
      case Some(x) => Num(if neg then -x else x)
  }

  /** `Number(String(n))` is `n` for every integer. */
  lemma ParseNumberOfInt(n: int)
    ensures ParseNumber(TimeUtils.IntString(n)) == Num(n as real)
  {
    var s := TimeUtils.IntString(n);
    if n < 0 {
      assert s[1..] == TimeUtils.Digits(-n);
    }
  }

  /* ---------------------------------------------------------------------------
     buildStopsArray
     --------------------------------------------------------------------------- */

  function StopZoom(s: Stop): real {
    s.zoom
  }

  /** An entry survives the `Number.isFinite` filter when its key parses to a number
      and its value is a number; NaN and non-numbers fail it. */
  function StopOf(e: (string, JsValue)): (r: Option<Stop>)
    ensures r.Some? <==> ParseNumber(e.0).Num? && e.1.Num?
    ensures r.Some? ==> r.value == Stop(ParseNumber(e.0).n, e.1.n)
  {
    var z := ParseNumber(e.0);
    if z.Num? && e.1.Num? then Some(Stop(z.n, e.1.n)) else None
  }

  /** The surviving entries, in `Object.keys` order. */
  function ValidStops(entries: Entries): (r: seq<Stop>)
    ensures |r| <= |entries|
    ensures forall s :: s in r <==> exists i :: 0 <= i < |entries| && StopOf(entries[i]) == Some(s)
  {
    if |entries| == 0 then []
    else
      var rest := ValidStops(entries[1..]);
      assert forall s :: (exists i :: 0 <= i < |entries| && StopOf(entries[i]) == Some(s)) <==>
        StopOf(entries[0]) == Some(s) || exists i :: 0 <= i < |entries[1..]| && StopOf(entries[1..][i]) == Some(s)
      by {
        forall s ensures (exists i :: 0 <= i < |entries| && StopOf(entries[i]) == Some(s)) ==>
          StopOf(entries[0]) == Some(s) || exists i :: 0 <= i < |entries[1..]| && StopOf(entries[1..][i]) == Some(s)
        {
          if i :| 0 <= i < |entries| && StopOf(entries[i]) == Some(s) {
            if i > 0 { assert StopOf(entries[1..][i - 1]) == Some(s); }
          }
        }
      }
      match StopOf(entries[0])
      case Some(s) => [s] + rest
      case None => rest
  }

  /** `buildStopsArray`: the finite entries sorted by zoom (stably); empty for a
      missing object. */
  function BuildStopsArray(obj: Option<Entries>): (r: seq<Stop>)
    ensures obj.None? ==> r == []
    ensures SortedBy(r, StopZoom)
    ensures obj.Some? ==> multiset(r) == multiset(ValidStops(obj.value))
    ensures obj.Some? ==> forall s :: s in r <==> exists i :: 0 <= i < |obj.value| && StopOf(obj.value[i]) == Some(s)
  {
    match obj
    case None => []
    case Some(entries) =>
      var r := SortBy(ValidStops(entries), StopZoom);
      assert forall s :: s in r <==> s in ValidStops(entries) by {
        forall s ensures s in r <==> s in ValidStops(entries) {
          SameElements(ValidStops(entries), StopZoom, s);
        }
      }
      r
  }

  /* ---------------------------------------------------------------------------
     buildInterpolateExpression, buildScaledStopsExpression, buildScaleExpression
     --------------------------------------------------------------------------- */

  /** The expression for already sorted stops: null for none, the bare value of a
      single stop, otherwise an interpolate expression that reads back as the stops. */
  function StopsExpression(stops: seq<Stop>): (e: JsValue)
    ensures |stops| == 0 ==> e == Null
    ensures |stops| == 1 ==> e == Num(stops[0].value)
    ensures |stops| >= 2 ==> e.Arr? && |e.items| == 3 + 2 * |stops| && e.items[..3] == InterpolateHeader
    ensures |stops| >= 2 ==> StopsOf(e) == Some(stops)
  {
    if |stops| == 0 then Null
    else if |stops| == 1 then Num(stops[0].value)
    else
      InterpolateRoundTrip(stops);
      Interpolate(stops, 1.0)
  }

  /** `buildInterpolateExpression`: null without valid stops, the bare value of a
      single stop, otherwise an interpolate expression that reads back as the stops
      sorted by zoom. */
  function BuildInterpolateExpression(obj: Option<Entries>): (e: JsValue)
    ensures var stops := BuildStopsArray(obj);
      && (|stops| == 0 ==> e == Null)
      && (|stops| == 1 ==> e == Num(stops[0].value))
      && (|stops| >= 2 ==> e.Arr? && |e.items| == 3 + 2 * |stops| && e.items[..3] == InterpolateHeader)
      && (|stops| >= 2 ==> StopsOf(e) == Some(stops))
  {
    var stops := BuildStopsArray(obj);
    if obj.None? then Null else StopsExpression(stops)
  }

  /** `buildScaledStopsExpression`: zooms kept, every value times the factor; null
      for no stops and a bare scaled value for one. */
  function BuildScaledStopsExpression(stops: seq<Stop>, factor: real): (e: JsValue)
    ensures |stops| == 0 ==> e == Null
    ensures |stops| == 1 ==> e == Num(stops[0].value * factor)
    ensures |stops| >= 2 ==> e.Arr? && |e.items| == 3 + 2 * |stops| && e.items[..3] == InterpolateHeader
    ensures |stops| >= 2 ==> forall i :: 0 <= i < |stops| ==>
      e.items[3 + 2 * i] == Num(stops[i].zoom) && e.items[4 + 2 * i] == Num(stops[i].value * factor)
  {
    if |stops| == 0 then Null
    else if |stops| == 1 then Num(stops[0].value * factor)
    else
      var e := Interpolate(stops, factor);
      var flat := FlattenScaled(stops, factor);
      assert forall i :: 0 <= i < |stops| ==>
        e.items[3 + 2 * i] == flat[2 * i] && e.items[4 + 2 * i] == flat[2 * i + 1];
      e
  }

  /** At factor 1 the scaled builder and the plain builder agree on any stops object. */
  lemma ScaledUnitFactor(o: Entries)
    ensures BuildScaledStopsExpression(BuildStopsArray(Some(o)), 1.0) == BuildInterpolateExpression(Some(o))
  {
  }

  function Abs(x: real): real {
    if x < 0.0 then -x else x
  }

  /** Every value within 1e-6 of 1. */
  predicate AllOnes(stops: seq<Stop>) {
    forall i :: 0 <= i < |stops| ==> Abs(stops[i].value - 1.0) < 0.000001
  }

  /** `buildScaleExpression`: null when there is nothing to scale by (no stops, or
      every value is 1 within 1e-6); otherwise the interpolate expression. */
  function BuildScaleExpression(obj: Option<Entries>): (e: JsValue)
    ensures AllOnes(BuildStopsArray(obj)) ==> e == Null
    ensures !AllOnes(BuildStopsArray(obj)) ==> e == BuildInterpolateExpression(obj) && e != Null
  {
    var stops := BuildStopsArray(obj);
    if obj.None? || |stops| == 0 then Null
    else if forall i :: 0 <= i < |stops| ==> Abs(stops[i].value - 1.0) < 0.000001 then Null
    else BuildInterpolateExpression(obj)
  }

  /* ---------------------------------------------------------------------------
     buildWeightClassExpression
     --------------------------------------------------------------------------- */

  predicate Reserved(k: string) {
    k == "__default" || k == "__base"
  }

  /** The ordinary class entries, in key order. */
  function ClassEntries(classes: Entries): (r: Entries)
    ensures |r| <= |classes|
    ensures forall x :: x in r <==> x in classes && !Reserved(x.0)
  {
    if |classes| == 0 then []
    else
      var rest := ClassEntries(classes[1..]);
      assert forall x :: x in classes <==> x == classes[0] || x in classes[1..];
      if Reserved(classes[0].0) then rest else [classes[0]] + rest
  }

  /** Ordinary entries followed by reserved ones: the ordinary entries are kept as
      they are, in their order, and the reserved ones dropped. */
  lemma {:induction false} OrdinaryThenReserved(ordinary: Entries, reserved: Entries)
    requires forall i :: 0 <= i < |ordinary| ==> !Reserved(ordinary[i].0)
    requires forall i :: 0 <= i < |reserved| ==> Reserved(reserved[i].0)
    ensures ClassEntries(ordinary + reserved) == ordinary
  {
    if |ordinary| == 0 {
      var r := ClassEntries(reserved);
      if |r| > 0 {
        assert r[0] in reserved;
      }
      assert ordinary + reserved == reserved;
    } else {
      assert (ordinary + reserved)[1..] == ordinary[1..] + reserved;
      OrdinaryThenReserved(ordinary[1..], reserved);
    }
  }

  /** `key, classes[key]` for each ordinary key; for a key of the object,
      `classes[key]` is its own entry's value. */
  function Arms(entries: Entries): (r: seq<JsValue>)
    ensures |r| == 2 * |entries|
    ensures forall i :: 0 <= i < |entries| ==> r[2 * i] == Str(entries[i].0) && r[2 * i + 1] == entries[i].1
  {
    if |entries| == 0 then []
    else
      var rest := Arms(entries[1..]);
      var r := [Str(entries[0].0), entries[0].1] + rest;
      assert forall i :: 0 <= i < |entries| ==> r[2 * i] == Str(entries[i].0) && r[2 * i + 1] == entries[i].1
      by {
        forall i | 1 <= i < |entries|
          ensures r[2 * i] == Str(entries[i].0) && r[2 * i + 1] == entries[i].1
        {
          var j := i - 1;
          assert entries[1..][j] == entries[i];
          assert r[2 * i] == rest[2 * j] && r[2 * i + 1] == rest[2 * j + 1];
        }
      }
      r
  }

  const MatchHeader: seq<JsValue> := [Str("match"), Arr([Str("get"), Str("class")])]

  /** A match expression over the given arms and default. */
  function MatchExpression(arms: Entries, default: JsValue): (e: JsValue)
    ensures e.Arr? && |e.items| == 3 + 2 * |arms|
    ensures e.items[..2] == MatchHeader && e.items[|e.items| - 1] == default
    ensures forall i :: 0 <= i < |arms| ==> e.items[2 + 2 * i] == Str(arms[i].0) && e.items[3 + 2 * i] == arms[i].1
  {
    var a := Arms(arms);
    var items := MatchHeader + a + [default];
    assert forall i :: 0 <= i < |arms| ==> items[2 + 2 * i] == a[2 * i] && items[3 + 2 * i] == a[2 * i + 1];
    Arr(items)
  }

  /** `buildWeightClassExpression`: without ordinary keys, `__base`, else `__default`,
      else 1; otherwise a match over the ordinary keys in order, whose default is
      `__default ?? 1`. */
  function BuildWeightClassExpression(classes: Entries): (e: JsValue)
    requires DistinctKeys(classes)
    ensures ClassEntries(classes) == [] && !Get(classes, "__base").Undefined? ==> e == Get(classes, "__base")
    ensures ClassEntries(classes) == [] && Get(classes, "__base").Undefined? && !Get(classes, "__default").Undefined? ==>
      e == Get(classes, "__default")
    ensures ClassEntries(classes) == [] && Get(classes, "__base").Undefined? && Get(classes, "__default").Undefined? ==>
      e == Num(1.0)
    ensures ClassEntries(classes) != [] ==>
      e == MatchExpression(ClassEntries(classes), Coalesce(Get(classes, "__default"), Num(1.0)))
  {
    var arms := ClassEntries(classes);
    if |arms| == 0 then
      if !Get(classes, "__base").Undefined? then Get(classes, "__base")
      else if !Get(classes, "__default").Undefined? then Get(classes, "__default")
      else Num(1.0)
    else MatchExpression(arms, Coalesce(Get(classes, "__default"), Num(1.0)))
  }

  /** The arms of a match are exactly the object's ordinary entries: no reserved key
      becomes an arm, and every ordinary entry does. */
  lemma WeightClassArms(classes: Entries)
    requires DistinctKeys(classes) && ClassEntries(classes) != []
    ensures var e := BuildWeightClassExpression(classes);
      && (forall i :: 0 <= i < |ClassEntries(classes)| ==> e.items[2 + 2 * i].Str? && !Reserved(e.items[2 + 2 * i].s))
      && (forall x :: x in classes && !Reserved(x.0) ==>
            exists i :: 0 <= i < |ClassEntries(classes)| && e.items[2 + 2 * i] == Str(x.0) && e.items[3 + 2 * i] == x.1)
  {
    var arms := ClassEntries(classes);
    var e := BuildWeightClassExpression(classes);
    forall i | 0 <= i < |arms| ensures e.items[2 + 2 * i].Str? && !Reserved(e.items[2 + 2 * i].s) {
      assert arms[i] in arms;
    }
    forall x | x in classes && !Reserved(x.0)
      ensures exists i :: 0 <= i < |arms| && e.items[2 + 2 * i] == Str(x.0) && e.items[3 + 2 * i] == x.1
    {
      assert x in arms;
      var i :| 0 <= i < |arms| && arms[i] == x;
      assert e.items[2 + 2 * i] == Str(x.0) && e.items[3 + 2 * i] == x.1;
    }
  }

  /** An object whose every value is 1 scales by nothing, whatever its keys; in
      particular the heat-map presets' weight stops `{0: 1, 15: 1}`. */
  lemma UnitWeightStops(o: Entries)
    requires forall j :: 0 <= j < |o| ==> o[j].1 == Num(1.0)
    ensures BuildScaleExpression(Some(o)) == Null
  {
    var stops := BuildStopsArray(Some(o));
    forall i | 0 <= i < |stops| ensures stops[i].value == 1.0 {
      assert stops[i] in stops;
      var j :| 0 <= j < |o| && StopOf(o[j]) == Some(stops[i]);
    }
  }

  /** A class object holding only `__base` gives that base weight. */
  lemma BaseOnlyClasses()
    ensures BuildWeightClassExpression([("__base", Num(0.7))]) == Num(0.7)
  {
    assert ClassEntries([("__base", Num(0.7))]) == [];
  }
}
