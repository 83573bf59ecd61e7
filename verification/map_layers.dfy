/** The expression builders of the layer set-up, which take an explicit fallback
    where the style-side builders of the controls return null or 1. */
module MapLayers {
  import opened JsValues
  import opened Expressions
  import opened Stops
  import NightLights

  /** `buildStopsExpression(stopsObj, fallback)`: the fallback for a missing object
      or when no finite entry survives, the bare value of a single stop, otherwise an
      interpolate expression that reads back as the stops sorted by zoom. */
  function BuildStopsExpression(obj: Option<Entries>, fallback: JsValue): (e: JsValue)
    ensures obj.None? ==> e == fallback
    ensures var stops := BuildStopsArray(obj);
      && (|stops| == 0 ==> e == fallback)
      && (|stops| == 1 ==> e == Num(stops[0].value))
      && (|stops| >= 2 ==> e.Arr? && |e.items| == 3 + 2 * |stops| && e.items[..3] == InterpolateHeader)
      && (|stops| >= 2 ==> StopsOf(e) == Some(stops))
  {
    if obj.None? then fallback
    else
      var stops := BuildStopsArray(obj);
      if |stops| == 0 then fallback else StopsExpression(stops)
  }

  /** With at least one valid stop the two builders agree; without one, the layer
      builder gives its fallback where the control builder gives null. */
  lemma StopsBuildersAgree(obj: Option<Entries>, fallback: JsValue)
    ensures |BuildStopsArray(obj)| > 0 ==> BuildStopsExpression(obj, fallback) == BuildInterpolateExpression(obj)
    ensures |BuildStopsArray(obj)| == 0 ==>
      BuildStopsExpression(obj, fallback) == fallback && BuildInterpolateExpression(obj) == Null
  {
  }

  /** The interpolate expression of two or more sorted stops is the night-light zoom
      expression at scale 1. */
  lemma SameInterpolateShape(stops: seq<Stop>)
    requires |stops| >= 2
    ensures StopsExpression(stops) == NightLights.BuildZoomExpression(stops, 1.0)
    ensures StopsExpression(stops) == BuildScaledStopsExpression(stops, 1.0)
  {
  }

  /** `buildWeightExpression(classes, fallback)`: the fallback for a missing object;
      without ordinary keys `__base` if defined, else the fallback (`__default` is
      not consulted); otherwise a match over the ordinary keys in order whose default
      is `__default ?? fallback ?? 1`. */
  function BuildWeightExpression(classes: Option<Entries>, fallback: JsValue): (e: JsValue)
    requires classes.Some? ==> DistinctKeys(classes.value)
    ensures classes.None? ==> e == fallback
    ensures classes.Some? && ClassEntries(classes.value) == [] ==>
      e == (if Get(classes.value, "__base").Undefined? then fallback else Get(classes.value, "__base"))
    ensures classes.Some? && ClassEntries(classes.value) != [] ==>
      e == MatchExpression(ClassEntries(classes.value),
                           Coalesce(Coalesce(Get(classes.value, "__default"), fallback), Num(1.0)))
  {
    match classes
    case None => fallback
    case Some(c) =>
      var arms := ClassEntries(c);
      if |arms| == 0 then
        if !Get(c, "__base").Undefined? then Get(c, "__base") else fallback
      else MatchExpression(arms, Coalesce(Coalesce(Get(c, "__default"), fallback), Num(1.0)))
  }

  /** The two weight builders agree whenever there are ordinary class keys and the
      fallback is nullish, and whenever `__base` is defined; they part ways on an
      object holding `__default` but neither ordinary keys nor `__base`. */
  lemma WeightBuildersCompared(c: Entries, fallback: JsValue)
    requires DistinctKeys(c)
    ensures ClassEntries(c) != [] && Nullish(fallback) ==>
      BuildWeightExpression(Some(c), fallback) == BuildWeightClassExpression(c)
    ensures ClassEntries(c) == [] && !Get(c, "__base").Undefined? ==>
      BuildWeightExpression(Some(c), fallback) == BuildWeightClassExpression(c)
    ensures ClassEntries(c) == [] && Get(c, "__base").Undefined? && !Get(c, "__default").Undefined? ==>
      BuildWeightExpression(Some(c), fallback) == fallback && BuildWeightClassExpression(c) == Get(c, "__default")
  {
  }

  /** The residential and buildings presets, `{__base: 0.7}` with fallback 0.7 and
      `{__base: 0.9}` with fallback 0.9, give their base weight. */
  lemma BasePresetWeights()
    ensures BuildWeightExpression(Some([("__base", Num(0.7))]), Num(0.7)) == Num(0.7)
    ensures BuildWeightExpression(Some([("__base", Num(0.9))]), Num(0.9)) == Num(0.9)
  {
    assert ClassEntries([("__base", Num(0.7))]) == [];
    assert ClassEntries([("__base", Num(0.9))]) == [];
  }

  /** The roads preset's weight classes: four ordinary classes, then the default. */
  const RoadArms: Entries := [
    ("motorway", Num(1.4)), ("trunk", Num(1.2)), ("primary", Num(1.0)), ("secondary", Num(0.8))]
  const RoadClasses: Entries := RoadArms + [("__default", Num(0.5))]

  lemma RoadClassesDistinct()
    ensures DistinctKeys(RoadClasses)
  {
  }

  lemma RoadClassArms()
    ensures ClassEntries(RoadClasses) == RoadArms
  {
    OrdinaryThenReserved(RoadArms, [("__default", Num(0.5))]);
  }

  lemma RoadClassDefault()
    ensures Get(RoadClasses, "__default") == Num(0.5)
  {
    RoadClassesDistinct();
    assert RoadClasses[4] == ("__default", Num(0.5));
  }

  /** The roads preset gives a match over its four classes, in their listed order,
      whose default is the preset's own `__default` of 0.5, whatever the fallback. */
  lemma RoadsPresetWeight(fallback: JsValue)
    ensures DistinctKeys(RoadClasses)
    ensures BuildWeightExpression(Some(RoadClasses), fallback) == MatchExpression(RoadArms, Num(0.5))
  {
    RoadClassesDistinct();
    RoadClassArms();
    RoadClassDefault();
  }
}
