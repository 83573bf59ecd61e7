# Twilight lighting engine — a Dafny model

This project models the core of a map viewer that drives its sky, light and
night lights from the position of the sun.

**Scheduler.** The sun's phase events (nadir, dawn, sunrise, solar noon,
sunset, dusk, night, …) are taken for the previous, current and next day. The
events whose phase has a preset are merged into one timeline and sorted by
time. The model then picks the pair of events that brackets the query instant,
and the fraction of the way between them.

**Blending.** That fraction is eased according to the two phases' transition
types ("stable", "fast", anything else). The two phase presets are then
blended:
- colours are parsed from `#rgb`/`#rrggbb`, mixed per channel and written back
  as lower-case `#rrggbb`;
- the listed numeric attributes are interpolated;
- every other attribute comes from the dominating side.

**Output.** The blended preset becomes:
- the light: its position comes from the subsolar point, its colour and
  intensity from the preset;
- the sky properties, with optional zoom curves;
- the hill-shading writes;
- the night-light update.

The night lights map the light intensity to a night factor, which scales the
opacity curves of the heat-map and detail layers. A small state holds the
user's scales and the last map and intensity seen.

**Supporting helpers.**
- Moon-phase classification by threshold tables, and the longitudes of the
  decorative sun and moon markers.
- Calendar and clock helpers:
  - the Gregorian leap rule;
  - day-of-year in both directions;
  - the minutes-to-hours/minutes split of the time slider;
  - `HH:MM` and `YYYY-MM-DD` formatting.
- The zoom-stop and class-weight expression builders of the style controls and
  of the layer set-up. Each builder:
  - parses a stops object;
  - drops non-finite entries;
  - sorts the rest by zoom;
  - flattens them into an `interpolate` or `match` expression with the
    builder's own fallback rules.

**Modelling choices.**
- JavaScript values are modelled as the `JsValues.JsValue` datatype
  (undefined, null, NaN, finite numbers as reals, strings, arrays).
- Plain objects are modelled in two ways:
  - as association lists in `Object.keys` order, where order matters;
  - as maps, where it does not (presets).
- `??` and `||`, truthiness, `Math.round` (⌊x + 0.5⌋) and JavaScript's
  truncating `%` are written out explicitly.
- `Array.prototype.sort` with the comparator `a - b` is modelled as a stable
  insertion sort.
- The sun ephemeris is an abstract function parameter from an instant and a
  location to the day's event times.
- The subsolar point is an input.
- Dates are a wall-clock model: a proleptic Gregorian day plus hours and
  minutes, with no time zone.

`TimeUtils.SplitMinutes` states the split the time slider relies on: for
non-negative minutes it recombines exactly. For a negative minute count that
is not a whole hour, `Math.floor` and the truncating `%` make the pair land
one hour early. The slider never produces such values.

## Model

| member | source | states |
|---|---|---|
| `JsValues.Coalesce` | scripts/lighting.js:95-96 | `a ?? b` is `a` unless `a` is undefined or null, in which case it is `b` |
| `JsValues.Or` | scripts/lighting.js:207-208 | the logical or of `a` and `b` is `a` exactly when `a` is truthy (NaN, 0 and "" are falsy), otherwise `b` |
| `JsValues.Get` | scripts/main.js:425-426 | reading a property of an object with distinct keys gives that key's value, and undefined for a key the object lacks |
| `JsValues.Includes` | scripts/nightLights.js:55-56 | `s.includes(sub)` holds exactly when `sub` occurs at some position of `s` |
| `Numeric.Clamp01` | scripts/lighting.js:13 | the result lies in [0,1], is the input itself inside [0,1], and is the nearer bound outside |
| `Numeric.Lerp` | scripts/lighting.js:14 | interpolation gives `a` at 0, `b` at 1, and `a` whenever both ends are equal |
| `Numeric.LerpBetween` | scripts/lighting.js:14 | for a fraction in [0,1] the interpolated value stays between the two end points |
| `Numeric.Round` | scripts/lighting.js:51 | `Math.round` gives the integer `n` with `n <= x + 0.5 < n + 1`, so ties round up |
| `Numeric.ClampedProduct` | scripts/nightLights.js:62-63 | `clamp01(x * c)` lies in [0,1], is `x` for scale 1 and `x` in [0,1], and saturates at 0 and 1 |
| `Easing.FastCurve` | scripts/lighting.js:30-32 | the quadratic ease maps [0,1] into [0,1], stays below one half before the mid-point and reaches at least one half from it |
| `Easing.FastCurveMonotone` | scripts/lighting.js:31 | the quadratic ease never decreases on [0,1], across the change of formula at 0.5 included |
| `Easing.ApplyTransitionEasing` | scripts/lighting.js:16-35 | for every pair of transition types the eased fraction of a fraction in [0,1] lies in [0,1], with 0 sent to 0 and 1 to 1 |
| `Easing.EasingShapes` | scripts/lighting.js:17-34 | both stable: 0 below 0.3, 1 above 0.7, one half at 0.5. Only A stable: 0 below 0.6. Only B stable: 1 from 0.4. Stable is tested before fast (stable/fast behaves as stable/normal). Neither stable nor fast: identity. Fast curves pass through one half |
| `Easing.EasingMonotone` | scripts/lighting.js:16-35 | for every pair of types the eased fraction is monotone non-decreasing in the raw fraction on [0,1] |
| `Easing.EasingTimeReversal` | scripts/lighting.js:16-35 | swapping the two phases' types mirrors the curve: easing (A, B) at t equals one minus easing (B, A) at 1 - t |
| `Colors.ParseHex` | scripts/lighting.js:41-43 | `parseInt(s, 16)` is NaN exactly when `s` is empty or starts with a non-hex character, and two hex digits give their byte value |
| `Colors.RemoveFirst` | scripts/lighting.js:38 | `replace('#', '')` removes only the first `#`: a string without one is unchanged, and one starting with it loses exactly that character |
| `Colors.Slice` | scripts/lighting.js:42 | `slice(from, to)` never lengthens the string and is the substring when the bounds lie inside it |
| `Colors.ClampByte` | scripts/lighting.js:50-51 | a channel is written as its half-up rounding when that lies in [0,255], and as 0 or 255 when the rounding falls below or above |
| `Colors.ByteHex` | scripts/lighting.js:52-53 | a byte is written as exactly two lower-case hex digits whose value is the byte, zero-padded |
| `Colors.RgbToHex` | scripts/lighting.js:49-55 | for numeric channels the output is `#` plus six lower-case hex digits, and each digit pair reads back as that channel rounded and clamped |
| `Colors.LerpChannel` | scripts/lighting.js:61-63 | a mixed channel is a number exactly when both source channels are numbers; NaN propagates |
| `Colors.ShortFormRoundTrip` | scripts/lighting.js:40-41 | a three-digit colour parses to numeric channels and is written back with every digit doubled and lower-cased |
| `Colors.LongFormRoundTrip` | scripts/lighting.js:42-44 | a six-digit colour parses to numeric channels and is written back digit for digit, lower-cased |
| `Colors.RoundTrip` | scripts/lighting.js:37-55 | writing back a parsed colour gives its independently defined normal form (lower case, short form expanded), which is a well-formed `#rrggbb` |
| `Colors.MixSelf` | scripts/lighting.js:57-65 | mixing a colour with itself gives its normal form for every fraction, so the channel round trip does not drift |
| `Colors.MixEndpoints` | scripts/lighting.js:57-65 | mixing at fraction 0 gives the first colour and at 1 the second, both normalised |
| `Presets.BlendPresets` | scripts/lighting.js:77-112 | the blended keys are the union of both presets' keys. Keys outside the colour and numeric lists take A's value below fraction 0.5, else B's (undefined when that side lacks the key). A numeric key present on both sides is the interpolation of the two numbers at the eased fraction. A colour key whose two resolved sides (`pA[k] ?? pB[k]`, `pB[k] ?? pA[k]`) are both truthy is the `mixHex` of those strings at the eased fraction. A listed colour or numeric key that is neither mixed nor interpolated takes the preferred side's value |
| `Presets.BlendedValueCases` | scripts/lighting.js:94-109 | per key: the preferred side's value for unlisted keys and for listed keys that are neither mixed nor interpolated, the lerp of both numbers for a numeric key set on both sides, and the `mixHex` of the two resolved strings for a mixed colour key |
| `Presets.OneSidedNumber` | scripts/lighting.js:100-104 | a numeric key defined only in A passes through unchanged, whatever the fractions |
| `Presets.OneSidedColor` | scripts/lighting.js:94-98 | a valid colour defined only in A (B's value nullish) passes through in its normal form, whatever the fractions |
| `Presets.OneSidedNumberB` | scripts/lighting.js:100-104 | a numeric key defined only in B passes through unchanged, whatever the fractions |
| `Presets.OneSidedColorB` | scripts/lighting.js:94-98 | a valid colour defined only in B (A's value nullish) passes through in its normal form, whatever the fractions |
| `Presets.NumberBetween` | scripts/lighting.js:100-104 | with both sides numeric and an eased fraction in [0,1], the blend lies between the two values and is A's at 0 and B's at 1 |
| `Presets.ColorEndpoints` | scripts/lighting.js:94-98 | with valid colours on both sides, eased fraction 0 yields A's normalised colour and 1 yields B's |
| `Presets.ToNumber` | scripts/lighting.js:126 | the numeric coercion in `props[k] - 0.2` leaves a number alone and otherwise gives a number or NaN |
| `Presets.MaxAfterShift` | scripts/lighting.js:126 | `Math.max(lo, x + d)` is a number exactly when the coerced input is one, and then it is at least `lo` |
| `Presets.MinAfterShift` | scripts/lighting.js:148 | `Math.min(hi, x + d)` is a number exactly when the coerced input is one, and then it is at most `hi` |
| `Presets.ZoomCurve` | scripts/lighting.js:117-127 | a zoom curve is a nine-element interpolate expression with stops at zooms 0, 6 and 10 carrying the three given values |
| `Presets.WithZoomEasing` | scripts/lighting.js:114-151 | only the three blend keys change and are added, every other property is untouched. The horizon blends keep their value at zooms 0 and 6 and are at least 0.3 at zoom 10. The ground fog keeps its value at zoom 6, is at least 0 at zoom 0 and at most 1 at zoom 10 |
| `Presets.ZoomCurveDirections` | scripts/lighting.js:117-149 | a horizon blend of at least 0.3 does not rise towards zoom 10; a ground-fog value in [0,1] does not fall across zooms 0, 6, 10 |
| `Sorting.SortBy` | scripts/main.js:455 | the sort by a numeric key yields an ascending sequence holding the same elements with the same multiplicities |
| `Twilight.DayPhases` | scripts/lighting.js:178-184 | a day contributes exactly the events whose key is in the phase order, has a preset, and occurs that day, at the reported time |
| `Twilight.Timeline` | scripts/lighting.js:172-187 | the merged timeline is sorted by time and is a permutation of the events pushed for days -1, 0 and +1 |
| `Twilight.FindAfter` | scripts/lighting.js:190 | `findIndex(time > t0)` is the first event strictly after the instant, or -1 when every event is at or before it |
| `Twilight.Bracket` | scripts/lighting.js:190-194 | the chosen indices are in range and in order: B's index is the first event after the instant (else the last), and A is the one before it (or B itself at 0) |
| `Twilight.Choose` | scripts/lighting.js:190-198 | on a sorted timeline the pair comes from the timeline, A is no later than B, and the fraction lies in [0,1] |
| `Twilight.ChooseBeforeFirst` | scripts/lighting.js:190-196 | before the first event both sides are the first event and the fraction is 0 |
| `Twilight.ChooseAfterLast` | scripts/lighting.js:190-196 | strictly after the last event the fraction is 1 |
| `Twilight.ChooseInterior` | scripts/lighting.js:190-196 | inside the timeline A is the latest event at or before the instant and B the earliest one after it, so `a.time <= t0 < b.time`, and the fraction is `(t0 - a.time) / (b.time - a.time)`, the elapsed share of the gap (the `max(1, …)` span and the clamp do not change it there) |
| `Twilight.Select` | scripts/lighting.js:187-198 | null exactly for fewer than two events; otherwise both events of the pair are among the inputs, in time order, with a fraction in [0,1] |
| `Twilight.SelectBeforeFirst` | scripts/lighting.js:190-196 | before every event the fraction is 0 and the pair degenerates to one event |
| `Twilight.SelectAfterLast` | scripts/lighting.js:190-196 | after every event the fraction is 1 |
| `Twilight.SelectInterior` | scripts/lighting.js:190-196 | between two events A is the latest event not after the instant and B the earliest after it, for any arrival order of the events, with the fraction `(t0 - a.time) / (b.time - a.time)` |
| `Twilight.GetBlendingFor` | scripts/lighting.js:153-199 | null exactly when fewer than two enabled events occur over the three days; otherwise both events are enabled events of the window, A is no later than B, and the fraction lies in [0,1] |
| `Twilight.GetBlendingInterior` | scripts/lighting.js:153-199 | when the three-day window holds an event at or before the instant and one after it, the result is non-null, A and B bracket the instant as the latest and earliest such events, and the fraction is `(t0 - a.time) / (b.time - a.time)` |
| `AutoSky.TransitionType` | scripts/lighting.js:207-208 | a truthy string `transitionType` is used as is, a falsy one gives "normal", and the type is never empty |
| `AutoSky.ComputeAutoSky` | scripts/lighting.js:201-218 | null exactly when the window holds fewer than two enabled events. Otherwise both phase keys are configured, both fractions lie in [0,1], and the eased fraction is the easing for the two presets' types. The blended preset is the two phases' presets blended at those fractions, and has exactly the union of their keys |
| `AutoSky.AutoSkyBeforeFirst` | scripts/lighting.js:201-218 | before every event both sides are the first phase, both fractions are 0, and that phase's numeric attributes come through unchanged |
| `AutoSky.Trunc` | scripts/lighting.js:286 | truncation towards zero lies within one unit of the input, on the input's side of zero |
| `AutoSky.Rem360` | scripts/lighting.js:286 | `x % 360` has the sign of `x` and magnitude below 360, is `x` on [0,360) and `x - 360` on [360,720) |
| `AutoSky.LatLonToLightPosition` | scripts/lighting.js:285-290 | the radial part is 1.5. The polar angle lies in [0,180] and is `90 - lat` for a latitude. The azimuth lies in [0,360) whenever `540 - lon >= 0`, in (-360,0] otherwise, and is `180 - lon` for a longitude in (-180,180] |
| `AutoSky.BlendedIntensity` | scripts/lighting.js:229 | for well-typed presets the blended light intensity is a number or absent |
| `AutoSky.LightIntensity` | scripts/lighting.js:229 | the light intensity is the blended number when it is non-zero, else 0.5 |
| `AutoSky.SkyProps` | scripts/lighting.js:231-235 | the sky gets exactly the sky keys the blended preset defines, with their blended values |
| `AutoSky.HillWrites` | scripts/lighting.js:248-265 | the illumination direction is always written first; the highlight and shadow colours are written exactly when they are truthy |
| `AutoSky.ApplyAutoSky` | scripts/lighting.js:220-271 | the result is that of the sky computation. Output happens exactly when there is a result and a map, and without output the state is unchanged. The light sits at the subsolar point with the blended colour or white. The sky gets the defined sky keys, zoom-eased on request. The light intensity is `blended['light-intensity'] || 0.5`. Hills are written exactly when the map has them, and then the writes are the direction (the light's azimuth) and the truthy hill colours. The night lights record the map and intensity and are applied with them. Valid scales stay valid |
| `Celestial.Find` | scripts/celestial.js:115 | `find(x < bound)` gives the first row whose bound exceeds the input, or -1 when none does |
| `Celestial.FindInterval` | scripts/celestial.js:115 | in an increasing table row i is chosen exactly for inputs in [previous bound, bound i) |
| `Celestial.FindNone` | scripts/celestial.js:116 | in an increasing table nothing is found exactly from the last bound on |
| `Celestial.FindMonotone` | scripts/celestial.js:3-24 | a larger input never selects an earlier row, and if it selects any row so does the smaller one |
| `Celestial.TablesIncreasing` | scripts/celestial.js:3-24 | both threshold tables are strictly increasing |
| `Celestial.DescribeMoonPhase` | scripts/celestial.js:114-117 | the label of the row whose interval holds the percentage, followed by " Moon"; from 94 on it is "New Moon" |
| `Celestial.GetMoonEmoji` | scripts/celestial.js:119-122 | the glyph of the row whose interval holds the fraction; from 1.01 on it is the new moon |
| `Celestial.MoonScenarios` | scripts/celestial.js:114-122 | below 6 % is "New Moon" and [44,56) is "Full Moon"; a fraction below 0.03 shows the new moon, and one in [0.47,0.53) the full moon |
| `Celestial.PhasePercent` | scripts/celestial.js:54 | the displayed percentage of a phase in [0,1) lies in [0,100] |
| `Celestial.WrapOnce` | scripts/celestial.js:85-86 | one wrap step moves by at most one turn. It maps (-180,540] into (-180,180] and [-540,540] into [-180,180], and leaves [-180,180] alone |
| `Celestial.SunLongitude` | scripts/celestial.js:83-86 | for a UTC clock reading the sun marker lies in (-180,180] without any wrap firing |
| `Celestial.MoonLongitude` | scripts/celestial.js:88-90 | with the sun marker in (-180,180] and a phase in [0,1), the moon marker lies in (-180,180] and differs from `sunLng + phase * 360` by a whole turn at most |
| `Expressions.FlattenScaled` | scripts/nightLights.js:50 | the flattening has two entries per stop, the zoom and then the value times the factor, in stop order |
| `Expressions.Interpolate` | scripts/nightLights.js:46-51 | the expression is the interpolate/linear/zoom header followed by the flattened stops |
| `Expressions.InterpolateRoundTrip` | scripts/main.js:392-396 | reading the stops back out of an unscaled interpolate expression gives exactly the stops |
| `NightLights.BuildZoomExpression` | scripts/nightLights.js:45-52 | the expression has length `3 + 2 * stops` and the interpolate header; each stop keeps its zoom and has its value multiplied by the scale |
| `NightLights.ZoomExpressionUnitScale` | scripts/nightLights.js:45-52 | at scale 1 the expression reproduces the stops exactly |
| `NightLights.NightFactor` | scripts/nightLights.js:61 | the night factor lies in [0,1]. It is 1 up to intensity 0.12, 0 from 0.52 on, and `1.3 - 2.5 i` between |
| `NightLights.NightFactorMonotone` | scripts/nightLights.js:61 | the night factor never rises with the light intensity |
| `NightLights.CoreFactor` | scripts/nightLights.js:54-58 | an id containing "outer" gives 0.2 (tested first). Otherwise one containing "glow" gives 0.45, and any other id 0.75 |
| `NightLights.OpacityProperty` | scripts/nightLights.js:76-77 | ids containing "residential" get `fill-opacity`, and exactly the others get `line-opacity` |
| `NightLights.Initial` | scripts/nightLights.js:36-43 | at load time every scale is non-negative, there is one override per detail layer, and no map or intensity is recorded |
| `NightLights.ScaledHeatmap` | scripts/nightLights.js:62 | the scaled heat-map factor lies in [0,1] and is the night factor at scale 1 |
| `NightLights.ScaledDetail` | scripts/nightLights.js:63 | the scaled detail factor lies in [0,1] and is the night factor at scale 1 |
| `NightLights.ScaledHeatmapMonotone` | scripts/nightLights.js:61-62 | with a non-negative scale, a brighter sky never brightens the heat map |
| `NightLights.Override` | scripts/nightLights.js:78 | a layer's override is its recorded value, or 1 for a layer without one |
| `NightLights.LayerScale` | scripts/nightLights.js:78 | in a state whose scales are non-negative every detail layer's scale is non-negative |
| `NightLights.WritesFor` | scripts/nightLights.js:65-66 | a write is made for exactly the listed layers the map has, at most one per listed id |
| `NightLights.ApplyNightLights` | scripts/nightLights.js:60-86 | every heat-map and detail layer the map has gets its opacity write, and no write targets a layer the map lacks or one outside the two lists |
| `NightLights.ScaledValuesWithin` | scripts/nightLights.js:19-25 | stop values in [0, hi] scaled by a factor in [0,1] stay in [0, hi] |
| `NightLights.ScaledValuesNonneg` | scripts/nightLights.js:27-32 | non-negative stop values scaled by a non-negative factor stay non-negative |
| `NightLights.WrittenOpacities` | scripts/nightLights.js:65-85 | heat-map writes carry opacities in [0,0.9]; in a valid state detail writes carry non-negative opacities |
| `NightLights.UpdateNightLights` | scripts/nightLights.js:88-93 | without a map nothing changes and nothing is written. With one, the map and intensity are recorded and the lights applied. The scales are never touched |
| `NightLights.ApplyOverrides` | scripts/nightLights.js:102-108 | the override key set never changes. An id among the override's own keys takes the non-negative part of the last value given for it, and an id given no value keeps its override. Ids that are not own keys are ignored (inherited property names are not modelled) |
| `NightLights.SetNightLightScales` | scripts/nightLights.js:95-113 | a given heat-map or detail number replaces that scale by its non-negative part, and an absent one leaves it alone. With layer scales given the overrides become the result of applying them in entry order, otherwise they are unchanged. The lights are re-applied with the new state exactly when a map and an intensity were recorded |
| `NightLights.SetKeepsValid` | scripts/nightLights.js:95-108 | setting scales keeps every scale non-negative, for all real-valued inputs |
| `NightLights.ReapplyOnlyAfterUpdate` | scripts/nightLights.js:88-112 | from the load-time state nothing is re-applied; after an update with a map, setting scales re-applies with the recorded map and intensity |
| `TimeUtils.LeapScenarios` | scripts/timeUtils.js:3 | 1900 and 2023 are not leap years; 2000 and 2024 are |
| `TimeUtils.LeapPeriodic` | scripts/timeUtils.js:3 | the leap rule repeats every 400 years |
| `TimeUtils.DaysInMonth` | scripts/timeUtils.js:5-8 | months have 28 to 31 days, and February has 29 exactly in leap years |
| `TimeUtils.DaysBeforeMonth` | scripts/timeUtils.js:20-23 | the days before month m are the days before month m - 1 plus that month's length, starting from 0 |
| `TimeUtils.DaysInYear` | scripts/timeUtils.js:20-23 | a year has 366 days exactly when it is a leap year, else 365, and every month ends within it |
| `TimeUtils.AddDays` | scripts/timeUtils.js:7 | moving by whole days gives an existing calendar day at the same clock reading |
| `TimeUtils.AddDaysOfYear` | scripts/timeUtils.js:5-8 | moving forward n days within the year raises the day number by n |
| `TimeUtils.DayOfYear` | scripts/timeUtils.js:20-23 | the day number of an existing date lies between 1 and the length of its year |
| `TimeUtils.DoyFromDate` | scripts/timeUtils.js:20-23 | January 1st is day 1 and December 31st is day 365 or 366 as the leap rule says, at any clock reading |
| `TimeUtils.DateFromYearAndDoy` | scripts/timeUtils.js:5-9 | the date built from a day number exists and sits at midnight |
| `TimeUtils.DoyRoundTrip` | scripts/timeUtils.js:5-23 | for every day of the year, building the date and reading its day number back gives the same number in the same year |
| `TimeUtils.TruncRem60` | scripts/timeUtils.js:13 | `m % 60` lies in [0,60) for non-negative `m` and in (-60,0] for negative `m` |
| `TimeUtils.SplitMinutes` | scripts/timeUtils.js:11-13 | for non-negative minutes, `hours * 60 + mins` recombines to the input with mins in [0,59]; for negative minutes that are not whole hours it lands one hour early |
| `TimeUtils.AtMinuteOffset` | scripts/timeUtils.js:14 | `setHours` with a minute offset within the day keeps the calendar day and sets the clock to that offset |
| `TimeUtils.SetLocalTime` | scripts/timeUtils.js:11-16 | setting the local time always yields an existing date and clock reading |
| `TimeUtils.MinutesOfDay` | scripts/timeUtils.js:18 | the minute of the day lies in [0,1440) |
| `TimeUtils.SetLocalTimeRoundTrip` | scripts/timeUtils.js:11-18 | setting a minute of the day in [0,1440) and reading it back gives that minute, on the same calendar day |
| `TimeUtils.Digits` | scripts/timeUtils.js:1 | `String(n)` of a natural number is a digit string without leading zero that reads back as `n`, with the width of its decimal magnitude |
| `TimeUtils.IntString` | scripts/timeUtils.js:26 | `String(n)` of a negative integer is a minus sign followed by the digits of its magnitude |
| `TimeUtils.Pad` | scripts/timeUtils.js:1 | for 0 to 99 the padded string has exactly two digits reading back as the number, with a leading '0' below 10; wider numbers are unchanged |
| `TimeUtils.FmtTime` | scripts/timeUtils.js:28 | the time is five characters `HH:MM` whose two parts read back as the hours and minutes |
| `TimeUtils.FmtDate` | scripts/timeUtils.js:25-26 | for four-digit years the date is ten characters `YYYY-MM-DD` whose parts read back as the year, the 1-based month and the day |
| `Stops.ParseUnsigned` | scripts/main.js:453 | a non-empty digit string reads as its decimal value, and any parsed literal is non-negative |
| `Stops.ParseNumber` | scripts/main.js:453 | `Number(key)` is a number or NaN, and the empty key is 0 |
| `Stops.ParseNumberOfInt` | scripts/main.js:453 | every integer written as a key reads back as that integer |
| `Stops.StopOf` | scripts/main.js:453-454 | an entry survives the finiteness filter exactly when its key parses to a number and its value is a number, and then becomes the stop (key, value) |
| `Stops.ValidStops` | scripts/main.js:452-454 | the surviving stops are exactly the stops of the entries that pass the filter |
| `Stops.BuildStopsArray` | scripts/main.js:450-460 | a missing object gives no stops. Otherwise the stops are sorted ascending by zoom and are a permutation of the surviving entries, so every output pair comes from the input |
| `Stops.StopsExpression` | scripts/main.js:390-396 | no stops gives null, one stop its bare value, and more an interpolate expression that reads back as exactly those stops |
| `Stops.BuildInterpolateExpression` | scripts/main.js:387-397 | null without valid stops, the bare value for exactly one, otherwise the interpolate header followed by the sorted stops, reading back as them |
| `Stops.BuildScaledStopsExpression` | scripts/main.js:399-409 | no stops gives null, one stop its scaled value, and more an interpolate expression keeping every zoom and multiplying every value by the factor |
| `Stops.ScaledUnitFactor` | scripts/main.js:387-409 | at factor 1 the scaled builder applied to the parsed stops agrees with the plain builder |
| `Stops.BuildScaleExpression` | scripts/main.js:411-418 | null when every value is within 1e-6 of 1 (no stops included); otherwise the interpolate expression, which is not null |
| `Stops.UnitWeightStops` | scripts/main.js:411-418 | an object whose every value is 1 scales by nothing, as the presets' weight stops do |
| `Stops.ClassEntries` | scripts/main.js:421-423 | the ordinary class entries are exactly the entries whose key is neither `__default` nor `__base` |
| `Stops.OrdinaryThenReserved` | scripts/main.js:421-423 | ordinary entries followed by reserved ones filter to the ordinary entries, in their order |
| `Stops.Arms` | scripts/main.js:430-432 | the arms are each ordinary key followed by its own value, in key order |
| `Stops.MatchExpression` | scripts/main.js:429-434 | a match expression has the `match`/`get class` header, the arms in order, and the default last |
| `Stops.BuildWeightClassExpression` | scripts/main.js:420-435 | without ordinary keys the result is `__base`, else `__default`, else 1. Otherwise it is a match over the ordinary entries in key order with default `__default ?? 1` |
| `Stops.WeightClassArms` | scripts/main.js:421-432 | no reserved key becomes an arm, and every ordinary entry appears as an arm with its value |
| `Stops.BaseOnlyClasses` | scripts/main.js:424-425 | a class object holding only `__base` gives that base weight |
| `TimeControls.ClampDayOfYear` | scripts/main.js:60-65 | the day is at most 366 in leap years and 365 otherwise. A day at or below the maximum is unchanged and one above becomes the maximum; there is no lower clamp |
| `TimeControls.ClampedDayStaysInYear` | scripts/main.js:67-70 | a positive clamped day builds a date in the current year whose day number reads back as the clamped day |
| `TimeControls.Percent` | scripts/main.js:498-499 | a time's slider position is its minutes as a percentage of 1439 |
| `TimeControls.UpdateTimeGradient` | scripts/main.js:491-519 | grey when either time is missing, plain blue when sunset is not after sunrise. Otherwise the bands sit at the two percentages: dawn lead, dawn warm and dusk start are at least 0, dawn fade and dusk trail at most 100, and each band is ordered around its peak |
| `TimeControls.GradientInRange` | scripts/main.js:512-519 | for slider times with sunrise before sunset all seven positions lie in [0,100], in order from dawn lead to dusk trail |
| `MapLayers.BuildStopsExpression` | scripts/mapLayers.js:427-438 | the fallback for a missing object or when no finite entry survives. Otherwise the bare value of a single stop, or an interpolate expression that reads back as the stops sorted by zoom |
| `MapLayers.StopsBuildersAgree` | scripts/mapLayers.js:427-438 | with a valid stop the layer builder agrees with the control builder; without one it gives the fallback where the other gives null |
| `MapLayers.SameInterpolateShape` | scripts/mapLayers.js:434-437 | for two or more stops the layer interpolate expression is the night-light zoom expression and the scaled expression at scale 1 |
| `MapLayers.BuildWeightExpression` | scripts/mapLayers.js:440-455 | the fallback for a missing object. Without ordinary keys it is `__base` if defined, else the fallback (`__default` is not consulted). Otherwise a match over the ordinary entries with default `__default ?? fallback ?? 1` |
| `MapLayers.WeightBuildersCompared` | scripts/mapLayers.js:440-455 | the layer and control weight builders agree when there are ordinary keys and a nullish fallback, and when `__base` is defined. They differ on an object with only `__default` |
| `MapLayers.BasePresetWeights` | scripts/mapLayers.js:445-447 | the residential and buildings presets, `{__base: 0.7}` and `{__base: 0.9}`, give their base weights |
| `MapLayers.RoadsPresetWeight` | scripts/stylePreset.js:15-21 | the roads preset gives a match over motorway, trunk, primary and secondary in that order, whose default is its own `__default` of 0.5 whatever the fallback |

## Left out

- The solar-position trigonometry (`getSubsolarPoint`, `sunCoords`, `rightAscension`, `declination`, `eclipticLongitude`, `toJulian`) is transcendental floating-point maths. The subsolar point is an input of `AutoSky.ApplyAutoSky` instead.
- The subsolar longitude wrap `((lon + 180) % 360) - 180` belongs to that computation. It is not modelled, and no range is claimed for it.
- The moon marker's latitude uses sines. The `metersPerPixel`, `metersToPixels` and `buildRadiusExpression` helpers use cosine and powers. All are left out as transcendental.
- SunCalc (`getTimes`, `getPosition`, `getMoonPosition`, `getMoonIllumination`) is an external library. `getTimes` is the abstract `Twilight.Ephemeris` parameter and the moon phase is an input; the others are not modelled.
- Event times are integer milliseconds, and every reported event time is a valid instant. The ephemeris can report an event that does not occur (for example `night` at high latitude in summer) as an Invalid Date. That value passes the `instanceof Date` test (scripts/lighting.js:181) and is pushed with time NaN. The sort comparator then returns NaN, so the order is implementation-defined, and the event still counts toward the two-event minimum. If it becomes A, the fraction is `clamp01(NaN)`, which is NaN. The model has no NaN instants: an event that does not occur is a key missing from the day's times.
- `Twilight.GetBlendingFor`: "null exactly when fewer than two events" and "fraction in [0,1]" are stated for valid event times only; with an Invalid Date the source counts the event and can return a NaN fraction, as the line above describes.
- `AutoSky.ComputeAutoSky`: the null-iff and fraction-range claims rest on `Twilight.GetBlendingFor` and share its scope of valid event times.
- Map, DOM and network side effects are modelled only as the values they would carry:
  - `setLight`, `setSky` and `setPaintProperty` become the `SkyOutput` and `PaintWrite` values;
  - the sun and moon text lines (`toFixed` formatting) are left out;
  - `setData` of the markers is left out;
  - the `if (!timeGradient)` guard is left out;
  - `console.warn` and `console.log` are left out.
- The map set-up, style loading and the control wiring of the viewer are outside the engine.
- The preset tables and the style preset are configuration data. Only the three heat-map weight-class objects are transcribed, for `MapLayers.BasePresetWeights` and `MapLayers.RoadsPresetWeight`.
- JavaScript `Date` semantics are replaced by a wall-clock calendar. Time zones, daylight saving, `getTimezoneOffset` and the UTC/local mix between building a date from a day number and setting its local time are not modelled.
- IEEE-754 rounding is not modelled: numbers are exact reals, and `Math.round` is ⌊x + 0.5⌋.
- `Object.keys` places integer-like keys first in ascending order. Here the key order of an object is an input. For stops objects the output is sorted by zoom, so only the relative order of stops whose keys read as the same zoom ("1", "1.0", "01") depends on it: the stable sort keeps them in key order.
- `Colors.ParseHex`: `parseInt` also skips leading white space and accepts a sign and a `0x` prefix. Colours never carry them, so only the leading-hex-digits reading is modelled.
- `Stops.ParseNumber`: `Number(key)` also accepts surrounding white space, exponents, hexadecimal and binary literals and `Infinity`. Only optionally signed decimal literals are modelled; other keys read as NaN.
- `Presets.BlendPresets`: requires well-typed presets, where colour keys hold strings or nothing and numeric keys hold numbers or nothing. Other values behave differently in JavaScript: a non-number numeric value is coerced or concatenated by the interpolation, and a truthy non-string colour value throws at `hex.replace`.
- `Presets.ToNumber`: coerces strings and arrays to NaN instead of parsing them; sky blend values are numbers in every preset.
- `AutoSky.ComputeAutoSky`: requires every configured preset to be well typed, as `Presets.BlendPresets` does.
- `AutoSky.ApplyAutoSky`: requires well-typed presets for the same reason, and takes the subsolar point as an input.
- `NightLights.SetNightLightScales`: `heatmap`, `detail` and the layer-scale values are finite reals. Three cases are not modelled. NaN and ±Infinity pass the `typeof` test; `Math.max(0, NaN)` is NaN, so a NaN scale would break non-negativity. A non-number layer-scale value is coerced by `Math.max` (`"2"` gives 2, `null` 0, `true` 1, other strings NaN). An id naming an inherited property such as `toString` passes the `!== undefined` test and would gain an own key.
- `NightLights.SetKeepsValid`: holds for finite real inputs only, for the reasons on the line above.
- `NightLights.ApplyOverrides`: the key set is fixed only for ids that are own keys; inherited property names are not modelled.
- `TimeUtils.DoyFromDate`: computed on whole days plus a clock reading, so a daylight-saving hour cannot shift the result.
