/** The date and time controls: the day-of-year slider's upper clamp and the stop
    positions of the day/night gradient drawn behind the time slider. */
module TimeControls {
  import opened JsValues
  import opened Numeric
  import TimeUtils

  const MinutesPerDay: int := 1440

  /** `clampDayOfYear(day)`: no later than the last day of the current year; there
      is no lower clamp. */
  function ClampDayOfYear(day: int, year: int): (d: int)
    ensures d <= (if TimeUtils.IsLeap(year) then 366 else 365)
    ensures day <= (if TimeUtils.IsLeap(year) then 366 else 365) ==> d == day
    ensures day > (if TimeUtils.IsLeap(year) then 366 else 365) ==> d == (if TimeUtils.IsLeap(year) then 366 else 365)
  {
    var max := if TimeUtils.IsLeap(year) then 366 else 365;
    if day > max then max else day
  }

  /** A clamped positive day lands inside the year it is clamped for, and reading its
      day number back gives the clamped day. */
  lemma ClampedDayStaysInYear(day: int, year: int)
    requires day >= 1
    ensures TimeUtils.DateFromYearAndDoy(year, ClampDayOfYear(day, year)).year == year
    ensures TimeUtils.DoyFromDate(TimeUtils.DateFromYearAndDoy(year, ClampDayOfYear(day, year))) == ClampDayOfYear(day, year)
  {
    TimeUtils.DoyRoundTrip(year, ClampDayOfYear(day, year));
  }

  /** The background of the time slider. */
  datatype Gradient =
    | Flat(color: string)
    | Bands(dawnLead: real, dawnWarm: real, dawnPeak: real, dawnFade: real,
            duskStart: real, duskPeak: real, duskTrail: real)

  /** Minutes of the day as a percentage of the slider, `m / 1439 * 100`. */
  function Percent(minutes: real): (p: real)
    ensures p == minutes * 100.0 / 1439.0
  {
    minutes / (MinutesPerDay - 1) as real * 100.0
  }

  /** `updateTimeGradient(sunrise, sunset)`: grey when either time is missing, plain
      day blue when sunset does not come after sunrise, otherwise the seven band
      positions, each kept within [0, 100] on the side it is clamped. */
  function UpdateTimeGradient(sunriseMinutes: JsValue, sunsetMinutes: JsValue): (g: Gradient)
    ensures !sunriseMinutes.Num? || !sunsetMinutes.Num? ==> g == Flat("#d9d9d9")
    ensures sunriseMinutes.Num? && sunsetMinutes.Num? && sunsetMinutes.n <= sunriseMinutes.n ==> g == Flat("#6fb7ff")
    ensures sunriseMinutes.Num? && sunsetMinutes.Num? && sunsetMinutes.n > sunriseMinutes.n ==>
      && g.Bands?
      && g.dawnPeak == Percent(sunriseMinutes.n) && g.duskPeak == Percent(sunsetMinutes.n)
      && g.dawnLead >= 0.0 && g.dawnWarm >= 0.0 && g.duskStart >= 0.0
      && g.dawnFade <= 100.0 && g.duskTrail <= 100.0
      && g.dawnLead <= g.dawnWarm
      && (g.dawnPeak >= 0.0 ==> g.dawnWarm <= g.dawnPeak)
      && (g.dawnPeak <= 100.0 ==> g.dawnPeak <= g.dawnFade)
      && (g.duskPeak >= 0.0 ==> g.duskStart <= g.duskPeak)
      && (g.duskPeak <= 100.0 ==> g.duskPeak <= g.duskTrail)
  {
    if !sunriseMinutes.Num? || !sunsetMinutes.Num? then Flat("#d9d9d9")
    else
      var sunrisePct := Percent(sunriseMinutes.n);
      var sunsetPct := Percent(sunsetMinutes.n);
      if sunsetPct <= sunrisePct then Flat("#6fb7ff")
      else
        Bands(Max(0.0, sunrisePct - 6.0), Max(0.0, sunrisePct - 2.5), sunrisePct, Min(100.0, sunrisePct + 3.0),
              Max(0.0, sunsetPct - 3.0), sunsetPct, Min(100.0, sunsetPct + 6.0))
  }

  /** For times on the slider the bands come in order from left to right: the dawn
      bands lie before the dusk peak, and every position lies within [0, 100]. */
  lemma GradientInRange(sunrise: real, sunset: real)
    requires 0.0 <= sunrise < sunset <= (MinutesPerDay - 1) as real
    ensures var g := UpdateTimeGradient(Num(sunrise), Num(sunset));
      && g.Bands?
      && 0.0 <= g.dawnLead <= g.dawnWarm <= g.dawnPeak <= g.dawnFade <= 100.0
      && 0.0 <= g.duskStart <= g.duskPeak <= g.duskTrail <= 100.0
      && g.dawnPeak < g.duskPeak
  {
  }
}
