/** Moon-phase classification by threshold tables, and the longitudes at which the
    decorative sun and moon markers are drawn. */
module Celestial {
  import opened Numeric

  /** One table row: inputs below `bound` (and not below the previous bound) get
      `item`. */
  datatype Entry<T> = Entry(bound: real, item: T)

  predicate StrictlyIncreasing<T>(table: seq<Entry<T>>) {
    forall i, j :: 0 <= i < j < |table| ==> table[i].bound < table[j].bound
  }

  const MoonPhases: seq<Entry<string>> := [
    Entry(6.0, "New"), Entry(19.0, "Waxing Crescent"), Entry(31.0, "First Quarter"),
    Entry(44.0, "Waxing Gibbous"), Entry(56.0, "Full"), Entry(69.0, "Waning Gibbous"),
    Entry(81.0, "Last Quarter"), Entry(94.0, "Waning Crescent")]

  const NewMoon: string := "\U{1F311}"
  const FullMoon: string := "\U{1F315}"

  const MoonEmojiPhases: seq<Entry<string>> := [
    Entry(0.03, NewMoon), Entry(0.22, "\U{1F312}"), Entry(0.28, "\U{1F313}"),
    Entry(0.47, "\U{1F314}"), Entry(0.53, FullMoon), Entry(0.72, "\U{1F316}"),
    Entry(0.78, "\U{1F317}"), Entry(0.97, "\U{1F318}"), Entry(1.01, NewMoon)]

  /** `table.findIndex(entry => x < entry.bound)`. */
  function Find<T>(table: seq<Entry<T>>, x: real): (i: int)
    ensures -1 <= i < |table|
    ensures i >= 0 ==> x < table[i].bound && forall j :: 0 <= j < i ==> table[j].bound <= x
    ensures i == -1 ==> forall j :: 0 <= j < |table| ==> table[j].bound <= x
  {
    if |table| == 0 then -1
    else if x < table[0].bound then 0
    else
      var i := Find(table[1..], x);
      if i == -1 then -1 else i + 1
  }

  /** In an increasing table, row `i` is chosen exactly for the inputs in
      [previous bound, bound of row i). */
  lemma FindInterval<T>(table: seq<Entry<T>>, x: real, i: int)
    requires StrictlyIncreasing(table) && 0 <= i < |table|
    ensures Find(table, x) == i <==> (i == 0 || table[i - 1].bound <= x) && x < table[i].bound
  {
  }

  /** Past the last bound nothing is found. */
  lemma FindNone<T>(table: seq<Entry<T>>, x: real)
    requires StrictlyIncreasing(table) && |table| > 0
    ensures Find(table, x) == -1 <==> table[|table| - 1].bound <= x
  {
    if table[|table| - 1].bound <= x {
      forall j | 0 <= j < |table| ensures table[j].bound <= x {
        if j < |table| - 1 {
          assert table[j].bound < table[|table| - 1].bound;
        }
      }
    }
  }

  /** A larger input never selects an earlier row. */
  lemma FindMonotone<T>(table: seq<Entry<T>>, x: real, y: real)
    requires x <= y
    ensures Find(table, y) == -1 || (Find(table, x) != -1 && Find(table, x) <= Find(table, y))
  {
  }

  lemma TablesIncreasing()
    ensures StrictlyIncreasing(MoonPhases)
    ensures StrictlyIncreasing(MoonEmojiPhases)
  {
  }

  /** `describeMoonPhase(percentage)`: the label of the first row whose threshold
      exceeds the percentage, "New" when none does, followed by " Moon". */
  function DescribeMoonPhase(percentage: real): (s: string)
    ensures forall i ::
      (0 <= i < |MoonPhases| && (i == 0 || MoonPhases[i - 1].bound <= percentage) && percentage < MoonPhases[i].bound)
      ==> s == MoonPhases[i].item + " Moon"
    ensures percentage >= 94.0 ==> s == "New Moon"
  {
    TablesIncreasing();
    forall i | 0 <= i < |MoonPhases| {
      FindInterval(MoonPhases, percentage, i);
    }
    FindNone(MoonPhases, percentage);
    var i := Find(MoonPhases, percentage);
    (if i == -1 then "New" else MoonPhases[i].item) + " Moon"
  }

  /** `getMoonEmoji(fraction)`: the glyph of the first row whose bound exceeds the
      fraction, the new moon when none does. */
  function GetMoonEmoji(fraction: real): (g: string)
    ensures forall i ::
      (0 <= i < |MoonEmojiPhases| && (i == 0 || MoonEmojiPhases[i - 1].bound <= fraction) && fraction < MoonEmojiPhases[i].bound)
      ==> g == MoonEmojiPhases[i].item
    ensures fraction >= 1.01 ==> g == NewMoon
  {
    TablesIncreasing();
    forall i | 0 <= i < |MoonEmojiPhases| {
      FindInterval(MoonEmojiPhases, fraction, i);
    }
    FindNone(MoonEmojiPhases, fraction);
    var i := Find(MoonEmojiPhases, fraction);
    if i == -1 then NewMoon else MoonEmojiPhases[i].item
  }

  /** The named cases: below 6 % is a new moon, and so is 94 % and above; a fraction
      below 0.03 or from 1.01 on shows the new moon, one in [0.47, 0.53) the full moon. */
  lemma MoonScenarios(p: real, f: real)
    ensures p < 6.0 ==> DescribeMoonPhase(p) == "New Moon"
    ensures 44.0 <= p < 56.0 ==> DescribeMoonPhase(p) == "Full Moon"
    ensures f < 0.03 ==> GetMoonEmoji(f) == NewMoon
    ensures 0.47 <= f < 0.53 ==> GetMoonEmoji(f) == FullMoon
  {
    if p < 6.0 {
      assert p < MoonPhases[0].bound;
      assert MoonPhases[0].item + " Moon" == "New Moon";
    }
    if 44.0 <= p < 56.0 {
      assert MoonPhases[3].bound <= p < MoonPhases[4].bound;
      assert MoonPhases[4].item + " Moon" == "Full Moon";
    }
    if f < 0.03 {
      assert f < MoonEmojiPhases[0].bound;
    }
    if 0.47 <= f < 0.53 {
      assert MoonEmojiPhases[3].bound <= f < MoonEmojiPhases[4].bound;
    }
  }

  /** `Math.round(phase * 100)`. */
  function PhasePercent(phase: real): (p: int)
    ensures 0.0 <= phase < 1.0 ==> 0 <= p <= 100
  {
    Round(phase * 100.0)
  }

  /** One step of the marker wrap: above 180 subtract a turn, then below -180 add
      one. */
  function WrapOnce(x: real): (r: real)
    ensures r == x || r == x - 360.0 || r == x + 360.0
    ensures -180.0 < x <= 540.0 ==> -180.0 < r <= 180.0
    ensures -540.0 <= x <= 540.0 ==> -180.0 <= r <= 180.0
    ensures -180.0 <= x <= 180.0 ==> r == x
  {
    var y := if x > 180.0 then x - 360.0 else x;
    if y < -180.0 then y + 360.0 else y
  }

  /** `getUTCHours() + getUTCMinutes() / 60`. */
  function DecimalHours(hours: int, minutes: int): real {
    hours as real + minutes as real / 60.0
  }

  /** The sun marker's longitude, `180 - hours * 15` wrapped. For a clock reading the
      raw value already lies in (-180, 180], so neither wrap branch ever fires. */
  function SunLongitude(hours: int, minutes: int): (lng: real)
    requires 0 <= hours < 24 && 0 <= minutes < 60
    ensures -180.0 < lng <= 180.0
    ensures lng == 180.0 - DecimalHours(hours, minutes) * 15.0
  {
    WrapOnce(180.0 - DecimalHours(hours, minutes) * 15.0)
  }

  /** The moon marker's longitude: `sunLng + phase * 360`, wrapped once. */
  function MoonLongitude(sunLng: real, phase: real): (lng: real)
    ensures -180.0 < sunLng <= 180.0 && 0.0 <= phase < 1.0 ==> -180.0 < lng <= 180.0
    ensures lng == sunLng + phase * 360.0 || lng == sunLng + phase * 360.0 - 360.0 || lng == sunLng + phase * 360.0 + 360.0
  {
    WrapOnce(sunLng + phase * 360.0)
  }
}
