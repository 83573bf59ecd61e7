/** Calendar and clock helpers on a wall-clock model: a date-time is a proleptic
    Gregorian calendar day plus an hour and a minute, with no time zone and no
    daylight-saving shifts. */
module TimeUtils {

  /** A local date-time at whole minutes; `month0` counts from 0 as `getMonth` does. */
  datatype DateTime = DateTime(year: int, month0: int, day: int, hours: int, minutes: int)

  /** `(y % 4 === 0 && y % 100 !== 0) || y % 400 === 0`. A zero test does not depend
      on the sign convention of the remainder, so Dafny's `%` agrees here. */
  predicate IsLeap(y: int) {
    (y % 4 == 0 && y % 100 != 0) || y % 400 == 0
  }

  lemma LeapScenarios()
    ensures !IsLeap(1900) && IsLeap(2000) && IsLeap(2024) && !IsLeap(2023)
  {
  }

  /** The leap rule repeats every 400 years. */
  lemma LeapPeriodic(y: int)
    ensures IsLeap(y + 400) <==> IsLeap(y)
  {
    assert (y + 400) % 4 == y % 4;
    assert (y + 400) % 100 == y % 100;
    assert (y + 400) % 400 == y % 400;
  }

  function DaysInMonth(y: int, m0: int): (n: int)
    requires 0 <= m0 < 12
    ensures 28 <= n <= 31
    ensures m0 == 1 ==> (n == 29 <==> IsLeap(y))
  {
    if m0 == 1 then (if IsLeap(y) then 29 else 28)
    else if m0 == 3 || m0 == 5 || m0 == 8 || m0 == 10 then 30
    else 31
  }

  /** Days before each month of a common year. */
  const CommonDaysBefore: seq<nat> := [0, 31, 59, 90, 120, 151, 181, 212, 243, 273, 304, 334, 365]

  /** Days in the months before `m0` of year `y`. */
  function DaysBeforeMonth(y: int, m0: int): (n: nat)
    requires 0 <= m0 <= 12
    ensures m0 == 0 ==> n == 0
    ensures 0 < m0 ==> n == DaysBeforeMonth(y, m0 - 1) + DaysInMonth(y, m0 - 1)
  {
    if m0 > 0 then CommonMonthStep(m0); CommonDaysBefore[m0] + (if m0 >= 2 && IsLeap(y) then 1 else 0)
    else 0
  }

  /** Consecutive rows of the table differ by the length of the month in a common
      year (year 1 is one). */
  lemma CommonMonthStep(m0: int)
    requires 0 < m0 <= 12
    ensures CommonDaysBefore[m0] == CommonDaysBefore[m0 - 1] + DaysInMonth(1, m0 - 1)
  {
  }

  function DaysInYear(y: int): (n: int)
    ensures n == if IsLeap(y) then 366 else 365
    ensures forall m0 :: 0 <= m0 < 12 ==> DaysBeforeMonth(y, m0) + DaysInMonth(y, m0) <= n
  {
    DaysBeforeMonth(y, 12)
  }

  /** A calendar day that exists, at a clock reading. */
  predicate Valid(d: DateTime) {
    && 0 <= d.month0 < 12 && 1 <= d.day <= DaysInMonth(d.year, d.month0)
    && 0 <= d.hours < 24 && 0 <= d.minutes < 60
  }

  function NextDay(d: DateTime): (e: DateTime)
    requires Valid(d)
    ensures Valid(e) && e.hours == d.hours && e.minutes == d.minutes
  {
    if d.day < DaysInMonth(d.year, d.month0) then d.(day := d.day + 1)
    else if d.month0 < 11 then d.(month0 := d.month0 + 1, day := 1)
    else d.(year := d.year + 1, month0 := 0, day := 1)
  }

  function PrevDay(d: DateTime): (e: DateTime)
    requires Valid(d)
    ensures Valid(e) && e.hours == d.hours && e.minutes == d.minutes
  {
    if d.day > 1 then d.(day := d.day - 1)
    else if d.month0 > 0 then d.(month0 := d.month0 - 1, day := DaysInMonth(d.year, d.month0 - 1))
    else d.(year := d.year - 1, month0 := 11, day := 31)
  }

  /** Moves `n` whole days, rolling over months and years as `Date` does. */
  function AddDays(d: DateTime, n: int): (e: DateTime)
    requires Valid(d)
    ensures Valid(e) && e.hours == d.hours && e.minutes == d.minutes
    decreases if n >= 0 then n else -n
  {
    if n == 0 then d
    else if n > 0 then AddDays(NextDay(d), n - 1)
    else AddDays(PrevDay(d), n + 1)
  }

  /** The day of the year, 1 for January 1st. */
  function DayOfYear(d: DateTime): (n: int)
    requires Valid(d)
    ensures 1 <= n <= DaysInYear(d.year)
  {
    DaysBeforeMonth(d.year, d.month0) + d.day
  }

  /** `doyFromDate`: whole days since local January 1st, plus one. With no
      daylight-saving shift the elapsed time is the day difference plus the clock
      reading, and the clock reading is less than a day. */
  function DoyFromDate(d: DateTime): (n: int)
    requires Valid(d)
    ensures d.month0 == 0 && d.day == 1 ==> n == 1
    ensures d.month0 == 11 && d.day == 31 ==> n == (if IsLeap(d.year) then 366 else 365)
    ensures 1 <= n <= DaysInYear(d.year)
  {
    var days := DayOfYear(d) - 1;
    var clock := d.hours * 60 + d.minutes;
    assert (days * 1440 + clock) / 1440 == days;
    (days * 1440 + clock) / 1440 + 1
  }

  /** Within the year, the next day has the next day number. */
  lemma NextDayOfYear(d: DateTime)
    requires Valid(d) && DayOfYear(d) < DaysInYear(d.year)
    ensures NextDay(d).year == d.year && DayOfYear(NextDay(d)) == DayOfYear(d) + 1
  {
    if d.day == DaysInMonth(d.year, d.month0) && d.month0 < 11 {
      assert DaysBeforeMonth(d.year, d.month0 + 1) == DaysBeforeMonth(d.year, d.month0) + DaysInMonth(d.year, d.month0);
    }
  }

  lemma {:induction false} AddDaysOfYear(d: DateTime, n: nat)
    requires Valid(d) && DayOfYear(d) + n <= DaysInYear(d.year)
    ensures AddDays(d, n).year == d.year && DayOfYear(AddDays(d, n)) == DayOfYear(d) + n
    decreases n
  {
    if n > 0 {
      NextDayOfYear(d);
      AddDaysOfYear(NextDay(d), n - 1);
    }
  }

  /** `dateFromYearAndDoy`: January 1st of `year`, then the day of the month set to
      `doy`, which rolls over into later months. */
  function DateFromYearAndDoy(year: int, doy: int): (d: DateTime)
    ensures Valid(d) && d.hours == 0 && d.minutes == 0
  {
    AddDays(DateTime(year, 0, 1, 0, 0), doy - 1)
  }

  /** Building a date from a day number and reading its day number back agree for
      every day of the year. */
  lemma DoyRoundTrip(year: int, doy: int)
    requires 1 <= doy <= DaysInYear(year)
    ensures DateFromYearAndDoy(year, doy).year == year
    ensures DoyFromDate(DateFromYearAndDoy(year, doy)) == doy
  {
    AddDaysOfYear(DateTime(year, 0, 1, 0, 0), doy - 1);
  }

  /** JavaScript's `m % 60` on an integer: the sign follows the dividend. */
  function TruncRem60(m: int): (r: int)
    ensures m >= 0 ==> 0 <= r < 60
    ensures m < 0 ==> -60 < r <= 0
  {
    if m >= 0 then m % 60 else -((-m) % 60)
  }

  /** `hours = Math.floor(minutes / 60)`, `mins = minutes % 60`. For non-negative
      minutes the pair recombines to the input; for a negative input that is not a
      whole hour both parts are negative and the pair lands one hour early. */
  function SplitMinutes(minutes: int): (hm: (int, int))
    ensures minutes >= 0 ==> hm.0 * 60 + hm.1 == minutes && 0 <= hm.1 < 60 && hm.0 >= 0
    ensures minutes < 0 && minutes % 60 != 0 ==> hm.0 * 60 + hm.1 == minutes - 60
    ensures minutes < 0 && minutes % 60 == 0 ==> hm.0 * 60 + hm.1 == minutes
  {
    (minutes / 60, TruncRem60(minutes))
  }

  /** Midnight of `d` shifted by `k` minutes, as `setHours` normalises its
      arguments. */
  function AtMinuteOffset(d: DateTime, k: int): (e: DateTime)
    requires Valid(d)
    ensures Valid(e)
    ensures 0 <= k < 1440 ==> e.year == d.year && e.month0 == d.month0 && e.day == d.day
    ensures e.hours * 60 + e.minutes == k % 1440
  {
    var day := AddDays(d.(hours := 0, minutes := 0), k / 1440);
    day.(hours := (k % 1440) / 60, minutes := (k % 1440) % 60)
  }

  /** `setLocalTime(date, minutes)`: `setHours(hours, mins, 0, 0)`. */
  function SetLocalTime(d: DateTime, minutes: int): (e: DateTime)
    requires Valid(d)
    ensures Valid(e)
  {
    var (hours, mins) := SplitMinutes(minutes);
    AtMinuteOffset(d, hours * 60 + mins)
  }

  /** `minutesOfDayFromDate`. */
  function MinutesOfDay(d: DateTime): (m: int)
    requires Valid(d)
    ensures 0 <= m < 1440
  {
    d.hours * 60 + d.minutes
  }

  /** Setting a minute of the day and reading it back gives the same minute, on the
      same calendar day. */
  lemma SetLocalTimeRoundTrip(d: DateTime, m: int)
    requires Valid(d) && 0 <= m < 1440
    ensures MinutesOfDay(SetLocalTime(d, m)) == m
    ensures SetLocalTime(d, m).year == d.year && SetLocalTime(d, m).month0 == d.month0 && SetLocalTime(d, m).day == d.day
  {
  }

  /* ---------------------------------------------------------------------------
     Formatting
     --------------------------------------------------------------------------- */

  predicate IsDigit(c: char) {
    '0' <= c <= '9'
  }

  predicate AllDigits(s: string) {
    forall i :: 0 <= i < |s| ==> IsDigit(s[i])
  }

  function DigitChar(n: nat): (c: char)
    requires n < 10
    ensures IsDigit(c) && (c as int) - ('0' as int) == n
  {
    ('0' as int + n) as char
  }

  /** Reads a string of decimal digits. */
  function ParseDigits(s: string): nat
    requires AllDigits(s)
  {
    if |s| == 0 then 0
    else ParseDigits(s[..|s| - 1]) * 10 + ((s[|s| - 1] as int) - ('0' as int))
  }

  /** `String(n)` for a natural number: decimal, without leading zeros. */
  function Digits(n: nat): (s: string)
    ensures AllDigits(s) && |s| >= 1
    ensures ParseDigits(s) == n
    ensures n < 10 ==> |s| == 1
    ensures 10 <= n < 100 ==> |s| == 2
    ensures 100 <= n < 1000 ==> |s| == 3
    ensures 1000 <= n < 10000 ==> |s| == 4
    ensures n >= 10 ==> s[0] != '0'
  {
    if n < 10 then [DigitChar(n)]
    else
      var s := Digits(n / 10) + [DigitChar(n % 10)];
      assert s[..|s| - 1] == Digits(n / 10);
      s
  }

  /** `String(n)` for an integer. */
  function IntString(n: int): (s: string)
    ensures n >= 0 ==> s == Digits(n)
    ensures n < 0 ==> s == "-" + Digits(-n)
  {
    if n >= 0 then Digits(n) else "-" + Digits(-n)
  }

  /** `String(n).padStart(2, '0')`. */
  function Pad(n: int): (s: string)
    ensures 0 <= n <= 99 ==> |s| == 2 && AllDigits(s) && ParseDigits(s) == n
    ensures 0 <= n < 10 ==> s[0] == '0'
    ensures (n >= 10 || n <= -10) ==> s == IntString(n)
  {
    var str := IntString(n);
    if |str| < 2 then "0" + str else str
  }

  /** `fmtTime`: "HH:MM", both parts read back. */
  function FmtTime(d: DateTime): (s: string)
    requires Valid(d)
    ensures |s| == 5 && s[2] == ':'
    ensures AllDigits(s[..2]) && ParseDigits(s[..2]) == d.hours
    ensures AllDigits(s[3..]) && ParseDigits(s[3..]) == d.minutes
  {
    var h := Pad(d.hours);
    var m := Pad(d.minutes);
    var s := h + ":" + m;
    assert s[..2] == h && s[3..] == m;
    s
  }

  /** `fmtDate`: "YYYY-MM-DD" with the 1-based month, for four-digit years. */
  function FmtDate(d: DateTime): (s: string)
    requires Valid(d)
    ensures 1000 <= d.year <= 9999 ==>
      && |s| == 10 && s[4] == '-' && s[7] == '-'
      && AllDigits(s[..4]) && ParseDigits(s[..4]) == d.year
      && AllDigits(s[5..7]) && ParseDigits(s[5..7]) == d.month0 + 1
      && AllDigits(s[8..]) && ParseDigits(s[8..]) == d.day
  {
    var y := IntString(d.year);
    var m := Pad(d.month0 + 1);
    var dd := Pad(d.day);
    var s := y + "-" + m + "-" + dd;
    if 1000 <= d.year <= 9999 then
      assert |y| == 4 && |m| == 2 && |dd| == 2;
      DashedParts(y, m, dd);
      s
    else s
  }

  lemma DashedParts(y: string, m: string, dd: string)
    requires |y| == 4 && |m| == 2 && |dd| == 2
    ensures var s := y + "-" + m + "-" + dd;
      && |s| == 10 && s[4] == '-' && s[7] == '-'
      && s[..4] == y && s[5..7] == m && s[8..] == dd
  {
    var s := y + "-" + m + "-" + dd;
    assert s == y + ("-" + m + "-" + dd);
  }
}
