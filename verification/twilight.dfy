/** The twilight scheduler: phase events of the previous, current and next day are
    merged into one timeline, and the pair of events bracketing the query instant is
    picked together with the clamped fraction of the way between them. */
module Twilight {
  import opened JsValues
  import opened Numeric
  import opened Sorting
  import Presets

  const DayMs: int := 86400000

  /** The phase keys in the order they are collected for one day. */
  const Order: seq<string> := [
    "nadir", "nightEnd", "nauticalDawn", "dawn", "sunrise", "sunriseEnd", "goldenHourEnd",
    "solarNoon", "goldenHour", "sunsetStart", "sunset", "dusk", "nauticalDusk", "night"]

  /** A phase event: a key and its instant in integer milliseconds. */
  datatype Phase = Phase(key: string, time: int)

  /** One day's events as the ephemeris reports them, each a valid instant; a key the
      model treats as an event that does not occur that day is absent. */
  type DayTimes = map<string, int>

  /** The ephemeris, queried with an instant and a location. */
  type Ephemeris = (int, real, real) -> DayTimes

  /** The configured phases: a key is enabled when it has a preset. */
  type Options = map<string, Presets.Preset>

  datatype Blending = Blending(a: Phase, b: Phase, t: real)

  function PhaseTime(p: Phase): real {
    p.time as real
  }

  /** The events of one day, in `Order`, that are enabled and occur. */
  function DayPhases(keys: seq<string>, times: DayTimes, options: Options): (r: seq<Phase>)
    ensures forall p :: p in r <==> p.key in keys && p.key in options && p.key in times && p.time == times[p.key]
    ensures |r| <= |keys|
  {
    if |keys| == 0 then []
    else
      var rest := DayPhases(keys[1..], times, options);
      var k := keys[0];
      assert forall x :: x in keys <==> x == k || x in keys[1..];
      if k in options && k in times then [Phase(k, times[k])] + rest else rest
  }

  /** All events pushed for the day offsets -1, 0 and +1, in push order. */
  function Collect(t0: int, lat: real, lon: real, options: Options, getTimes: Ephemeris): seq<Phase> {
    DayPhases(Order, getTimes(t0 - DayMs, lat, lon), options)
      + DayPhases(Order, getTimes(t0, lat, lon), options)
      + DayPhases(Order, getTimes(t0 + DayMs, lat, lon), options)
  }

  /** The merged timeline, sorted by time (stably). */
  function Timeline(t0: int, lat: real, lon: real, options: Options, getTimes: Ephemeris): (r: seq<Phase>)
    ensures SortedBy(r, PhaseTime)
    ensures multiset(r) == multiset(Collect(t0, lat, lon, options, getTimes))
  {
    SortBy(Collect(t0, lat, lon, options, getTimes), PhaseTime)
  }

  /** `findIndex(phase => phase.time > t0)`. */
  function FindAfter(phases: seq<Phase>, t0: int): (i: int)
    ensures -1 <= i < |phases|
    ensures i >= 0 ==> phases[i].time > t0 && forall j :: 0 <= j < i ==> phases[j].time <= t0
    ensures i == -1 ==> forall j :: 0 <= j < |phases| ==> phases[j].time <= t0
  {
    if |phases| == 0 then -1
    else if phases[0].time > t0 then 0
    else
      var i := FindAfter(phases[1..], t0);
      if i == -1 then -1 else i + 1
  }

  lemma ModOfSmaller(i: int, n: int)
    requires 0 <= i < n
    ensures i % n == i
  {
  }

  /** The indices of the bracketing pair in the timeline: B is the first event after
      the instant (or the last event), A the one just before B (or B itself at 0). */
  function Bracket(phases: seq<Phase>, t0: int): (ab: (nat, nat))
    requires |phases| >= 2
    ensures ab.0 <= ab.1 < |phases|
    ensures ab.1 == 0 ==> ab.0 == 0
    ensures ab.1 > 0 ==> ab.0 == ab.1 - 1
  {
    var found := FindAfter(phases, t0);
    var idx := if found == -1 then |phases| - 1 else found;
    var ia := if idx - 1 > 0 then idx - 1 else 0;
    ModOfSmaller(idx, |phases|);
    (ia, idx % |phases|)
  }

  /** The bracketing pair and the fraction for a timeline of at least two events;
      the span is floored at one millisecond. */
  function Choose(phases: seq<Phase>, t0: int): (r: Blending)
    requires |phases| >= 2 && SortedBy(phases, PhaseTime)
    ensures r.a in phases && r.b in phases
    ensures r.a.time <= r.b.time
    ensures 0.0 <= r.t <= 1.0
  {
    var (ia, ib) := Bracket(phases, t0);
    var a := phases[ia];
    var b := phases[ib];
    assert PhaseTime(a) <= PhaseTime(b);
    var span := if b.time - a.time > 1 then b.time - a.time else 1;
    Blending(a, b, Clamp01((t0 - a.time) as real / span as real))
  }

  lemma ChooseBeforeFirst(phases: seq<Phase>, t0: int)
    requires |phases| >= 2 && SortedBy(phases, PhaseTime)
    requires t0 < phases[0].time
    ensures Choose(phases, t0).t == 0.0 && Choose(phases, t0).a == Choose(phases, t0).b
  {
    assert FindAfter(phases, t0) == 0;
  }

  lemma ChooseAfterLast(phases: seq<Phase>, t0: int)
    requires |phases| >= 2 && SortedBy(phases, PhaseTime)
    requires phases[|phases| - 1].time < t0
    ensures Choose(phases, t0).t == 1.0
  {
    var n := |phases|;
    var found := FindAfter(phases, t0);
    assert found == -1;
    var (ia, ib) := Bracket(phases, t0);
    assert ib == n - 1 && ia == n - 2;
    assert PhaseTime(phases[ia]) <= PhaseTime(phases[ib]);
    var a := phases[ia];
    var b := phases[ib];
    var span := if b.time - a.time > 1 then b.time - a.time else 1;
    assert t0 - a.time >= span;
    QuotientAtLeastOne((t0 - a.time) as real, span as real);
  }

  /** The fraction is the share of the gap from A to B that has elapsed at `t0`. */
  predicate ElapsedShare(r: Blending, t0: int)
    requires r.a.time < r.b.time
  {
    r.t == (t0 - r.a.time) as real / (r.b.time - r.a.time) as real
  }

  lemma ChooseInterior(phases: seq<Phase>, t0: int)
    requires |phases| >= 2 && SortedBy(phases, PhaseTime)
    requires phases[0].time <= t0 < phases[|phases| - 1].time
    ensures var r := Choose(phases, t0);
      && r.a.time <= t0 < r.b.time
      && ElapsedShare(r, t0)
      && (forall e :: e in phases && e.time <= t0 ==> e.time <= r.a.time)
      && (forall e :: e in phases && t0 < e.time ==> r.b.time <= e.time)
  {
    var n := |phases|;
    var found := FindAfter(phases, t0);
    var (ia, ib) := Bracket(phases, t0);
    assert found > 0;
    assert ia == found - 1 && ib == found;
    forall e | e in phases && e.time <= t0 ensures e.time <= phases[ia].time {
      var j :| 0 <= j < n && phases[j] == e;
      if j < ia { assert PhaseTime(phases[j]) <= PhaseTime(phases[ia]); }
    }
    forall e | e in phases && t0 < e.time ensures phases[ib].time <= e.time {
      var j :| 0 <= j < n && phases[j] == e;
      if j > ib { assert PhaseTime(phases[ib]) <= PhaseTime(phases[j]); }
    }
    QuotientBelowOne((t0 - phases[ia].time) as real, (phases[ib].time - phases[ia].time) as real);
  }

  /** Sorting the collected events and choosing the bracket; `None` for fewer than two
      events. */
  function Select(events: seq<Phase>, t0: int): (r: Option<Blending>)
    ensures r.None? <==> |events| < 2
    ensures r.Some? ==> r.value.a in events && r.value.b in events
    ensures r.Some? ==> r.value.a.time <= r.value.b.time && 0.0 <= r.value.t <= 1.0
  {
    var phases := SortBy(events, PhaseTime);
    if |phases| < 2 then None
    else
      var r := Choose(phases, t0);
      SameElements(events, PhaseTime, r.a);
      SameElements(events, PhaseTime, r.b);
      Some(r)
  }

  /** `getBlendingFor`: `None` when fewer than two enabled events occur in the
      three-day window; otherwise an enabled bracketing pair, in time order, with a
      fraction in [0,1]. */
  function GetBlendingFor(t0: int, lat: real, lon: real, options: Options, getTimes: Ephemeris): (r: Option<Blending>)
    ensures r.None? <==> |Collect(t0, lat, lon, options, getTimes)| < 2
    ensures r.Some? ==>
      && r.value.a in Collect(t0, lat, lon, options, getTimes)
      && r.value.b in Collect(t0, lat, lon, options, getTimes)
      && r.value.a.key in options && r.value.b.key in options
      && r.value.a.time <= r.value.b.time
      && 0.0 <= r.value.t <= 1.0
  {
    Select(Collect(t0, lat, lon, options, getTimes), t0)
  }

  /** Before every event the fraction is 0 and the pair degenerates to the first
      event. */
  lemma SelectBeforeFirst(events: seq<Phase>, t0: int)
    requires |events| >= 2
    requires forall e :: e in events ==> t0 < e.time
    ensures Select(events, t0).value.t == 0.0
    ensures Select(events, t0).value.a == Select(events, t0).value.b
  {
    var phases := SortBy(events, PhaseTime);
    SameElements(events, PhaseTime, phases[0]);
    ChooseBeforeFirst(phases, t0);
  }

  /** Strictly after every event the fraction is 1. */
  lemma SelectAfterLast(events: seq<Phase>, t0: int)
    requires |events| >= 2
    requires forall e :: e in events ==> e.time < t0
    ensures Select(events, t0).value.t == 1.0
  {
    var phases := SortBy(events, PhaseTime);
    SameElements(events, PhaseTime, phases[|phases| - 1]);
    ChooseAfterLast(phases, t0);
  }

  /** An instant between two collected events lies inside the sorted timeline, which
      holds exactly the collected events. */
  lemma InsideTimeline(events: seq<Phase>, t0: int, e1: Phase, e2: Phase)
    requires e1 in events && e2 in events && e1.time <= t0 < e2.time
    ensures |events| >= 2
    ensures var phases := SortBy(events, PhaseTime);
      && |phases| >= 2
      && SortedBy(phases, PhaseTime)
      && phases[0].time <= t0 < phases[|phases| - 1].time
      && (forall e :: e in events <==> e in phases)
  {
    var i1 :| 0 <= i1 < |events| && events[i1] == e1;
    var i2 :| 0 <= i2 < |events| && events[i2] == e2;
    assert i1 != i2;
    var phases := SortBy(events, PhaseTime);
    forall e ensures e in events <==> e in phases {
      SameElements(events, PhaseTime, e);
    }
    SortedBounds(events, PhaseTime, e1);
    SortedBounds(events, PhaseTime, e2);
  }

  /** For an instant inside the window, A is the latest event not after it and B the
      earliest event after it, and the fraction is the share of the gap between them
      already elapsed. */
  lemma SelectInterior(events: seq<Phase>, t0: int, e1: Phase, e2: Phase)
    requires e1 in events && e2 in events && e1.time <= t0 < e2.time
    ensures |events| >= 2
    ensures var r := Select(events, t0).value;
      && r.a.time <= t0 < r.b.time
      && ElapsedShare(r, t0)
      && (forall e :: e in events && e.time <= t0 ==> e.time <= r.a.time)
      && (forall e :: e in events && t0 < e.time ==> r.b.time <= e.time)
  {
    InsideTimeline(events, t0, e1, e2);
    var phases := SortBy(events, PhaseTime);
    assert Select(events, t0) == Some(Choose(phases, t0));
    ChooseInterior(phases, t0);
  }

  /** Inside the three-day window the blending is the elapsed share of the gap
      between the latest event at or before the instant and the earliest one after it. */
  lemma GetBlendingInterior(t0: int, lat: real, lon: real, options: Options, getTimes: Ephemeris, e1: Phase, e2: Phase)
    requires e1 in Collect(t0, lat, lon, options, getTimes) && e2 in Collect(t0, lat, lon, options, getTimes)
    requires e1.time <= t0 < e2.time
    ensures GetBlendingFor(t0, lat, lon, options, getTimes).Some?
    ensures var r := GetBlendingFor(t0, lat, lon, options, getTimes).value;
      && r.a.time <= t0 < r.b.time
      && ElapsedShare(r, t0)
      && (forall e :: e in Collect(t0, lat, lon, options, getTimes) && e.time <= t0 ==> e.time <= r.a.time)
      && (forall e :: e in Collect(t0, lat, lon, options, getTimes) && t0 < e.time ==> r.b.time <= e.time)
  {
    SelectInterior(Collect(t0, lat, lon, options, getTimes), t0, e1, e2);
  }
}
