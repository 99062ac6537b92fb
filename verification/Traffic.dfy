/** The synthetic traffic generator: one point per day with a `m/d` label, a
    page-view count (PV) and a unique-user count (UU) a little below it.

    `Math.sin` and the calendar are parameters: `sin` is any function into
    [-1, 1], and `calendar(i)` is the date `i` days after the start date. */
module Traffic {
  import opened JsMath
  import opened JsText
  import opened Optional

  /** The dataset selector's values. */
  datatype DatasetKey = Press | Story | Both

  /** One day of traffic. */
  datatype TrafficPoint = TrafficPoint(date: string, pv: int, uu: int)

  /** The generator's promise for every point: unique users are never
      negative, never above the page views, and at most 3 below them. */
  predicate TrafficInvariant(p: TrafficPoint) {
    0 <= p.uu <= p.pv && p.pv - p.uu <= 3
  }

  /** `getDay()`: 0 is Sunday, 6 is Saturday. */
  type Weekday = d: int | 0 <= d <= 6

  /** `getMonth()`: 0 is January. */
  type MonthIndex = m: int | 0 <= m <= 11

  /** `getDate()` */
  type DayOfMonth = d: int | 1 <= d <= 31 witness 1

  /** The parts of a `Date` the generator reads. */
  datatype CalendarDay = CalendarDay(month: MonthIndex, date: DayOfMonth, weekday: Weekday)

  /** A value `Math.sin` can return. */
  type SineValue = x: real | -1.0 <= x <= 1.0

  // ---------------------------------------------------------------------
  // The date label

  /** `formatMonthDay`: the one-based month, a slash, the day of the month. */
  function FormatMonthDay(d: CalendarDay): string {
    NatToString(d.month + 1) + "/" + NatToString(d.date)
  }

  predicate AllDigits(s: string) {
    forall k :: 0 <= k < |s| ==> IsDigit(s[k])
  }

  /** Reads an `m/d` label back into its two numbers. */
  function ParseMonthDay(s: string): Option<(nat, nat)> {
    if '/' !in s then None
    else
      var k := IndexOf(s, '/');
      var m, d := s[..k], s[k + 1..];
      if m != [] && d != [] && AllDigits(m) && AllDigits(d) then Some((ParseNat(m), ParseNat(d)))
      else None
  }

  /** The label of a date reads back as its one-based month, which lies in
      1..12, and its day of the month. */
  lemma FormatMonthDayRoundTrip(d: CalendarDay)
    ensures ParseMonthDay(FormatMonthDay(d)) == Some((d.month + 1, d.date as nat))
    ensures 1 <= d.month + 1 <= 12
  {
    NumbersRoundTrip(d.month + 1, d.date);
  }

  /** Any two numbers printed around a slash read back as themselves. */
  lemma NumbersRoundTrip(a: nat, b: nat)
    ensures ParseMonthDay(NatToString(a) + "/" + NatToString(b)) == Some((a, b))
  {
    SlashedDigitsParse(NatToString(a), NatToString(b));
    ParseNatToString(a);
    ParseNatToString(b);
  }

  /** Two non-empty digit runs joined by a slash split back at the slash. */
  lemma SlashedDigitsParse(m: string, day: string)
    requires m != [] && day != [] && AllDigits(m) && AllDigits(day)
    ensures ParseMonthDay(m + "/" + day) == Some((ParseNat(m), ParseNat(day)))
  {
    var s := m + "/" + day;
    assert s[|m|] == '/';
    assert forall j :: 0 <= j < |m| ==> s[j] == m[j];
    var k := IndexOf(s, '/');
    assert k == |m|;
    assert s[..k] == m && s[k + 1..] == day;
  }

  // ---------------------------------------------------------------------
  // The factors of one day

  /** Weekends draw a little less traffic. */
  function WeekendFactor(weekday: Weekday): real {
    if weekday == 0 || weekday == 6 then 0.9 else 1.0
  }

  /** Press releases spike in their first ten days. */
  function Spike(i: nat): real {
    if i < 5 then 1.2 else if i < 10 then 1.1 else 1.0
  }

  /** Stories grow slowly and level off. */
  function Growth(i: nat): real {
    22.0 + MinReal(i as real * 0.18, 16.0)
  }

  /** The weekend factor is 0.9 exactly on Sundays and Saturdays and 1
      otherwise; the spike is 1.2, 1.1, then 1; story growth stays in
      [22, 38]. */
  lemma DayFactors(weekday: Weekday, i: nat)
    ensures WeekendFactor(weekday) == 0.9 <==> weekday == 0 || weekday == 6
    ensures WeekendFactor(weekday) == 0.9 || WeekendFactor(weekday) == 1.0
    ensures i < 5 ==> Spike(i) == 1.2
    ensures 5 <= i < 10 ==> Spike(i) == 1.1
    ensures 10 <= i ==> Spike(i) == 1.0
    ensures 22.0 <= Growth(i) <= 38.0
  {
  }

  /** `Math.min(3, Math.max(1, Math.abs(Math.round(scale * s))))` */
  function ClampedGap(scale: real, s: SineValue): int {
    MinInt(3, MaxInt(1, Abs(Round(scale * s))))
  }

  /** How far UU falls below PV on press day `i`. */
  function PressDelta(i: nat, sin: real -> SineValue): int {
    if i % 6 == 0 then 0 else ClampedGap(3.0, sin(i as real * 1.3))
  }

  /** How far UU falls below PV on story day `i`. */
  function StoryDelta(i: nat, sin: real -> SineValue): int {
    if i % 5 == 0 then 0 else ClampedGap(2.0, sin(i as real * 1.5))
  }

  /** The gap is 0 on every sixth press day and every fifth story day, and
      between 1 and 3 on all other days, whatever the sine returns. */
  lemma DeltaRange(i: nat, sin: real -> SineValue)
    ensures i % 6 == 0 ==> PressDelta(i, sin) == 0
    ensures i % 6 != 0 ==> 1 <= PressDelta(i, sin) <= 3
    ensures i % 5 == 0 ==> StoryDelta(i, sin) == 0
    ensures i % 5 != 0 ==> 1 <= StoryDelta(i, sin) <= 3
  {
  }

  // ---------------------------------------------------------------------
  // One point

  /** The unrounded press page views of day `i`. */
  function PressLevel(i: nat, day: CalendarDay, sin: real -> SineValue): real {
    var base := 30.0 + 8.0 * sin(i as real / 6.0) + 6.0 * sin(i as real / 3.0);
    base * WeekendFactor(day.weekday) * Spike(i)
  }

  /** The unrounded story page views of day `i`. */
  function StoryLevel(i: nat, day: CalendarDay, sin: real -> SineValue): real {
    var wave := 7.0 * sin(i as real / 7.0) + 4.0 * sin(i as real / 3.2);
    (Growth(i) + wave) * WeekendFactor(day.weekday)
  }

  /** PV and UU from the unrounded level and the gap. */
  function PointFrom(date: string, level: real, delta: int): TrafficPoint {
    var pv := MaxInt(0, Round(level));
    TrafficPoint(date, pv, MaxInt(0, pv - delta))
  }

  /** The point of day `i`: the press branch for `Press`, the story branch
      for every other key. */
  function DayPoint(kind: DatasetKey, i: nat, day: CalendarDay, sin: real -> SineValue): TrafficPoint {
    if kind == Press then PointFrom(FormatMonthDay(day), PressLevel(i, day, sin), PressDelta(i, sin))
    else PointFrom(FormatMonthDay(day), StoryLevel(i, day, sin), StoryDelta(i, sin))
  }

  /** The invariant the generator's comments promise: UU is never negative,
      never above PV, and at most 3 below it; the gap is the day's delta,
      cut short only where PV itself is smaller. */
  lemma DayPointInvariant(kind: DatasetKey, i: nat, day: CalendarDay, sin: real -> SineValue)
    ensures var p := DayPoint(kind, i, day, sin);
      var delta := if kind == Press then PressDelta(i, sin) else StoryDelta(i, sin);
      && TrafficInvariant(p)
      && p.pv - p.uu == MinInt(delta, p.pv)
  {
    DeltaRange(i, sin);
  }

  /** "Both" is not the press key, so it takes the story branch. */
  lemma NonPressTakesStoryBranch(kind: DatasetKey, i: nat, day: CalendarDay, sin: real -> SineValue)
    requires kind != Press
    ensures DayPoint(kind, i, day, sin) == DayPoint(Story, i, day, sin)
  {
  }

  /** With the sine in [-1, 1] the press level lies in [14.4, 52.8] and the
      story level in [9.9, 49], so press PV is 14..53, story PV is 10..49, and
      the clamp at 0 never takes effect. */
  lemma PageViewBounds(kind: DatasetKey, i: nat, day: CalendarDay, sin: real -> SineValue)
    ensures kind == Press ==> 14 <= DayPoint(kind, i, day, sin).pv <= 53
    ensures kind != Press ==> 10 <= DayPoint(kind, i, day, sin).pv <= 49
    ensures DayPoint(kind, i, day, sin).pv == Round(if kind == Press then PressLevel(i, day, sin) else StoryLevel(i, day, sin))
  {
    var w := WeekendFactor(day.weekday);
    if kind == Press {
      var base := 30.0 + 8.0 * sin(i as real / 6.0) + 6.0 * sin(i as real / 3.0);
      assert 16.0 <= base <= 44.0;
      var level := PressLevel(i, day, sin);
      assert 14.4 <= level <= 52.8 by {
        assert level == base * w * Spike(i);
        if w == 0.9 {
          if i < 5 {} else if i < 10 {} else {}
        } else {
          if i < 5 {} else if i < 10 {} else {}
        }
      }
      RoundBetween(level, 14, 53);
    } else {
      var wave := 7.0 * sin(i as real / 7.0) + 4.0 * sin(i as real / 3.2);
      assert -11.0 <= wave <= 11.0;
      var level := StoryLevel(i, day, sin);
      assert 9.9 <= level <= 49.0 by {
        assert level == (Growth(i) + wave) * w;
        if w == 0.9 {} else {}
      }
      RoundBetween(level, 9, 49);
    }
  }

  // ---------------------------------------------------------------------
  // The generator

  /** Every point of a generated series carries its day's label and keeps
      the UU / PV invariant. */
  lemma DayPointsFacts(kind: DatasetKey, points: seq<TrafficPoint>, calendar: nat -> CalendarDay, sin: real -> SineValue)
    requires forall j :: 0 <= j < |points| ==> points[j] == DayPoint(kind, j, calendar(j), sin)
    ensures forall j :: 0 <= j < |points| ==>
              && points[j].date == FormatMonthDay(calendar(j))
              && TrafficInvariant(points[j])
  {
    forall j | 0 <= j < |points|
      ensures TrafficInvariant(points[j])
    {
      DayPointInvariant(kind, j, calendar(j), sin);
    }
  }

  /** `generateTrafficData(kind, start, days)`: one point per day for `days`
      days (none when `days` is not positive). */
  method GenerateTrafficData(kind: DatasetKey, days: int, calendar: nat -> CalendarDay, sin: real -> SineValue)
    returns (points: seq<TrafficPoint>)
    ensures |points| == MaxInt(days, 0)
    ensures forall j :: 0 <= j < |points| ==> points[j] == DayPoint(kind, j, calendar(j), sin)
    ensures forall j :: 0 <= j < |points| ==>
              && points[j].date == FormatMonthDay(calendar(j))
              && TrafficInvariant(points[j])
  {
    points := [];
    var i := 0;
    while i < days
      invariant 0 <= i == |points|
      invariant i <= MaxInt(days, 0)
      invariant forall j :: 0 <= j < i ==> points[j] == DayPoint(kind, j, calendar(j), sin)
    {
      var point := DayPoint(kind, i, calendar(i), sin);
      AppendDay(kind, points, point, calendar, sin);
      points := points + [point];
      i := i + 1;
    }
    DayPointsFacts(kind, points, calendar, sin);
  }

  /** Appending day `|points|`'s point keeps every point the point of its day. */
  lemma AppendDay(kind: DatasetKey, points: seq<TrafficPoint>, point: TrafficPoint,
                  calendar: nat -> CalendarDay, sin: real -> SineValue)
    requires forall j :: 0 <= j < |points| ==> points[j] == DayPoint(kind, j, calendar(j), sin)
    requires point == DayPoint(kind, |points|, calendar(|points|), sin)
    ensures forall j :: 0 <= j < |points| + 1 ==> (points + [point])[j] == DayPoint(kind, j, calendar(j), sin)
  {
  }
}
