/** Daily minutes and tenths of an hour (app/services/time_metrics.py), and the cutting of intervals
    at midnight (split_by_day and overlap_minutes of app/services/time_intervals.py). */
module Metrics {
  import opened Options
  import opened Calendar
  import opened Intervals
  import opened Breaks
  import opened Backfill
  import Holidays

  // ---- split_by_day ----

  datatype DayPart = DayPart(day: nat, part: WorkInterval)

  function NextMidnight(t: nat): nat {
    (DayOf(t) + 1) * MINUTES_PER_DAY
  }

  /** The parts of an interval by calendar day; an empty last part is dropped. */
  function SplitByDay(x: WorkInterval): seq<DayPart>
    decreases x.end - x.start
  {
    if DayOf(x.start) < DayOf(x.end) then
      [DayPart(DayOf(x.start), WorkInterval(x.start, NextMidnight(x.start)))]
        + SplitByDay(WorkInterval(NextMidnight(x.start), x.end))
    else if x.start < x.end then [DayPart(DayOf(x.start), x)]
    else []
  }

  method SplitIntervalByDay(x: WorkInterval) returns (parts: seq<DayPart>)
    ensures parts == SplitByDay(x)
  {
    var result: seq<DayPart> := [];
    var cursor := x.start;
    assert WorkInterval(x.start, x.end) == x;
    while DayOf(cursor) < DayOf(x.end)
      invariant result + SplitByDay(WorkInterval(cursor, x.end)) == SplitByDay(x)
      decreases x.end - cursor
    {
      var boundary := NextMidnight(cursor);
      Assoc(result, [DayPart(DayOf(cursor), WorkInterval(cursor, boundary))], SplitByDay(WorkInterval(boundary, x.end)));
      result := result + [DayPart(DayOf(cursor), WorkInterval(cursor, boundary))];
      cursor := boundary;
    }
    if x.end > cursor {
      result := result + [DayPart(DayOf(cursor), WorkInterval(cursor, x.end))];
    }
    return result;
  }

  /** Splitting partitions the interval: the parts follow each other from its start to its end, each
      is nonempty and inside its day, and their days increase. */
  lemma {:induction false} SplitPartitions(x: WorkInterval)
    requires x.start < x.end
    ensures var p := SplitByDay(x);
      && p != [] && p[0].part.start == x.start && Last(p).part.end == x.end
      && (forall k :: 0 <= k < |p| ==> PartInDay(p[k]))
      && (forall k :: 0 < k < |p| ==> p[k].part.start == p[k - 1].part.end && p[k - 1].day < p[k].day)
    decreases x.end - x.start
  {
    if DayOf(x.start) < DayOf(x.end) {
      var rest := WorkInterval(NextMidnight(x.start), x.end);
      MidnightNext(x.start, x.end);
      if rest.start < rest.end {
        SplitPartitions(rest);
      } else {
        assert SplitByDay(rest) == [];
      }
    }
  }

  ghost predicate PartInDay(p: DayPart) {
    p.part.start < p.part.end && DayOf(p.part.start) == p.day && p.part.end <= (p.day + 1) * MINUTES_PER_DAY
  }

  lemma {:induction false} MidnightNext(a: nat, b: nat)
    requires DayOf(a) < DayOf(b)
    ensures a < NextMidnight(a) <= b && DayOf(NextMidnight(a)) == DayOf(a) + 1
  {
  }

  function OverlapMinutes(x: WorkInterval, start: int, end: int): nat {
    Max(0, Min(x.end, end) - Max(x.start, start))
  }

  // ---- rounding ----

  datatype MetricValue = MetricValue(minutes: nat, tenths: nat)

  function RoundToTenths(minutes: nat): nat {
    (minutes + 3) / 6
  }

  function Metric(minutes: nat): MetricValue {
    MetricValue(minutes, RoundToTenths(minutes))
  }

  // ---- profiles and daily metrics ----

  datatype EmploymentType = WorkContract | DppDpc | TaskShiftBased | ExternalHourly

  datatype Profile = Profile(
    kind: EmploymentType,
    workload: Option<nat>,
    totalEnabled: bool,
    automaticBreaks: bool,
    afternoonEnabled: bool,
    afternoonStart: Option<nat>,
    nightEnabled: bool,
    weekendEnabled: bool,
    holidayEnabled: bool)

  datatype DailyMetrics = DailyMetrics(
    total: MetricValue,
    afternoon: Option<MetricValue>,
    night: Option<MetricValue>,
    weekend: Option<MetricValue>,
    publicHoliday: Option<MetricValue>)

  function When(enabled: bool, minutes: nat): Option<MetricValue> {
    if enabled then Some(Metric(minutes)) else None
  }

  function AfternoonStart(profile: Profile): nat {
    if profile.afternoonStart.Some? then profile.afternoonStart.value else 0
  }

  /** Parts of the intervals that fall on `day`. */
  function PartsOf(parts: seq<DayPart>, day: nat): seq<WorkInterval> {
    if parts == [] then []
    else (if parts[0].day == day then [parts[0].part] else []) + PartsOf(parts[1..], day)
  }

  function DayParts(intervals: seq<WorkInterval>, day: nat): seq<WorkInterval> {
    if intervals == [] then []
    else PartsOf(SplitByDay(intervals[0]), day) + DayParts(intervals[1..], day)
  }

  function TotalMinutes(parts: seq<WorkInterval>): nat {
    if parts == [] then 0 else Max(0, parts[0].Minutes()) + TotalMinutes(parts[1..])
  }

  /** Minutes of the parts inside the window from minute `from` to minute `to` of the day. */
  function WindowMinutes(parts: seq<WorkInterval>, day: nat, from: nat, to: nat): nat {
    if parts == [] then 0
    else OverlapMinutes(parts[0], day * MINUTES_PER_DAY + from, day * MINUTES_PER_DAY + to)
         + WindowMinutes(parts[1..], day, from, to)
  }

  function NightMinutes(parts: seq<WorkInterval>, day: nat): nat {
    WindowMinutes(parts, day, 0, 360) + WindowMinutes(parts, day, 1320, 1440)
  }

  function DailyMetricsOf(profile: Profile, day: nat, intervals: seq<WorkInterval>): Option<DailyMetrics> {
    if profile.kind == TaskShiftBased then None
    else Some(MetricsOfParts(profile, day, DayParts(intervals, day)))
  }

  function MetricsOfParts(profile: Profile, day: nat, parts: seq<WorkInterval>): DailyMetrics {
    var total := TotalMinutes(parts);
    DailyMetrics(
      Metric(total),
      When(profile.afternoonEnabled, WindowMinutes(parts, day, AfternoonStart(profile), 1320)),
      When(profile.nightEnabled, NightMinutes(parts, day)),
      When(profile.weekendEnabled, if Weekday(day) >= 5 then total else 0),
      When(profile.holidayEnabled, if Holidays.IsPublicHoliday(day) then total else 0))
  }

  function EmptyMetrics(profile: Profile): Option<DailyMetrics> {
    if profile.kind == TaskShiftBased then None
    else Some(DailyMetrics(
      Metric(0), When(profile.afternoonEnabled, 0), When(profile.nightEnabled, 0),
      When(profile.weekendEnabled, 0), When(profile.holidayEnabled, 0)))
  }

  // ---- conservation of minutes ----

  /** Daily totals summed over the days from `lo` up to and excluding `hi`. */
  function DailyTotals(intervals: seq<WorkInterval>, lo: nat, hi: nat): nat
    requires lo <= hi
    decreases hi - lo
  {
    if lo == hi then 0 else TotalMinutes(DayParts(intervals, lo)) + DailyTotals(intervals, lo + 1, hi)
  }

  lemma {:induction false} TotalConcat(a: seq<WorkInterval>, b: seq<WorkInterval>)
    ensures TotalMinutes(a + b) == TotalMinutes(a) + TotalMinutes(b)
  {
    if a == [] {
      assert a + b == b;
    } else {
      assert (a + b)[1..] == a[1..] + b;
      TotalConcat(a[1..], b);
    }
  }

  function PartTotals(parts: seq<DayPart>, lo: nat, hi: nat): nat
    requires lo <= hi
    decreases hi - lo
  {
    if lo == hi then 0 else TotalMinutes(PartsOf(parts, lo)) + PartTotals(parts, lo + 1, hi)
  }

  /** One part counts once among all days. */
  lemma {:induction false} PartCounted(p: DayPart, rest: seq<DayPart>, lo: nat, hi: nat)
    requires lo <= hi
    ensures PartTotals([p] + rest, lo, hi)
         == PartTotals(rest, lo, hi) + if lo <= p.day < hi then Max(0, p.part.Minutes()) else 0
    decreases hi - lo
  {
    if lo < hi {
      PartCounted(p, rest, lo + 1, hi);
      assert ([p] + rest)[1..] == rest;
      TotalConcat([p.part], PartsOf(rest, lo));
      assert [p.part][1..] == [];
      assert [] + PartsOf(rest, lo) == PartsOf(rest, lo);
      assert TotalMinutes(PartsOf([p] + rest, lo))
          == TotalMinutes(PartsOf(rest, lo)) + if p.day == lo then Max(0, p.part.Minutes()) else 0;
    }
  }

  lemma {:induction false} NoPartsNoTotal(lo: nat, hi: nat)
    requires lo <= hi
    ensures PartTotals([], lo, hi) == 0
    decreases hi - lo
  {
    if lo < hi {
      NoPartsNoTotal(lo + 1, hi);
    }
  }

  lemma {:induction false} SplitConserves(x: WorkInterval, lo: nat, hi: nat)
    requires x.start <= x.end && lo <= DayOf(x.start) && DayOf(x.end) < hi
    ensures PartTotals(SplitByDay(x), lo, hi) == x.end - x.start
    decreases x.end - x.start
  {
    if DayOf(x.start) < DayOf(x.end) {
      MidnightNext(x.start, x.end);
      var rest := WorkInterval(NextMidnight(x.start), x.end);
      SplitConserves(rest, lo, hi);
      PartCounted(DayPart(DayOf(x.start), WorkInterval(x.start, NextMidnight(x.start))), SplitByDay(rest), lo, hi);
    } else {
      NoPartsNoTotal(lo, hi);
      if x.start < x.end {
        assert SplitByDay(x) == [DayPart(DayOf(x.start), x)] + [];
        PartCounted(DayPart(DayOf(x.start), x), [], lo, hi);
      }
    }
  }

  lemma {:induction false} FirstInterval(intervals: seq<WorkInterval>, lo: nat, hi: nat)
    requires lo <= hi && intervals != []
    ensures DailyTotals(intervals, lo, hi)
         == PartTotals(SplitByDay(intervals[0]), lo, hi) + DailyTotals(intervals[1..], lo, hi)
    decreases hi - lo
  {
    if lo < hi {
      FirstInterval(intervals, lo + 1, hi);
      TotalConcat(PartsOf(SplitByDay(intervals[0]), lo), DayParts(intervals[1..], lo));
    }
  }

  /** No minute is lost or counted twice: the daily totals add up to the interval lengths. */
  lemma {:induction false} MinutesConserved(intervals: seq<WorkInterval>, lo: nat, hi: nat)
    requires lo <= hi
    requires forall k :: 0 <= k < |intervals| ==>
      intervals[k].start <= intervals[k].end && lo <= DayOf(intervals[k].start) && DayOf(intervals[k].end) < hi
    ensures DailyTotals(intervals, lo, hi) == TotalMinutes(intervals)
  {
    hide DayOf;
    if intervals == [] {
      EmptyDays(lo, hi);
    } else {
      FirstInterval(intervals, lo, hi);
      SplitConserves(intervals[0], lo, hi);
      MinutesConserved(intervals[1..], lo, hi);
    }
  }

  lemma {:induction false} EmptyDays(lo: nat, hi: nat)
    requires lo <= hi
    ensures DailyTotals([], lo, hi) == 0
    decreases hi - lo
  {
    if lo < hi {
      EmptyDays(lo + 1, hi);
    }
  }

  // ---- night and afternoon windows ----

  ghost predicate InsideDay(parts: seq<WorkInterval>, day: nat) {
    forall k :: 0 <= k < |parts| ==>
      day * MINUTES_PER_DAY <= parts[k].start <= parts[k].end <= (day + 1) * MINUTES_PER_DAY
  }

  /** Adjacent windows add up. */
  lemma {:induction false} WindowsJoin(parts: seq<WorkInterval>, day: nat, a: nat, b: nat, c: nat)
    requires InsideDay(parts, day) && a <= b <= c
    ensures WindowMinutes(parts, day, a, c) == WindowMinutes(parts, day, a, b) + WindowMinutes(parts, day, b, c)
  {
    if parts != [] {
      WindowsJoin(parts[1..], day, a, b, c);
    }
  }

  lemma {:induction false} WholeDayWindow(parts: seq<WorkInterval>, day: nat)
    requires InsideDay(parts, day)
    ensures WindowMinutes(parts, day, 0, 1440) == TotalMinutes(parts)
  {
    if parts != [] {
      WholeDayWindow(parts[1..], day);
    }
  }

  /** With the afternoon starting at 06:00 or later, the four windows partition the day's minutes. */
  lemma {:induction false} WindowsPartition(parts: seq<WorkInterval>, day: nat, start: nat)
    requires InsideDay(parts, day) && 360 <= start <= 1320
    ensures NightMinutes(parts, day) + WindowMinutes(parts, day, 360, start) + WindowMinutes(parts, day, start, 1320)
         == TotalMinutes(parts)
  {
    WholeDayWindow(parts, day);
    WindowsJoin(parts, day, 0, 360, 1440);
    WindowsJoin(parts, day, 360, start, 1440);
    WindowsJoin(parts, day, start, 1320, 1440);
  }

  /** Neither category alone ever exceeds the day's total. */
  lemma {:induction false} CategoriesWithinTotal(parts: seq<WorkInterval>, day: nat, start: nat)
    requires InsideDay(parts, day) && start <= 1320
    ensures NightMinutes(parts, day) <= TotalMinutes(parts)
    ensures WindowMinutes(parts, day, start, 1320) <= TotalMinutes(parts)
  {
    WindowsPartition(parts, day, 360);
    WholeDayWindow(parts, day);
    WindowsJoin(parts, day, 0, start, 1440);
    WindowsJoin(parts, day, start, 1320, 1440);
  }

  /** Night and afternoon never overlap, whatever was worked, exactly when the profile's afternoon
      starts at 06:00 or later. */
  lemma {:induction false} CategoriesDisjoint(day: nat, start: nat)
    requires start <= 1319
    ensures (forall parts :: InsideDay(parts, day) ==>
               NightMinutes(parts, day) + WindowMinutes(parts, day, start, 1320) <= TotalMinutes(parts))
       <==> 360 <= start
  {
    if 360 <= start {
      forall parts | InsideDay(parts, day)
        ensures NightMinutes(parts, day) + WindowMinutes(parts, day, start, 1320) <= TotalMinutes(parts)
      {
        WindowsPartition(parts, day, start);
      }
    } else {
      var early := [WorkInterval(day * MINUTES_PER_DAY + start, day * MINUTES_PER_DAY + 360)];
      assert InsideDay(early, day);
      assert early[1..] == [];
      assert TotalMinutes(early) == 360 - start;
      assert WindowMinutes(early, day, 0, 360) == 360 - start;
      assert WindowMinutes(early, day, start, 1320) == 360 - start;
    }
  }

  // ---- rounding ----

  function SumMinutes(values: seq<MetricValue>): nat {
    if values == [] then 0 else values[0].minutes + SumMinutes(values[1..])
  }

  function SumTenths(values: seq<MetricValue>): nat {
    if values == [] then 0 else values[0].tenths + SumTenths(values[1..])
  }

  /** A month's tenths, summed from rounded days, stay within three minutes a day of the exact time. */
  lemma {:induction false} RoundingDrift(values: seq<MetricValue>)
    requires forall k :: 0 <= k < |values| ==> values[k] == Metric(values[k].minutes)
    ensures -2 * |values| <= 6 * SumTenths(values) - SumMinutes(values) <= 3 * |values|
  {
    if values != [] {
      RoundingDrift(values[1..]);
      assert values[0].tenths == (values[0].minutes + 3) / 6;
    }
  }

  /** More minutes on any day never lower the month's tenths. */
  lemma {:induction false} TenthsMonotone(a: seq<MetricValue>, b: seq<MetricValue>)
    requires |a| == |b|
    requires forall k :: 0 <= k < |a| ==>
      a[k] == Metric(a[k].minutes) && b[k] == Metric(b[k].minutes) && a[k].minutes <= b[k].minutes
    ensures SumTenths(a) <= SumTenths(b) && SumMinutes(a) <= SumMinutes(b)
  {
    if a != [] {
      TenthsMonotone(a[1..], b[1..]);
    }
  }
}
