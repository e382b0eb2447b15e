/** What the figures of a day mean: each category counts the worked minutes of its hours
    (app/services/time_metrics.py), and the cache stores them column by column. */
module Figures {
  import opened Options
  import opened Calendar
  import opened Intervals
  import opened Breaks
  import opened Metrics
  import opened Minutes
  import opened Summary
  import opened Footprint
  import opened Invariants
  import opened MonthTotals
  import opened Sheets

  datatype Figure = Total | Afternoon | Night | Weekend | PublicHoliday

  function FigureOf(d: DailyMetrics, g: Figure): Option<MetricValue> {
    match g
    case Total => Some(d.total)
    case Afternoon => d.afternoon
    case Night => d.night
    case Weekend => d.weekend
    case PublicHoliday => d.publicHoliday
  }

  /** Whether an employment keeps a category at all. */
  predicate Tracked(profile: Profile, g: Figure) {
    && profile.kind != TaskShiftBased
    && match g
       case Total => true
       case Afternoon => profile.afternoonEnabled
       case Night => profile.nightEnabled
       case Weekend => profile.weekendEnabled
       case PublicHoliday => profile.holidayEnabled
  }

  /** The hours a category counts for an employment. */
  function HoursOf(profile: Profile, g: Figure): Hours {
    match g
    case Total => AnyTime
    case Afternoon => AfternoonFrom(if profile.afternoonStart.Some? then profile.afternoonStart.value else 0)
    case Night => NightTime
    case Weekend => Weekends
    case PublicHoliday => PublicHolidays
  }

  /** A figure of so many minutes, with the nearest tenth of an hour, halves upwards. */
  ghost predicate Shows(v: Option<MetricValue>, minutes: nat) {
    v.Some? && v.value.minutes == minutes && -2 <= 6 * v.value.tenths - minutes <= 3
  }

  // ---- minutes of a day ----

  lemma {:induction false} WindowIsMinutesIn(parts: seq<WorkInterval>, day: nat, from: nat, to: nat)
    ensures WindowMinutes(parts, day, from, to) == MinutesIn(parts, day * MINUTES_PER_DAY + from, day * MINUTES_PER_DAY + to)
  {
    if parts != [] {
      WindowIsMinutesIn(parts[1..], day, from, to);
    }
  }

  lemma {:induction false} MinutesConcat(a: seq<WorkInterval>, b: seq<WorkInterval>, lo: nat, hi: nat)
    ensures MinutesIn(a + b, lo, hi) == MinutesIn(a, lo, hi) + MinutesIn(b, lo, hi)
  {
    if a == [] {
      assert a + b == b;
    } else {
      assert (a + b)[1..] == a[1..] + b;
      MinutesConcat(a[1..], b, lo, hi);
    }
  }

  lemma {:induction false} CutAtMidnight(x: WorkInterval, midnight: nat, lo: nat, hi: nat, today: bool)
    requires x.start < midnight <= x.end && lo <= hi && if today then hi <= midnight else midnight <= lo || hi <= x.start
    ensures OverlapMinutes(x, lo, hi)
         == (if today then OverlapMinutes(WorkInterval(x.start, midnight), lo, hi) else 0)
            + OverlapMinutes(WorkInterval(midnight, x.end), lo, hi)
  {
  }

  /** Between two times of one day only the part of that day counts. */
  lemma {:induction false} PartMinutes(x: WorkInterval, day: nat, lo: nat, hi: nat)
    requires x.start <= x.end && day * MINUTES_PER_DAY <= lo <= hi <= (day + 1) * MINUTES_PER_DAY
    ensures MinutesIn(PartsOf(SplitByDay(x), day), lo, hi) == OverlapMinutes(x, lo, hi)
    decreases x.end - x.start
  {
    if DayOf(x.start) < DayOf(x.end) {
      var midnight := NextMidnight(x.start);
      var first, rest := WorkInterval(x.start, midnight), WorkInterval(midnight, x.end);
      MidnightNext(x.start, x.end);
      PartMinutes(rest, day, lo, hi);
      CutAtMidnight(x, midnight, lo, hi, DayOf(x.start) == day);
      var head := if DayOf(x.start) == day then [first] else [];
      assert SplitByDay(x)[1..] == SplitByDay(rest);
      assert PartsOf(SplitByDay(x), day) == head + PartsOf(SplitByDay(rest), day);
      MinutesConcat(head, PartsOf(SplitByDay(rest), day), lo, hi);
      assert [first][1..] == [];
    } else if x.start < x.end {
      SameDaySplit(x);
      var one := [DayPart(DayOf(x.start), x)];
      assert one[1..] == [];
      assert PartsOf(one, day) == if DayOf(x.start) == day then [x] else [];
      assert [x][1..] == [];
    }
  }

  lemma {:induction false} DayPartsMinutes(s: seq<WorkInterval>, day: nat, lo: nat, hi: nat)
    requires forall i :: 0 <= i < |s| ==> s[i].start <= s[i].end
    requires day * MINUTES_PER_DAY <= lo <= hi <= (day + 1) * MINUTES_PER_DAY
    ensures MinutesIn(DayParts(s, day), lo, hi) == MinutesIn(s, lo, hi)
  {
    hide SplitByDay, PartsOf, OverlapMinutes;
    if s != [] {
      DayPartsMinutes(s[1..], day, lo, hi);
      PartMinutes(s[0], day, lo, hi);
      MinutesConcat(PartsOf(SplitByDay(s[0]), day), DayParts(s[1..], day), lo, hi);
    }
  }

  /** A window of a day counts the worked minutes in it. */
  lemma {:induction false} WindowCounts(s: seq<WorkInterval>, day: nat, from: nat, to: nat)
    requires Disjoint(s) && to <= 1440
    ensures WindowMinutes(DayParts(s, day), day, from, to)
         == CountWorked(s, AnyTime, day * MINUTES_PER_DAY + from, day * MINUTES_PER_DAY + to)
  {
    hide DayParts, OverlapMinutes, CountWorked, MinutesIn;
    var lo, hi := day * MINUTES_PER_DAY + from, day * MINUTES_PER_DAY + to;
    WindowIsMinutesIn(DayParts(s, day), day, from, to);
    if from <= to {
      DayPartsMinutes(s, day, lo, hi);
    } else {
      PartsForward(s, day);
      NoMinutes(DayParts(s, day), lo, hi);
      NoMinutes(s, lo, hi);
    }
    MinutesCounted(s, lo, hi);
  }

  lemma {:induction false} PartsForward(s: seq<WorkInterval>, day: nat)
    requires Disjoint(s)
    ensures InsideDay(DayParts(s, day), day)
  {
    DayPartsInside(s, day);
  }

  lemma {:induction false} TotalCounts(s: seq<WorkInterval>, day: nat)
    requires Disjoint(s)
    ensures TotalMinutes(DayParts(s, day)) == CountWorked(s, AnyTime, day * MINUTES_PER_DAY, (day + 1) * MINUTES_PER_DAY)
  {
    hide DayParts, CountWorked, Disjoint;
    PartsForward(s, day);
    WholeDayWindow(DayParts(s, day), day);
    WindowCounts(s, day, 0, 1440);
  }

  // ---- hours of a day ----

  lemma {:induction false} HoursOfDay(day: nat, t: nat)
    requires day * MINUTES_PER_DAY <= t < (day + 1) * MINUTES_PER_DAY
    ensures t % MINUTES_PER_DAY == t - day * MINUTES_PER_DAY && DayOf(t) == day
  {
  }

  lemma {:induction false} NightCounts(s: seq<WorkInterval>, day: nat)
    requires Disjoint(s)
    ensures NightMinutes(DayParts(s, day), day)
         == CountWorked(s, NightTime, day * MINUTES_PER_DAY, (day + 1) * MINUTES_PER_DAY)
  {
    hide DayParts, CountWorked, WindowMinutes, Disjoint;
    var first := day * MINUTES_PER_DAY;
    forall t | first <= t < first + 1440 ensures Within(NightTime, t) == (t < first + 360 || first + 1320 <= t) {
      HoursOfDay(day, t);
    }
    WindowCounts(s, day, 0, 360); WindowCounts(s, day, 1320, 1440);
    CountSplit(s, NightTime, first, first + 360, first + 1440);
    CountSplit(s, NightTime, first + 360, first + 1320, first + 1440);
    CountUniform(s, NightTime, first, first + 360, true);
    CountUniform(s, NightTime, first + 360, first + 1320, false);
    CountUniform(s, NightTime, first + 1320, first + 1440, true);
  }

  lemma {:induction false} AfternoonCounts(s: seq<WorkInterval>, day: nat, start: nat)
    requires Disjoint(s)
    ensures WindowMinutes(DayParts(s, day), day, start, 1320)
         == CountWorked(s, AfternoonFrom(start), day * MINUTES_PER_DAY, (day + 1) * MINUTES_PER_DAY)
  {
    hide DayParts, CountWorked, WindowMinutes, Disjoint;
    var first, h := day * MINUTES_PER_DAY, AfternoonFrom(start);
    forall t | first <= t < first + 1440 ensures Within(h, t) == (first + start <= t < first + 1320) {
      HoursOfDay(day, t);
    }
    WindowCounts(s, day, start, 1320);
    if start <= 1320 {
      CountSplit(s, h, first, first + start, first + 1440);
      CountSplit(s, h, first + start, first + 1320, first + 1440);
      CountUniform(s, h, first, first + start, false);
      CountUniform(s, h, first + start, first + 1320, true);
      CountUniform(s, h, first + 1320, first + 1440, false);
    } else {
      CountUniform(s, h, first, first + 1440, false);
      CountUniform(s, AnyTime, first + start, first + 1320, true);
      NothingBackwards(s, first + start, first + 1320);
    }
  }

  lemma {:induction false} NothingBackwards(s: seq<WorkInterval>, lo: nat, hi: nat)
    requires hi <= lo
    ensures CountWorked(s, AnyTime, lo, hi) == 0
  {
  }

  /** Categories that count whole days. */
  lemma {:induction false} WholeDayCounts(s: seq<WorkInterval>, day: nat, h: Hours, counts: bool)
    requires Disjoint(s) && (h == Weekends ==> counts == (Weekday(day) >= 5))
    requires h == PublicHolidays ==> counts == Holidays.IsPublicHoliday(day)
    requires h == Weekends || h == PublicHolidays
    ensures (if counts then TotalMinutes(DayParts(s, day)) else 0)
         == CountWorked(s, h, day * MINUTES_PER_DAY, (day + 1) * MINUTES_PER_DAY)
  {
    hide DayParts, CountWorked, TotalMinutes, Disjoint, Holidays.IsPublicHoliday;
    var lo, hi := day * MINUTES_PER_DAY, (day + 1) * MINUTES_PER_DAY;
    forall t | lo <= t < hi ensures Within(h, t) == counts {
      HoursOfDay(day, t);
      WeekdaysEndAtSix(day);
    }
    TotalCounts(s, day);
    CountUniform(s, h, lo, hi, counts);
  }

  lemma {:induction false} WeekdaysEndAtSix(day: nat)
    ensures Weekday(day) >= 5 <==> day % 7 == 5 || day % 7 == 6
  {
  }

  lemma {:induction false} MetricShows(minutes: nat)
    ensures Shows(Some(Metric(minutes)), minutes)
  {
    MetricNear(minutes);
  }

  /** Every figure of a day counts exactly the worked minutes of its hours on that day, rounded to the
      nearest tenth of an hour; a category that is not kept has no figure. */
  lemma {:induction false} DayFigure(profile: Profile, day: nat, s: seq<WorkInterval>, g: Figure)
    requires Disjoint(s)
    ensures var d := DailyMetricsOf(profile, day, s);
      && (d.Some? <==> profile.kind != TaskShiftBased)
      && (d.Some? ==> (FigureOf(d.value, g).Some? <==> Tracked(profile, g)))
      && (Tracked(profile, g) ==>
            Shows(FigureOf(d.value, g),
                  CountWorked(s, HoursOf(profile, g), day * MINUTES_PER_DAY, (day + 1) * MINUTES_PER_DAY)))
  {
    hide DayParts, CountWorked, TotalMinutes, WindowMinutes, NightMinutes, Disjoint, Holidays.IsPublicHoliday, Shows, RoundToTenths;
    MetricShows(CountWorked(s, HoursOf(profile, g), day * MINUTES_PER_DAY, (day + 1) * MINUTES_PER_DAY));
    match g
    case Total => TotalCounts(s, day);
    case Afternoon => AfternoonCounts(s, day, AfternoonStart(profile));
    case Night => NightCounts(s, day);
    case Weekend => WholeDayCounts(s, day, Weekends, Weekday(day) >= 5);
    case PublicHoliday => WholeDayCounts(s, day, PublicHolidays, Holidays.IsPublicHoliday(day));
  }

  // ---- all days together ----

  /** Reported totals of the days from `lo` up to and excluding `hi`. */
  function ReportedTotals(profile: Profile, s: seq<WorkInterval>, lo: nat, hi: nat): nat
    requires profile.kind != TaskShiftBased
    decreases hi - lo
  {
    if hi <= lo then 0
    else DailyMetricsOf(profile, lo, s).value.total.minutes + ReportedTotals(profile, s, lo + 1, hi)
  }

  function Lengths(s: seq<WorkInterval>): int {
    if s == [] then 0 else s[0].end - s[0].start + Lengths(s[1..])
  }

  lemma {:induction false} ReportedAreDailyTotals(profile: Profile, s: seq<WorkInterval>, lo: nat, hi: nat)
    requires profile.kind != TaskShiftBased && lo <= hi
    ensures ReportedTotals(profile, s, lo, hi) == DailyTotals(s, lo, hi)
    decreases hi - lo
  {
    hide DayParts, WindowMinutes, NightMinutes, Holidays.IsPublicHoliday, TotalMinutes;
    if lo < hi {
      ReportedAreDailyTotals(profile, s, lo + 1, hi);
    }
  }

  lemma {:induction false} TotalIsLengths(s: seq<WorkInterval>)
    requires forall k :: 0 <= k < |s| ==> s[k].start <= s[k].end
    ensures TotalMinutes(s) == Lengths(s)
  {
    if s != [] {
      TotalIsLengths(s[1..]);
    }
  }

  /** The reported totals of all days add up to the lengths of the intervals, overlapping or not. */
  lemma {:induction false} TotalsConserved(profile: Profile, s: seq<WorkInterval>, lo: nat, hi: nat)
    requires profile.kind != TaskShiftBased && lo <= hi
    requires forall k :: 0 <= k < |s| ==> s[k].start <= s[k].end && lo <= DayOf(s[k].start) && DayOf(s[k].end) < hi
    ensures ReportedTotals(profile, s, lo, hi) == Lengths(s)
  {
    hide DayOf, ReportedTotals, DailyTotals;
    ReportedAreDailyTotals(profile, s, lo, hi);
    MinutesConserved(s, lo, hi);
    TotalIsLengths(s);
  }

  // ---- planned time ----

  predicate PlannedMinute(plans: map<nat, Plan>, t: nat) {
    && DayOf(t) in plans
    && var plan := plans[DayOf(t)];
       plan.arrival.Some? && plan.departure.Some? && plan.arrival.value <= t % MINUTES_PER_DAY < plan.departure.value
  }

  lemma {:induction false} PlanPartAt(plans: map<nat, Plan>, day: nat, t: nat)
    ensures WorkedAt(PlanParts(plans, day), t) <==> DayOf(t) == day && PlannedMinute(plans, t)
  {
    var parts := PlanParts(plans, day);
    if DayOf(t) == day {
      HoursOfDay(day, t);
    }
    if parts != [] {
      PlanWithinDay(day, plans[day]);
      if parts[0].start <= t < parts[0].end {
        DayMonotone(parts[0].start, t); DayMonotone(t, parts[0].end);
      }
    }
    if DayOf(t) == day && PlannedMinute(plans, t) {
      assert parts[0].start <= t < parts[0].end;
    }
  }

  lemma {:induction false} PlanPartForward(plans: map<nat, Plan>, day: nat)
    ensures |PlanParts(plans, day)| <= 1 && forall x :: x in PlanParts(plans, day) ==>
      x.start < x.end && day * MINUTES_PER_DAY <= x.start && x.end <= (day + 1) * MINUTES_PER_DAY
  {
  }

  lemma {:induction false} WorkedConcat(a: seq<WorkInterval>, b: seq<WorkInterval>, t: nat)
    ensures WorkedAt(a + b, t) <==> WorkedAt(a, t) || WorkedAt(b, t)
  {
    var s := a + b;
    if i :| 0 <= i < |a| && a[i].start <= t < a[i].end { assert s[i] == a[i]; }
    if i :| 0 <= i < |b| && b[i].start <= t < b[i].end { assert s[|a| + i] == b[i]; }
    if i :| 0 <= i < |s| && s[i].start <= t < s[i].end {
      if i < |a| { assert a[i] == s[i]; } else { assert b[i - |a|] == s[i]; }
    }
  }

  /** A minute is planned exactly when it lies between arrival and departure of its own day's plan; the
      planned intervals of different days share none. */
  lemma {:induction false} PlannedAt(plans: map<nat, Plan>, lo: nat, hi: nat, t: nat)
    ensures WorkedAt(PlannedIntervals(plans, lo, hi), t) <==> lo <= DayOf(t) < hi && PlannedMinute(plans, t)
    decreases hi - lo
  {
    hide DayOf, PlanParts, PlannedMinute, WorkedAt;
    if hi <= lo {
      NothingWorked(t);
    } else {
      PlannedAt(plans, lo + 1, hi, t);
      PlanPartAt(plans, lo, t);
      WorkedConcat(PlanParts(plans, lo), PlannedIntervals(plans, lo + 1, hi), t);
    }
  }

  lemma {:induction false} PlannedDisjoint(plans: map<nat, Plan>, lo: nat, hi: nat)
    ensures Disjoint(PlannedIntervals(plans, lo, hi))
    ensures forall x :: x in PlannedIntervals(plans, lo, hi) ==> lo * MINUTES_PER_DAY <= x.start
    decreases hi - lo
  {
    hide PlanParts;
    if lo < hi {
      PlannedDisjoint(plans, lo + 1, hi);
      PlanPartForward(plans, lo);
      var a, b := PlanParts(plans, lo), PlannedIntervals(plans, lo + 1, hi);
      forall i | 0 <= i < |a| ensures a[i] in a { }
      forall i | 0 <= i < |b| ensures b[i] in b { }
    }
  }

  // ---- the stored columns ----

  /** The columns of a category in a cache row. */
  function ColumnOf(row: Row, g: Figure): (Option<nat>, Option<nat>) {
    match g
    case Total => (Some(row.totalMinutes), Some(row.totalTenths))
    case Afternoon => (row.afternoonMinutes, row.afternoonTenths)
    case Night => (row.nightMinutes, row.nightTenths)
    case Weekend => (row.weekendMinutes, row.weekendTenths)
    case PublicHoliday => (row.holidayMinutes, row.holidayTenths)
  }

  /** The intervals a day's figures are counted on. */
  function SourceIntervals(f: Facts, source: Source, m: nat): seq<WorkInterval> {
    match source
    case Attendance => PairEvents(f.events)
    case ShiftPlan => PlannedIntervals(f.plans, MonthStart(m), MonthStart(m + 1))
  }

  lemma {:induction false} SourceDisjoint(f: Facts, source: Source, m: nat)
    requires Distinct(f.events)
    ensures Disjoint(SourceIntervals(f, source, m))
  {
    hide PairEvents, PlannedIntervals, Disjoint, Distinct;
    SheetDisjoint(f.events);
    PlannedDisjoint(f.plans, MonthStart(m), MonthStart(m + 1));
  }

  /** In a canonical row the columns of a category that is kept hold its counted minutes and their
      tenths, and those of other categories nothing. */
  lemma {:induction false} CanonicalColumns(f: Facts, key: Key, g: Figure)
    requires Distinct(f.events) && CanonicalRow(f, key).Some?
    ensures CanonicalRow(f, key).value.revision == 2
    ensures var column := ColumnOf(CanonicalRow(f, key).value, g);
      && (column.0.Some? <==> Tracked(f.profile, g)) && (column.1.Some? <==> Tracked(f.profile, g))
      && (Tracked(f.profile, g) ==>
            Shows(Some(MetricValue(column.0.value, column.1.value)),
                  CountWorked(SourceIntervals(f, key.source, MonthOf(key.day)), HoursOf(f.profile, g),
                              key.day * MINUTES_PER_DAY, (key.day + 1) * MINUTES_PER_DAY)))
  {
    hide AttendancePresent, PlanPresent, DailyMetricsOf, PairEvents, PlannedIntervals, CountWorked, Disjoint, Distinct, Shows,
      MonthOf, MonthStart, HoursOf;
    var s := SourceIntervals(f, key.source, MonthOf(key.day));
    SourceDisjoint(f, key.source, MonthOf(key.day));
    DayFigure(f.profile, key.day, s, g);
  }

  /** Something of a source is recorded on the day. */
  ghost predicate RecordedOn(f: Facts, source: Source, day: nat) {
    match source
    case Attendance => day in f.attendance || DayTimes(f.events, day) != {}
    case ShiftPlan => day in f.plans
  }

  lemma {:induction false} SeenIsRecorded(f: Facts, day: nat)
    requires Distinct(f.events)
    ensures AttendanceSeen(Day(f, None, day)) <==> RecordedOn(f, Attendance, day)
    ensures PlanSeen(Day(f, None, day)) <==> RecordedOn(f, ShiftPlan, day)
  {
    hide DayOf, OfDay, Ordered, Distinct, DayTimes, Planned, Worked, StatusMetricsOf, EffectiveStatus, DayIntervals, PlanParts,
      MetricsOfParts;
    NoTimesNoRows(f.events, day);
    WorkedFromDay(f, day); PlannedFromDay(f, day);
    if f.profile.kind != TaskShiftBased {
      NoPartsNoMinutes(f.profile, day);
    }
    if OfDay(f.events, day) == [] {
      NoEventsNoIntervals(f.events, day);
    }
    if day !in f.plans {
      NoPlanNoParts(f.plans, day);
    }
  }

  /** A key has a canonical row exactly when the employment is paid by time and something of the source is
      recorded on some day of its month. */
  lemma {:induction false} RowsOfMonth(f: Facts, key: Key)
    requires Distinct(f.events)
    ensures CanonicalRow(f, key).Some? <==>
      f.profile.kind != TaskShiftBased && exists day :: MonthOf(day) == MonthOf(key.day) && RecordedOn(f, key.source, day)
  {
    hide MonthOf, Day, AttendanceSeen, PlanSeen, RecordedOn, MetricsOfParts, PairEvents, PlannedIntervals, Distinct, RowOf, MonthStart;
    forall day
      ensures AttendanceSeen(Day(f, None, day)) <==> RecordedOn(f, Attendance, day)
      ensures PlanSeen(Day(f, None, day)) <==> RecordedOn(f, ShiftPlan, day)
    {
      SeenIsRecorded(f, day);
    }
  }
}
