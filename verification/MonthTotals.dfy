/** What a month summary's figures satisfy: categories bounded by totals, and rounding that drifts by at
    most three minutes a day (app/services/time_metrics.py, app/services/month_summary.py). */
module MonthTotals {
  import opened Options
  import opened Calendar
  import opened Intervals
  import opened Metrics
  import opened Summary
  import opened Cache

  // ---- days ----

  lemma {:induction false} PartsOfInside(parts: seq<DayPart>, day: nat)
    requires forall k :: 0 <= k < |parts| ==> PartInDay(parts[k])
    ensures InsideDay(PartsOf(parts, day), day)
  {
    if parts != [] {
      PartsOfInside(parts[1..], day);
    }
  }

  lemma {:induction false} DayPartsInside(intervals: seq<WorkInterval>, day: nat)
    requires forall k :: 0 <= k < |intervals| ==> intervals[k].start < intervals[k].end
    ensures InsideDay(DayParts(intervals, day), day)
  {
    hide DayOf, SplitByDay, PartsOf;
    if intervals != [] {
      SplitPartitions(intervals[0]);
      PartsOfInside(SplitByDay(intervals[0]), day);
      DayPartsInside(intervals[1..], day);
    }
  }

  ghost predicate AtMost(v: Option<MetricValue>, total: MetricValue) {
    v.Some? ==> v.value.minutes <= total.minutes && v.value.tenths <= total.tenths
  }

  lemma {:induction false} MetricMonotone(a: nat, b: nat)
    requires a <= b
    ensures Metric(a).tenths <= Metric(b).tenths
  {
  }

  /** No category of a day ever exceeds the day's total, in minutes or in tenths. */
  lemma {:induction false} CategoriesAtMostTotal(profile: Profile, day: nat, intervals: seq<WorkInterval>)
    requires forall k :: 0 <= k < |intervals| ==> intervals[k].start < intervals[k].end
    requires AfternoonStart(profile) <= 1319 && profile.kind != TaskShiftBased
    ensures var d := DailyMetricsOf(profile, day, intervals).value;
      AtMost(d.afternoon, d.total) && AtMost(d.night, d.total) && AtMost(d.weekend, d.total) && AtMost(d.publicHoliday, d.total)
  {
    hide WindowMinutes, NightMinutes, TotalMinutes, DayParts, Holidays.IsPublicHoliday, Weekday, RoundToTenths;
    var parts, start := DayParts(intervals, day), AfternoonStart(profile);
    DayPartsInside(intervals, day);
    CategoriesWithinTotal(parts, day, start);
    MetricMonotone(NightMinutes(parts, day), TotalMinutes(parts));
    MetricMonotone(WindowMinutes(parts, day, start, 1320), TotalMinutes(parts));
    MetricMonotone(0, TotalMinutes(parts));
  }

  /** Around Easter: Good Friday and Easter Monday count in full as public holidays and not as weekend;
      Easter Sunday and the Saturday before count in full as weekend. */
  lemma {:induction false} EasterCategories(profile: Profile, year: nat, n: int, intervals: seq<WorkInterval>)
    requires 1 <= year && profile.kind != TaskShiftBased && profile.weekendEnabled && profile.holidayEnabled
    requires -2 <= n <= 1
    ensures Holidays.EasterSunday(year) >= 2
    ensures var d := DailyMetricsOf(profile, Holidays.EasterSunday(year) + n, intervals).value;
      && d.weekend == Some(if n == -1 || n == 0 then d.total else Metric(0))
      && (n == -2 || n == 1 ==> d.publicHoliday == Some(d.total))
  {
    hide WindowMinutes, NightMinutes, TotalMinutes, DayParts, Holidays.IsPublicHoliday, Holidays.EasterSunday, RoundToTenths;
    hide Weekday;
    Holidays.EasterWeekdays(year);
    Holidays.EasterIsSunday(year);
    Holidays.EasterDays(year);
  }

  // ---- months ----

  ghost predicate Rounded(v: Option<MetricValue>) {
    v.Some? ==> v.value == Metric(v.value.minutes)
  }

  ghost predicate RoundedDay(d: DailyMetrics) {
    Rounded(Some(d.total)) && Rounded(d.afternoon) && Rounded(d.night) && Rounded(d.weekend) && Rounded(d.publicHoliday)
  }

  /** The tenths stand for the minutes up to two minutes less, or three minutes more, a day. */
  ghost predicate Near(v: Option<MetricValue>, days: nat) {
    v.Some? ==> -2 * days <= 6 * v.value.tenths - v.value.minutes <= 3 * days
  }

  lemma {:induction false} SumNear(values: seq<Option<MetricValue>>)
    requires forall i :: 0 <= i < |values| ==> Rounded(values[i])
    ensures Near(SumOf(values), |values|)
  {
    if values != [] {
      SumNear(values[1..]);
      if values[0].Some? {
        MetricNear(values[0].value.minutes);
      }
    }
  }

  lemma {:induction false} MetricNear(minutes: nat)
    ensures -2 <= 6 * Metric(minutes).tenths - minutes <= 3
  {
  }

  lemma {:induction false} PresentRounded(values: seq<Option<DailyMetrics>>)
    requires forall i :: 0 <= i < |values| && values[i].Some? ==> RoundedDay(values[i].value)
    ensures |Present(values)| <= |values| && forall i :: 0 <= i < |Present(values)| ==> RoundedDay(Present(values)[i])
  {
    hide RoundedDay;
    if values != [] {
      PresentRounded(values[1..]);
    }
  }

  ghost predicate TotalsNear(t: Option<Totals>, days: nat) {
    t.Some? ==> Near(t.value.total, days) && Near(t.value.afternoon, days) && Near(t.value.night, days)
                && Near(t.value.weekend, days) && Near(t.value.publicHoliday, days)
  }

  lemma {:induction false} TotalsOfNear(values: seq<DailyMetrics>, days: nat)
    requires |values| <= days && forall i :: 0 <= i < |values| ==> RoundedDay(values[i])
    ensures TotalsNear(TotalsOf(values), days)
  {
    hide SumOf, Rounded;
    if values != [] {
      var n := |values|;
      SumNear(seq(n, i requires 0 <= i < n => Some(values[i].total)));
      SumNear(seq(n, i requires 0 <= i < n => values[i].afternoon));
      SumNear(seq(n, i requires 0 <= i < n => values[i].night));
      SumNear(seq(n, i requires 0 <= i < n => values[i].weekend));
      SumNear(seq(n, i requires 0 <= i < n => values[i].publicHoliday));
      var t := TotalsOf(values).value;
      NearMore(t.total, n, days); NearMore(t.afternoon, n, days); NearMore(t.night, n, days);
      NearMore(t.weekend, n, days); NearMore(t.publicHoliday, n, days);
    }
  }

  lemma {:induction false} NearMore(v: Option<MetricValue>, few: nat, many: nat)
    requires few <= many && Near(v, few)
    ensures Near(v, many)
  {
  }

  lemma {:induction false} ComputedDayRounded(f: Facts, day: nat)
    ensures var d := Day(f, None, day);
      (d.worked.Some? ==> RoundedDay(d.worked.value)) && (d.planned.Some? ==> RoundedDay(d.planned.value))
  {
    hide WindowMinutes, NightMinutes, TotalMinutes, DayParts, PlannedIntervals, PairEvents, MonthOf, MonthStart,
      Holidays.IsPublicHoliday, Weekday, RoundToTenths, DayState, StatusMetricsOf;
  }

  ghost predicate RoundedDays(days: seq<DaySummary>) {
    forall i :: 0 <= i < |days| ==>
      && (days[i].worked.Some? ==> RoundedDay(days[i].worked.value))
      && (days[i].planned.Some? ==> RoundedDay(days[i].planned.value))
  }

  lemma {:induction false} ComputedDaysRounded(f: Facts, lo: nat, hi: nat)
    requires lo <= hi
    ensures RoundedDays(Days(f, None, lo, hi))
  {
    hide Day, RoundedDay;
    var days := Days(f, None, lo, hi);
    forall i | 0 <= i < |days|
      ensures days[i].worked.Some? ==> RoundedDay(days[i].worked.value)
      ensures days[i].planned.Some? ==> RoundedDay(days[i].planned.value)
    {
      ComputedDayRounded(f, lo + i);
    }
  }

  lemma {:induction false} DaysDrift(days: seq<DaySummary>)
    requires RoundedDays(days)
    ensures TotalsNear(TotalsOf(Present(WorkedValues(days))), |days|)
    ensures TotalsNear(TotalsOf(Present(PlannedValues(days))), |days|)
  {
    hide RoundedDay, TotalsOf, TotalsNear, Present;
    PresentRounded(WorkedValues(days));
    PresentRounded(PlannedValues(days));
    TotalsOfNear(Present(WorkedValues(days)), |days|);
    TotalsOfNear(Present(PlannedValues(days)), |days|);
  }

  /** In every month, and in every category of worked and of planned time, the reported tenths stay
      within two minutes below and three minutes above the exact time for each day of the month. */
  lemma {:induction false} MonthDrift(f: Facts, m: nat)
    ensures var s := MonthSummaryOf(f, None, m);
      TotalsNear(s.worked, |s.days|) && TotalsNear(s.planned, |s.days|)
  {
    hide *;
    SummaryFields(f, None, m);
    ComputedDaysRounded(f, MonthStart(m), MonthStart(m + 1));
    DaysDrift(Days(f, None, MonthStart(m), MonthStart(m + 1)));
  }
}
