/** What the figures of a month mean: sums over its days, and so counts of worked and planned minutes and of
    days with a credited status (app/services/month_summary.py). */
module Reports {
  import opened Options
  import opened Calendar
  import opened Intervals
  import opened Metrics
  import opened Minutes
  import opened Summary
  import opened Cache
  import opened Sheets
  import opened Figures
  import opened Ledger
  import opened BreakEffect
  import opened Invariants
  import opened Runs

  // ---- sums ----

  /** Sums of the first `n` values, absent ones counting nothing. */
  ghost function MinutesTo(values: seq<Option<MetricValue>>, n: nat): nat
    requires n <= |values|
  {
    if n == 0 then 0 else MinutesTo(values, n - 1) + if values[n - 1].Some? then values[n - 1].value.minutes else 0
  }

  ghost function TenthsTo(values: seq<Option<MetricValue>>, n: nat): nat
    requires n <= |values|
  {
    if n == 0 then 0 else TenthsTo(values, n - 1) + if values[n - 1].Some? then values[n - 1].value.tenths else 0
  }

  /** `v` is the sum of the values present, and absent itself exactly when all of them are. */
  ghost predicate IsSum(v: Option<MetricValue>, values: seq<Option<MetricValue>>) {
    && (v == None <==> forall i :: 0 <= i < |values| ==> values[i] == None)
    && (v.Some? ==> v.value == MetricValue(MinutesTo(values, |values|), TenthsTo(values, |values|)))
  }

  lemma {:induction false} PrefixSums(values: seq<Option<MetricValue>>, n: nat)
    requires 1 <= n <= |values|
    ensures MinutesTo(values, n)
         == (if values[0].Some? then values[0].value.minutes else 0) + MinutesTo(values[1..], n - 1)
    ensures TenthsTo(values, n)
         == (if values[0].Some? then values[0].value.tenths else 0) + TenthsTo(values[1..], n - 1)
  {
    if n > 1 {
      PrefixSums(values, n - 1);
      assert values[1..][n - 2] == values[n - 1];
    }
  }

  lemma {:induction false} NoValuesNoSums(values: seq<Option<MetricValue>>, n: nat)
    requires n <= |values| && forall i :: 0 <= i < |values| ==> values[i] == None
    ensures MinutesTo(values, n) == 0 && TenthsTo(values, n) == 0
  {
    if n > 0 {
      NoValuesNoSums(values, n - 1);
    }
  }

  lemma {:induction false} SumOfIsSum(values: seq<Option<MetricValue>>)
    ensures IsSum(SumOf(values), values)
  {
    if values != [] {
      var rest := values[1..];
      SumOfIsSum(rest);
      PrefixSums(values, |values|);
      assert forall i :: 0 <= i < |rest| ==> rest[i] == values[i + 1];
      assert forall i :: 0 < i < |values| ==> values[i] == rest[i - 1];
      if SumOf(rest) == None {
        NoValuesNoSums(rest, |rest|);
      }
    }
  }

  // ---- the figures of a month ----

  function TotalsFigure(t: Option<Totals>, g: Figure): Option<MetricValue> {
    if t == None then None
    else
      match g
      case Total => t.value.total
      case Afternoon => t.value.afternoon
      case Night => t.value.night
      case Weekend => t.value.weekend
      case PublicHoliday => t.value.publicHoliday
  }

  /** A figure of a month, worked or planned. */
  function SummaryFigure(s: MonthSummary, source: Source, g: Figure): Option<MetricValue> {
    match source
    case Attendance => TotalsFigure(s.worked, g)
    case ShiftPlan => TotalsFigure(s.planned, g)
  }

  function ValueOn(v: Option<DailyMetrics>, g: Figure): Option<MetricValue> {
    if v == None then None else FigureOf(v.value, g)
  }

  /** The same figure of every day. */
  function DailyValues(days: seq<DaySummary>, source: Source, g: Figure): seq<Option<MetricValue>> {
    seq(|days|, i requires 0 <= i < |days| => ValueOn(ValueFor(days[i], source), g))
  }

  function ValuesOn(values: seq<Option<DailyMetrics>>, g: Figure): seq<Option<MetricValue>> {
    seq(|values|, i requires 0 <= i < |values| => ValueOn(values[i], g))
  }

  function FieldsOf(values: seq<DailyMetrics>, g: Figure): seq<Option<MetricValue>> {
    seq(|values|, i requires 0 <= i < |values| => FigureOf(values[i], g))
  }

  lemma {:induction false} TotalsOfFields(values: seq<DailyMetrics>, g: Figure)
    ensures TotalsFigure(TotalsOf(values), g) == SumOf(FieldsOf(values, g))
  {
    if values != [] {
      hide SumOf;
      var n := |values|;
      assert FieldsOf(values, Total) == seq(n, i requires 0 <= i < n => Some(values[i].total));
      assert FieldsOf(values, Afternoon) == seq(n, i requires 0 <= i < n => values[i].afternoon);
      assert FieldsOf(values, Night) == seq(n, i requires 0 <= i < n => values[i].night);
      assert FieldsOf(values, Weekend) == seq(n, i requires 0 <= i < n => values[i].weekend);
      assert FieldsOf(values, PublicHoliday) == seq(n, i requires 0 <= i < n => values[i].publicHoliday);
    }
  }

  lemma {:induction false} SumOverPresent(values: seq<Option<DailyMetrics>>, g: Figure)
    ensures SumOf(FieldsOf(Present(values), g)) == SumOf(ValuesOn(values, g))
  {
    if values != [] {
      SumOverPresent(values[1..], g);
      assert ValuesOn(values, g)[1..] == ValuesOn(values[1..], g);
      if values[0].Some? {
        assert FieldsOf(Present(values), g)[1..] == FieldsOf(Present(values[1..]), g);
      } else {
        assert Present(values) == Present(values[1..]);
      }
    }
  }

  /** Each figure of a month, worked or planned, is the sum of that figure over the month's days, in
      minutes and in tenths, and missing exactly when every day misses it. */
  lemma {:induction false} MonthFigure(f: Facts, persisted: Option<Table>, m: nat, source: Source, g: Figure)
    ensures var s := MonthSummaryOf(f, persisted, m);
      IsSum(SummaryFigure(s, source, g), DailyValues(s.days, source, g))
  {
    hide SumOf, TotalsOf, Present, Days, IsSum, FigureOf;
    SummaryFields(f, persisted, m);
    var days := MonthSummaryOf(f, persisted, m).days;
    var values := if source == Attendance then WorkedValues(days) else PlannedValues(days);
    TotalsOfFields(Present(values), g);
    SumOverPresent(values, g);
    SumOfIsSum(ValuesOn(values, g));
    assert ValuesOn(values, g) == DailyValues(days, source, g);
  }

  /** The days of a summary are the month's days, in order. */
  lemma {:induction false} MonthDays(f: Facts, persisted: Option<Table>, m: nat)
    ensures var days := MonthSummaryOf(f, persisted, m).days;
      && MonthStart(m) + |days| == MonthStart(m + 1)
      && forall i :: 0 <= i < |days| ==>
           days[i].date == MonthStart(m) + i && MonthOf(days[i].date) == m && days[i] == Day(f, persisted, days[i].date)
  {
    hide WorkedOf, PlannedOf, EffectiveStatus, StatusMetricsOf, DayState, MonthStart;
    MonthStartMonotone(m, m + 1);
    var days := MonthSummaryOf(f, persisted, m).days;
    forall i | 0 <= i < |days| ensures MonthOf(days[i].date) == m {
      MonthUnique(days[i].date, m);
    }
  }

  // ---- counted over the month ----

  lemma {:induction false} SumIsCount(values: seq<Option<MetricValue>>, s: seq<WorkInterval>, h: Hours, lo: nat, n: nat)
    requires n <= |values|
    requires forall i :: 0 <= i < |values| ==>
      Shows(values[i], CountWorked(s, h, (lo + i) * MINUTES_PER_DAY, (lo + i + 1) * MINUTES_PER_DAY))
    ensures MinutesTo(values, n) == CountWorked(s, h, lo * MINUTES_PER_DAY, (lo + n) * MINUTES_PER_DAY)
  {
    hide CountWorked;
    if n > 0 {
      SumIsCount(values, s, h, lo, n - 1);
      CountSplit(s, h, lo * MINUTES_PER_DAY, (lo + n - 1) * MINUTES_PER_DAY, (lo + n) * MINUTES_PER_DAY);
      assert Shows(values[n - 1], CountWorked(s, h, (lo + (n - 1)) * MINUTES_PER_DAY, (lo + (n - 1) + 1) * MINUTES_PER_DAY));
    } else {
      NoTimeNoCount(s, h, lo * MINUTES_PER_DAY);
    }
  }

  lemma {:induction false} NoTimeNoCount(s: seq<WorkInterval>, h: Hours, t: nat)
    ensures CountWorked(s, h, t, t) == 0
  {
  }

  /** One day's figure of a recomputed summary. */
  lemma {:induction false} DayCounts(f: Facts, day: nat, source: Source, g: Figure)
    requires Distinct(f.events)
    ensures var v := ValueOn(ValueFor(Day(f, None, day), source), g);
      && (v.Some? <==> Tracked(f.profile, g))
      && (v.Some? ==> Shows(v, CountWorked(SourceIntervals(f, source, MonthOf(day)), HoursOf(f.profile, g),
                                           day * MINUTES_PER_DAY, (day + 1) * MINUTES_PER_DAY)))
  {
    hide DailyMetricsOf, PairEvents, PlannedIntervals, CountWorked, Disjoint, Distinct, Shows, MonthOf, MonthStart, HoursOf,
      FigureOf, DayState, StatusMetricsOf, EffectiveStatus, Tracked;
    SourceDisjoint(f, source, MonthOf(day));
    DayFigure(f.profile, day, SourceIntervals(f, source, MonthOf(day)), g);
    assert !Tracked(f.profile, g) || f.profile.kind != TaskShiftBased by { TrackedHourly(f.profile, g); }
  }

  lemma {:induction false} TrackedHourly(profile: Profile, g: Figure)
    ensures Tracked(profile, g) ==> profile.kind != TaskShiftBased
  {
  }

  /** Every figure of a month counts exactly the month's worked, or planned, minutes that fall into the
      hours of its category; it is missing exactly when the employment does not keep the category. */
  lemma {:induction false} MonthCounts(f: Facts, m: nat, source: Source, g: Figure)
    requires Distinct(f.events)
    ensures var v := SummaryFigure(MonthSummaryOf(f, None, m), source, g);
      && (v.Some? <==> Tracked(f.profile, g))
      && (v.Some? ==>
            v.value.minutes == CountWorked(SourceIntervals(f, source, m), HoursOf(f.profile, g),
                                           MonthStart(m) * MINUTES_PER_DAY, MonthStart(m + 1) * MINUTES_PER_DAY))
  {
    hide MonthSummaryOf, Day, CountWorked, Tracked, HoursOf, Shows, SourceIntervals, MonthStart, MonthOf, Distinct, ValueOn,
      ValueFor, SummaryFigure;
    MonthFigure(f, None, m, source, g);
    MonthDays(f, None, m);
    MonthNotEmpty(m);
    var days := MonthSummaryOf(f, None, m).days;
    var values := DailyValues(days, source, g);
    forall i | 0 <= i < |values|
      ensures values[i].Some? <==> Tracked(f.profile, g)
      ensures values[i].Some? ==>
        Shows(values[i], CountWorked(SourceIntervals(f, source, m), HoursOf(f.profile, g),
                                     (MonthStart(m) + i) * MINUTES_PER_DAY, (MonthStart(m) + i + 1) * MINUTES_PER_DAY))
    {
      DayCounts(f, days[i].date, source, g);
    }
    if Tracked(f.profile, g) {
      assert values[0].Some?;
      SumIsCount(values, SourceIntervals(f, source, m), HoursOf(f.profile, g), MonthStart(m), |values|);
    }
  }

  /** So after any run, whether read from the cache or recomputed. */
  lemma {:induction false} ReportedAfterAnyRun(states: seq<State>, ops: seq<Op>, m: nat, source: Source, g: Figure)
    requires Run(states, ops) && Initial(states[0]) && Tracked(states[|ops|].facts.profile, g)
    ensures var s := states[|ops|];
      var v := SummaryFigure(MonthSummaryOf(s.facts, Some(s.table), m), source, g);
      v.Some? && v.value.minutes
        == CountWorked(SourceIntervals(s.facts, source, m), HoursOf(s.facts.profile, g),
                       MonthStart(m) * MINUTES_PER_DAY, MonthStart(m + 1) * MINUTES_PER_DAY)
  {
    hide MonthSummaryOf, CountWorked, Tracked, HoursOf, SourceIntervals, MonthStart, Step, Initial, CacheExact, Distinct,
      Exclusive, Contained, SummaryFigure;
    RunKeepsInv(states, ops);
    ReadsAreExactAfterAnyRun(states, ops, m);
    MonthCounts(states[|ops|].facts, m, source, g);
  }

  // ---- planned time and credited statuses ----

  /** Length of a day's plan. */
  function PlannedLength(plans: map<nat, Plan>, day: nat): int {
    if day in plans && plans[day].arrival.Some? && plans[day].departure.Some?
       && plans[day].arrival.value < plans[day].departure.value
    then plans[day].departure.value - plans[day].arrival.value else 0
  }

  lemma {:induction false} PlanPartsLength(plans: map<nat, Plan>, day: nat)
    ensures TotalMinutes(PlanParts(plans, day)) == PlannedLength(plans, day)
  {
    var parts := PlanParts(plans, day);
    if parts != [] {
      var x := parts[0];
      assert parts == [x] && parts[1..] == [];
      assert x.end - x.start == PlannedLength(plans, day);
      assert TotalMinutes(parts) == x.end - x.start + TotalMinutes(parts[1..]);
    }
  }

  /** A day's planned total is departure minus arrival. */
  lemma {:induction false} PlannedDayTotal(f: Facts, day: nat)
    requires f.profile.kind != TaskShiftBased
    ensures Planned(f, day).Some? && Planned(f, day).value.total.minutes == PlannedLength(f.plans, day)
  {
    hide WindowMinutes, NightMinutes, Holidays.IsPublicHoliday, Planned, TotalMinutes, PlanParts, PlannedLength;
    PlannedFromDay(f, day);
    PlanPartsLength(f.plans, day);
  }

  lemma {:induction false} IncreasingCount(ts: seq<nat>)
    requires Increasing(ts)
    ensures |(set t | t in ts)| == |ts|
  {
    if ts != [] {
      var last := ts[|ts| - 1];
      RankSplits(ts, last);
      RankCounts(ts, last);
      assert TimesUpTo(ts, last) == set t | t in ts;
    } else {
      assert (set t | t in ts) == {};
    }
  }

  lemma {:induction false} DayTimesCount(events: seq<Event>, day: nat)
    requires Distinct(events)
    ensures |DayTimes(events, day)| == |OfDay(Ordered(events), day)|
  {
    hide DayOf, OfDay, Ordered, Distinct, DayTimes;
    var ts := Times(OfDay(Ordered(events), day));
    DayTimesIncreasing(events, day);
    DayRowsTimes(events, day);
    IncreasingCount(ts);
    assert DayTimes(events, day) == set t | t in ts;
  }

  /** The records shown for a day: its punches are complete when there is a positive even number of them,
      its plan when it has a length, and a status in the attendance row comes before one in the plan. */
  lemma {:induction false} DayRecords(f: Facts, day: nat)
    requires Distinct(f.events)
    ensures var d, n := Day(f, None, day), |DayTimes(f.events, day)|;
      && (d.workedState == Empty <==> n == 0) && (d.workedState == Complete <==> n > 0 && n % 2 == 0)
      && (d.plannedState == Complete <==> f.profile.kind != TaskShiftBased && PlannedLength(f.plans, day) != 0)
      && (d.attendance.Some? <==> day in f.attendance) && (d.plan.Some? <==> day in f.plans)
      && d.effectiveStatus
        == (if d.attendance.Some? && d.attendance.value.Some? then d.attendance.value
            else if d.plan.Some? then d.plan.value.status else None)
  {
    hide DayOf, OfDay, Ordered, Distinct, DayTimes, DayState, Planned, Worked, StatusMetricsOf, PlannedLength;
    DayStateByParity(f.events, day);
    DayTimesCount(f.events, day);
    if f.profile.kind != TaskShiftBased {
      PlannedDayTotal(f, day);
    } else {
      assert Planned(f, day) == None by { PlannedFromDay(f, day); }
    }
  }

  /** The month's credited figure of a status. */
  function Credit(s: MonthSummary, status: Status): Option<MetricValue> {
    match status
    case Vacation => s.statusMetrics.vacation
    case DayOff => None
    case Sickness => s.statusMetrics.sickness
    case Paragraph => s.statusMetrics.paragraph
  }

  /** Days from `lo` up to and excluding `hi` on which a status applies. */
  ghost function DaysWith(f: Facts, status: Status, lo: nat, hi: nat): set<nat> {
    set day | lo <= day < hi && EffectiveStatus(f, day) == Some(status)
  }

  predicate Credited(profile: Profile, status: Status) {
    profile.kind != TaskShiftBased && status != DayOff
  }

  function CreditsOf(days: seq<DaySummary>, status: Status): seq<Option<MetricValue>> {
    seq(|days|, i requires 0 <= i < |days| => CreditOn(days[i], status))
  }

  function CreditOn(day: DaySummary, status: Status): Option<MetricValue> {
    match status
    case Vacation => day.statusMetrics.vacation
    case DayOff => None
    case Sickness => day.statusMetrics.sickness
    case Paragraph => day.statusMetrics.paragraph
  }

  lemma {:induction false} CreditOfDay(f: Facts, persisted: Option<Table>, day: nat, status: Status)
    ensures CreditOn(Day(f, persisted, day), status)
         == if Credited(f.profile, status) && EffectiveStatus(f, day) == Some(status) then Some(MetricValue(480, 80)) else None
  {
    hide EffectiveStatus, WorkedOf, PlannedOf, DayState;
  }

  lemma {:induction false} OneMoreDayWith(f: Facts, status: Status, lo: nat, hi: nat)
    requires lo <= hi
    ensures |DaysWith(f, status, lo, hi + 1)|
         == |DaysWith(f, status, lo, hi)| + if EffectiveStatus(f, hi) == Some(status) then 1 else 0
  {
    hide EffectiveStatus;
    var few, more := DaysWith(f, status, lo, hi), DaysWith(f, status, lo, hi + 1);
    assert more == few + if EffectiveStatus(f, hi) == Some(status) then {hi} else {};
    assert hi !in few;
  }

  lemma {:induction false} CreditSums(f: Facts, status: Status, values: seq<Option<MetricValue>>, lo: nat, n: nat)
    requires n <= |values| && Credited(f.profile, status)
    requires forall i :: 0 <= i < |values| ==>
      values[i] == if EffectiveStatus(f, lo + i) == Some(status) then Some(MetricValue(480, 80)) else None
    ensures MinutesTo(values, n) == 480 * |DaysWith(f, status, lo, lo + n)|
    ensures TenthsTo(values, n) == 80 * |DaysWith(f, status, lo, lo + n)|
  {
    hide EffectiveStatus, DaysWith;
    if n == 0 {
      assert DaysWith(f, status, lo, lo) == {} by { NoDaysWith(f, status, lo); }
    } else {
      CreditSums(f, status, values, lo, n - 1);
      OneMoreDayWith(f, status, lo, lo + n - 1);
    }
  }

  lemma {:induction false} NoDaysWith(f: Facts, status: Status, lo: nat)
    ensures DaysWith(f, status, lo, lo) == {}
  {
  }

  lemma {:induction false} CreditIsSum(f: Facts, persisted: Option<Table>, m: nat, status: Status)
    requires status != DayOff
    ensures var s := MonthSummaryOf(f, persisted, m); IsSum(Credit(s, status), CreditsOf(s.days, status))
  {
    hide SumOf, TotalsOf, Present, Days, IsSum;
    SummaryFields(f, persisted, m);
    var days := MonthSummaryOf(f, persisted, m).days;
    var values := StatusValues(days);
    SumOfIsSum(CreditsOf(days, status));
    assert CreditsOf(days, Vacation) == seq(|values|, i requires 0 <= i < |values| => values[i].vacation);
    assert CreditsOf(days, Sickness) == seq(|values|, i requires 0 <= i < |values| => values[i].sickness);
    assert CreditsOf(days, Paragraph) == seq(|values|, i requires 0 <= i < |values| => values[i].paragraph);
  }

  /** A month credits eight hours for every day with a vacation, sickness or paragraph status, each under
      its own name; none to a task-based employment, and none for days off. */
  lemma {:induction false} MonthCredits(f: Facts, persisted: Option<Table>, m: nat, status: Status)
    ensures var n := |DaysWith(f, status, MonthStart(m), MonthStart(m + 1))|;
      Credit(MonthSummaryOf(f, persisted, m), status)
        == if Credited(f.profile, status) && n > 0 then Some(MetricValue(480 * n, 80 * n)) else None
  {
    hide MonthSummaryOf, EffectiveStatus, Day, MonthStart, MonthOf, CreditOn, DaysWith;
    if status != DayOff {
      var s := MonthSummaryOf(f, persisted, m);
      var values, lo := CreditsOf(s.days, status), MonthStart(m);
      CreditIsSum(f, persisted, m, status);
      MonthDays(f, persisted, m);
      forall i | 0 <= i < |values|
        ensures values[i]
             == if Credited(f.profile, status) && EffectiveStatus(f, lo + i) == Some(status) then Some(MetricValue(480, 80)) else None
      {
        CreditOfDay(f, persisted, lo + i, status);
      }
      if Credited(f.profile, status) {
        CreditSums(f, status, values, lo, |values|);
        CreditedSomewhere(f, status, values, lo);
      }
    }
  }

  lemma {:induction false} CreditedSomewhere(f: Facts, status: Status, values: seq<Option<MetricValue>>, lo: nat)
    requires forall i :: 0 <= i < |values| ==>
      values[i] == if EffectiveStatus(f, lo + i) == Some(status) then Some(MetricValue(480, 80)) else None
    ensures |DaysWith(f, status, lo, lo + |values|)| > 0 <==> exists i :: 0 <= i < |values| && values[i].Some?
  {
    hide EffectiveStatus;
    var days := DaysWith(f, status, lo, lo + |values|);
    if i :| 0 <= i < |values| && values[i].Some? {
      assert lo + i in days;
    }
    if |days| > 0 {
      var day :| day in days;
      assert values[day - lo].Some?;
    }
  }
}
