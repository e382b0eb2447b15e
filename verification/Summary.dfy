/** The stored facts of one employment, its month summary, and the cached daily metrics derived from
    them (app/services/month_summary.py, app/services/daily_metrics.py). */
module Summary {
  import opened Options
  import opened Calendar
  import opened Intervals
  import opened Metrics

  datatype Status = Vacation | DayOff | Sickness | Paragraph

  type MinuteOfDay = m: nat | m < 1440

  datatype Plan = Plan(arrival: Option<MinuteOfDay>, departure: Option<MinuteOfDay>, status: Option<Status>)

  datatype Facts = Facts(
    events: seq<Event>,
    attendance: map<nat, Option<Status>>,
    plans: map<nat, Plan>,
    profile: Profile,
    start: nat,
    end: Option<nat>)

  datatype Source = Attendance | ShiftPlan

  datatype Key = Key(day: nat, source: Source)

  /** One row of the cache table, column by column. */
  datatype Row = Row(
    totalMinutes: nat, totalTenths: nat,
    afternoonMinutes: Option<nat>, afternoonTenths: Option<nat>,
    nightMinutes: Option<nat>, nightTenths: Option<nat>,
    weekendMinutes: Option<nat>, weekendTenths: Option<nat>,
    holidayMinutes: Option<nat>, holidayTenths: Option<nat>,
    revision: nat)

  type Table = map<Key, Row>

  const CALCULATION_REVISION: nat := 2

  function Lookup(table: Table, key: Key): Option<Row> {
    if key in table then Some(table[key]) else None
  }

  // ---- rows and values ----

  function MinutesOf(v: Option<MetricValue>): Option<nat> {
    if v.Some? then Some(v.value.minutes) else None
  }

  function TenthsOf(v: Option<MetricValue>): Option<nat> {
    if v.Some? then Some(v.value.tenths) else None
  }

  function RowOf(m: DailyMetrics): Row {
    Row(m.total.minutes, m.total.tenths,
        MinutesOf(m.afternoon), TenthsOf(m.afternoon), MinutesOf(m.night), TenthsOf(m.night),
        MinutesOf(m.weekend), TenthsOf(m.weekend), MinutesOf(m.publicHoliday), TenthsOf(m.publicHoliday),
        CALCULATION_REVISION)
  }

  function ValueOf(minutes: Option<nat>, tenths: Option<nat>): Option<MetricValue> {
    if minutes.Some? && tenths.Some? then Some(MetricValue(minutes.value, tenths.value)) else None
  }

  function StoredMetrics(row: Option<Row>, profile: Profile): Option<DailyMetrics> {
    match row
    case None => EmptyMetrics(profile)
    case Some(r) => Some(DailyMetrics(
      MetricValue(r.totalMinutes, r.totalTenths),
      ValueOf(r.afternoonMinutes, r.afternoonTenths), ValueOf(r.nightMinutes, r.nightTenths),
      ValueOf(r.weekendMinutes, r.weekendTenths), ValueOf(r.holidayMinutes, r.holidayTenths)))
  }

  /** Writing a day's metrics to a row and reading them back loses nothing. */
  lemma {:induction false} RowRoundTrip(m: DailyMetrics, profile: Profile)
    ensures StoredMetrics(Some(RowOf(m)), profile) == Some(m)
  {
  }

  // ---- planned intervals ----

  function PlanInterval(day: nat, plan: Plan): Option<WorkInterval> {
    if plan.arrival == None || plan.departure == None then None
    else
      var start, end := day * MINUTES_PER_DAY + plan.arrival.value, day * MINUTES_PER_DAY + plan.departure.value;
      if end <= start then None else Some(WorkInterval(start, end))
  }

  /** Intervals of the plans from day `lo` up to and excluding `hi`, in date order. */
  function PlannedIntervals(plans: map<nat, Plan>, lo: nat, hi: nat): seq<WorkInterval>
    decreases hi - lo
  {
    if hi <= lo then [] else PlanParts(plans, lo) + PlannedIntervals(plans, lo + 1, hi)
  }

  function PlanParts(plans: map<nat, Plan>, day: nat): seq<WorkInterval> {
    if day in plans && PlanInterval(day, plans[day]).Some? then [PlanInterval(day, plans[day]).value] else []
  }

  function Worked(f: Facts, day: nat): Option<DailyMetrics> {
    DailyMetricsOf(f.profile, day, PairEvents(f.events))
  }

  function Planned(f: Facts, day: nat): Option<DailyMetrics> {
    var m := MonthOf(day);
    DailyMetricsOf(f.profile, day, PlannedIntervals(f.plans, MonthStart(m), MonthStart(m + 1)))
  }

  // ---- the month summary ----

  datatype StatusMetrics = StatusMetrics(
    vacation: Option<MetricValue>, sickness: Option<MetricValue>, paragraph: Option<MetricValue>)

  /** Eight credited hours for a full-day status of an hourly employment; none for a day off. */
  function StatusMetricsOf(profile: Profile, status: Option<Status>): StatusMetrics {
    var credited := profile.kind != TaskShiftBased && status.Some? && status.value != DayOff;
    var value := if credited then Some(Metric(480)) else None;
    StatusMetrics(
      if status == Some(Vacation) then value else None,
      if status == Some(Sickness) then value else None,
      if status == Some(Paragraph) then value else None)
  }

  datatype DaySummary = DaySummary(
    date: nat,
    attendance: Option<Option<Status>>,
    plan: Option<Plan>,
    effectiveStatus: Option<Status>,
    worked: Option<DailyMetrics>,
    planned: Option<DailyMetrics>,
    workedState: WorkedState,
    plannedState: WorkedState,
    statusMetrics: StatusMetrics)

  datatype Totals = Totals(
    total: Option<MetricValue>, afternoon: Option<MetricValue>, night: Option<MetricValue>,
    weekend: Option<MetricValue>, publicHoliday: Option<MetricValue>)

  datatype MonthSummary = MonthSummary(
    days: seq<DaySummary>, worked: Option<Totals>, planned: Option<Totals>, statusMetrics: StatusMetrics)

  function Get<T>(rows: map<nat, T>, day: nat): Option<T> {
    if day in rows then Some(rows[day]) else None
  }

  function EffectiveStatus(f: Facts, day: nat): Option<Status> {
    if day in f.attendance && f.attendance[day].Some? then f.attendance[day]
    else if day in f.plans then f.plans[day].status
    else None
  }

  function WorkedOf(f: Facts, persisted: Option<Table>, day: nat): Option<DailyMetrics> {
    if persisted.Some? then StoredMetrics(Lookup(persisted.value, Key(day, Attendance)), f.profile) else Worked(f, day)
  }

  function PlannedOf(f: Facts, persisted: Option<Table>, day: nat): Option<DailyMetrics> {
    if persisted.Some? then StoredMetrics(Lookup(persisted.value, Key(day, ShiftPlan)), f.profile) else Planned(f, day)
  }

  /** One day; with a table the metrics are read from it, without one they are computed. */
  function Day(f: Facts, persisted: Option<Table>, day: nat): DaySummary {
    var planned := PlannedOf(f, persisted, day);
    DaySummary(
      day, Get(f.attendance, day), Get(f.plans, day), EffectiveStatus(f, day),
      WorkedOf(f, persisted, day), planned,
      DayState(f.events, day),
      if planned.Some? && planned.value.total.minutes != 0 then Complete else Empty,
      StatusMetricsOf(f.profile, EffectiveStatus(f, day)))
  }

  function Days(f: Facts, persisted: Option<Table>, lo: nat, hi: nat): (days: seq<DaySummary>)
    requires lo <= hi
    ensures |days| == hi - lo && forall i :: 0 <= i < |days| ==> days[i] == Day(f, persisted, lo + i)
  {
    hide Day;
    seq(hi - lo, i requires 0 <= i < hi - lo => Day(f, persisted, lo + i))
  }

  /** Sum over the values present; nothing when there is none. */
  function SumOf(values: seq<Option<MetricValue>>): Option<MetricValue> {
    if values == [] then None
    else
      var rest := SumOf(values[1..]);
      match values[0]
      case None => rest
      case Some(v) =>
        if rest == None then Some(v) else Some(MetricValue(v.minutes + rest.value.minutes, v.tenths + rest.value.tenths))
  }

  function Present(metrics: seq<Option<DailyMetrics>>): seq<DailyMetrics> {
    if metrics == [] then []
    else (if metrics[0].Some? then [metrics[0].value] else []) + Present(metrics[1..])
  }

  function TotalsOf(values: seq<DailyMetrics>): Option<Totals> {
    if values == [] then None
    else Some(Totals(
      SumOf(seq(|values|, i requires 0 <= i < |values| => Some(values[i].total))),
      SumOf(seq(|values|, i requires 0 <= i < |values| => values[i].afternoon)),
      SumOf(seq(|values|, i requires 0 <= i < |values| => values[i].night)),
      SumOf(seq(|values|, i requires 0 <= i < |values| => values[i].weekend)),
      SumOf(seq(|values|, i requires 0 <= i < |values| => values[i].publicHoliday))))
  }

  function SummaryOf(f: Facts, days: seq<DaySummary>): MonthSummary {
    MonthSummary(
      days,
      TotalsOf(Present(seq(|days|, i requires 0 <= i < |days| => days[i].worked))),
      TotalsOf(Present(seq(|days|, i requires 0 <= i < |days| => days[i].planned))),
      StatusMetrics(
        SumOf(seq(|days|, i requires 0 <= i < |days| => days[i].statusMetrics.vacation)),
        SumOf(seq(|days|, i requires 0 <= i < |days| => days[i].statusMetrics.sickness)),
        SumOf(seq(|days|, i requires 0 <= i < |days| => days[i].statusMetrics.paragraph))))
  }

  function MonthSummaryOf(f: Facts, persisted: Option<Table>, m: nat): MonthSummary {
    MonthStartMonotone(m, m + 1);
    SummaryOf(f, Days(f, persisted, MonthStart(m), MonthStart(m + 1)))
  }

  // ---- the canonical cache ----

  /** The predicates behind `month_summary_source_presence`, on one day. */
  predicate AttendanceSeen(d: DaySummary) {
    d.attendance.Some? || d.workedState != Empty || (d.worked.Some? && d.worked.value.total.minutes > 0)
  }

  predicate PlanSeen(d: DaySummary) {
    d.plan.Some? || d.plannedState != Empty || (d.planned.Some? && d.planned.value.total.minutes > 0)
  }

  ghost predicate AttendancePresent(f: Facts, m: nat) {
    exists day :: MonthOf(day) == m && AttendanceSeen(Day(f, None, day))
  }

  ghost predicate PlanPresent(f: Facts, m: nat) {
    exists day :: MonthOf(day) == m && PlanSeen(Day(f, None, day))
  }

  /** The row that full recomputation would store under a key. */
  ghost function CanonicalRow(f: Facts, key: Key): Option<Row> {
    match key.source
    case Attendance =>
      if AttendancePresent(f, MonthOf(key.day)) && Worked(f, key.day).Some?
      then Some(RowOf(Worked(f, key.day).value)) else None
    case ShiftPlan =>
      if PlanPresent(f, MonthOf(key.day)) && Planned(f, key.day).Some?
      then Some(RowOf(Planned(f, key.day).value)) else None
  }

  ghost predicate CacheExact(f: Facts, table: Table) {
    forall key :: Lookup(table, key) == CanonicalRow(f, key)
  }

  // ---- a day's metrics depend on that day's facts ----

  lemma {:induction false} SameDaySplit(x: WorkInterval)
    requires x.start < x.end && DayOf(x.start) == DayOf(x.end)
    ensures SplitByDay(x) == [DayPart(DayOf(x.start), x)]
  {
  }

  lemma {:induction false} PairPartsOfDay(pairs: seq<(Event, Event)>, day: nat)
    requires forall k :: 0 <= k < |pairs| ==>
      pairs[k].0.at < pairs[k].1.at && DayOf(pairs[k].0.at) == DayOf(pairs[k].1.at)
    ensures DayParts(IntervalsOf(pairs), day) == IntervalsOf(PairsOfDay(pairs, day))
  {
    hide DayOf, SplitByDay;
    if pairs != [] {
      var x := IntervalsOf(pairs)[0];
      SameDaySplit(x);
      assert IntervalsOf(pairs)[1..] == IntervalsOf(pairs[1..]);
      PairPartsOfDay(pairs[1..], day);
      var one := [DayPart(DayOf(x.start), x)];
      assert one[1..] == [];
      assert PartsOf(one, day) == if DayOf(x.start) == day then [x] else [];
    }
  }

  /** The worked parts of a day are the pairs of that day's times. */
  lemma {:induction false} WorkedParts(events: seq<Event>, day: nat)
    ensures DayParts(PairEvents(events), day) == DayIntervals(events, day)
  {
    OrderedSorted(events);
    PairsDisjoint(Ordered(events));
    PairPartsOfDay(PairRows(Ordered(events)), day);
  }

  lemma {:induction false} PartsConcat(a: seq<WorkInterval>, b: seq<WorkInterval>, day: nat)
    ensures DayParts(a + b, day) == DayParts(a, day) + DayParts(b, day)
  {
    if a == [] {
      assert a + b == b;
    } else {
      assert (a + b)[1..] == a[1..] + b;
      PartsConcat(a[1..], b, day);
      Assoc(PartsOf(SplitByDay(a[0]), day), DayParts(a[1..], day), DayParts(b, day));
    }
  }

  lemma {:induction false} OnePlanParts(plans: map<nat, Plan>, planDay: nat, day: nat)
    ensures DayParts(PlanParts(plans, planDay), day) == if planDay == day then PlanParts(plans, day) else []
  {
    var parts := PlanParts(plans, planDay);
    if parts != [] {
      var x := parts[0];
      PlanWithinDay(planDay, plans[planDay]);
      SameDaySplit(x);
      assert parts[1..] == [];
      var one := [DayPart(DayOf(x.start), x)];
      assert one[1..] == [];
      assert PartsOf(one, day) == if planDay == day then [x] else [];
    }
  }

  lemma {:induction false} PlanWithinDay(day: nat, plan: Plan)
    requires PlanInterval(day, plan).Some?
    ensures var x := PlanInterval(day, plan).value;
      x.start < x.end && DayOf(x.start) == day && DayOf(x.end) == day
  {
  }

  /** The planned parts of a day come from that day's plan alone. */
  lemma {:induction false} PlannedParts(plans: map<nat, Plan>, lo: nat, hi: nat, day: nat)
    ensures DayParts(PlannedIntervals(plans, lo, hi), day) == if lo <= day < hi then PlanParts(plans, day) else []
    decreases hi - lo
  {
    hide PlanParts;
    if lo < hi {
      PlannedParts(plans, lo + 1, hi, day);
      OnePlanParts(plans, lo, day);
      PartsConcat(PlanParts(plans, lo), PlannedIntervals(plans, lo + 1, hi), day);
    }
  }

  lemma {:induction false} PlannedFromDay(f: Facts, day: nat)
    ensures Planned(f, day)
         == if f.profile.kind == TaskShiftBased then None else Some(MetricsOfParts(f.profile, day, PlanParts(f.plans, day)))
  {
    hide MetricsOfParts, MonthStart;
    var m := MonthOf(day);
    PlannedParts(f.plans, MonthStart(m), MonthStart(m + 1), day);
  }

  lemma {:induction false} WorkedFromDay(f: Facts, day: nat)
    ensures Worked(f, day)
         == if f.profile.kind == TaskShiftBased then None
            else Some(MetricsOfParts(f.profile, day, DayIntervals(f.events, day)))
  {
    hide MetricsOfParts;
    WorkedParts(f.events, day);
  }

  lemma {:induction false} NoPartsNoMinutes(profile: Profile, day: nat)
    requires profile.kind != TaskShiftBased
    ensures EmptyMetrics(profile) == Some(MetricsOfParts(profile, day, []))
  {
    hide Holidays.IsPublicHoliday;
  }

  lemma {:induction false} NoEventsNoIntervals(events: seq<Event>, day: nat)
    requires DayState(events, day) == Empty
    ensures DayIntervals(events, day) == []
  {
    OrderedSorted(events);
    OrderedOfDay(events, day);
    PairRowsOfDay(Ordered(events), day);
  }

  // ---- reading the cache is recomputing ----

  /** With an exact cache a stored read of either source returns what recomputation returns. */
  lemma {:induction false} PersistedDay(f: Facts, table: Table, day: nat)
    requires CacheExact(f, table)
    ensures Day(f, Some(table), day) == Day(f, None, day)
  {
    hide MetricsOfParts, DayState, DayIntervals, PlanParts, MonthOf, Worked, Planned;
    var d := Day(f, None, day);
    WorkedFromDay(f, day); PlannedFromDay(f, day);
    var w, p := Key(day, Attendance), Key(day, ShiftPlan);
    assert Lookup(table, w) == CanonicalRow(f, w) && Lookup(table, p) == CanonicalRow(f, p);
    if f.profile.kind != TaskShiftBased {
      NoPartsNoMinutes(f.profile, day);
      if !AttendancePresent(f, MonthOf(day)) {
        assert !AttendanceSeen(d);
        NoEventsNoIntervals(f.events, day);
      }
      if !PlanPresent(f, MonthOf(day)) {
        assert !PlanSeen(d);
        NoPlanNoParts(f.plans, day);
      }
      RowRoundTrip(d.worked.value, f.profile);
      RowRoundTrip(d.planned.value, f.profile);
    }
  }

  lemma {:induction false} NoPlanNoParts(plans: map<nat, Plan>, day: nat)
    requires day !in plans
    ensures PlanParts(plans, day) == []
  {
  }

  lemma {:induction false} PersistedDays(f: Facts, table: Table, lo: nat, hi: nat)
    requires CacheExact(f, table) && lo <= hi
    ensures Days(f, Some(table), lo, hi) == Days(f, None, lo, hi)
  {
    hide Day, CacheExact;
    var stored, computed := Days(f, Some(table), lo, hi), Days(f, None, lo, hi);
    forall i | 0 <= i < hi - lo ensures stored[i] == computed[i] {
      PersistedDay(f, table, lo + i);
    }
  }

  /** An exact cache makes `use_persisted=True` return what `use_persisted=False` returns. */
  lemma {:induction false} PersistedReadsAreExact(f: Facts, table: Table, m: nat)
    requires CacheExact(f, table)
    ensures MonthSummaryOf(f, Some(table), m) == MonthSummaryOf(f, None, m)
  {
    hide CacheExact, Day;
    MonthStartMonotone(m, m + 1);
    PersistedDays(f, table, MonthStart(m), MonthStart(m + 1));
  }

  // ---- canonical rows are local to their month ----

  /** The two fact sets agree on one day. */
  ghost predicate SameDay(f: Facts, g: Facts, day: nat) {
    && DayTimes(f.events, day) == DayTimes(g.events, day)
    && Get(f.attendance, day) == Get(g.attendance, day)
    && Get(f.plans, day) == Get(g.plans, day)
  }

  /** Everything about a profile that metrics read. */
  ghost predicate SameMetricProfile(p: Profile, q: Profile) {
    && p.kind == q.kind && p.afternoonEnabled == q.afternoonEnabled && p.afternoonStart == q.afternoonStart
    && p.nightEnabled == q.nightEnabled && p.weekendEnabled == q.weekendEnabled && p.holidayEnabled == q.holidayEnabled
  }

  lemma {:induction false} SamePartsSameMetrics(p: Profile, q: Profile, day: nat, parts: seq<WorkInterval>)
    requires SameMetricProfile(p, q)
    ensures MetricsOfParts(p, day, parts) == MetricsOfParts(q, day, parts)
  {
    hide WindowMinutes, NightMinutes, TotalMinutes, Holidays.IsPublicHoliday;
  }

  lemma {:induction false} DayLocal(f: Facts, g: Facts, day: nat)
    requires Distinct(f.events) && Distinct(g.events) && SameMetricProfile(f.profile, g.profile) && SameDay(f, g, day)
    ensures Worked(f, day) == Worked(g, day) && Planned(f, day) == Planned(g, day)
    ensures AttendanceSeen(Day(f, None, day)) == AttendanceSeen(Day(g, None, day))
    ensures PlanSeen(Day(f, None, day)) == PlanSeen(Day(g, None, day))
  {
    hide MetricsOfParts, DayState, DayIntervals, DayTimes, Worked, Planned, Distinct, StatusMetricsOf;
    DayIntervalsLocal(f.events, g.events, day);
    DayStateLocal(f.events, g.events, day);
    WorkedFromDay(f, day); WorkedFromDay(g, day);
    PlannedFromDay(f, day); PlannedFromDay(g, day);
    assert PlanParts(f.plans, day) == PlanParts(g.plans, day);
    SamePartsSameMetrics(f.profile, g.profile, day, DayIntervals(f.events, day));
    SamePartsSameMetrics(f.profile, g.profile, day, PlanParts(f.plans, day));
  }

  /** Months whose days keep their facts keep their canonical rows. */
  lemma {:induction false} CanonicalLocal(f: Facts, g: Facts, m: nat)
    requires Distinct(f.events) && Distinct(g.events) && SameMetricProfile(f.profile, g.profile)
    requires forall day :: MonthOf(day) == m ==> SameDay(f, g, day)
    ensures forall key: Key :: MonthOf(key.day) == m ==> CanonicalRow(f, key) == CanonicalRow(g, key)
  {
    hide Distinct, SameMetricProfile, SameDay, Worked, Planned, AttendanceSeen, PlanSeen, Day, MonthOf;
    forall day | MonthOf(day) == m
      ensures Worked(f, day) == Worked(g, day) && Planned(f, day) == Planned(g, day)
      ensures AttendanceSeen(Day(f, None, day)) == AttendanceSeen(Day(g, None, day))
      ensures PlanSeen(Day(f, None, day)) == PlanSeen(Day(g, None, day))
    {
      DayLocal(f, g, day);
    }
    assert AttendancePresent(f, m) == AttendancePresent(g, m);
    assert PlanPresent(f, m) == PlanPresent(g, m);
  }

  // ---- resynchronising months ----

  /** After a resync the given months hold their canonical rows and every other row is untouched. */
  ghost predicate Synced(f: Facts, before: Table, after: Table, months: set<nat>) {
    forall key :: Lookup(after, key) == if MonthOf(key.day) in months then CanonicalRow(f, key) else Lookup(before, key)
  }

  /** The central step: an exact cache stays exact when every month in which some day's facts
      changed is resynchronised. */
  lemma {:induction false} SyncKeepsExact(f: Facts, g: Facts, before: Table, after: Table, months: set<nat>)
    requires Distinct(f.events) && Distinct(g.events) && SameMetricProfile(f.profile, g.profile)
    requires CacheExact(f, before) && Synced(g, before, after, months)
    requires forall day :: MonthOf(day) !in months ==> SameDay(f, g, day)
    ensures CacheExact(g, after)
  {
    hide Distinct, SameMetricProfile, SameDay, CanonicalRow, MonthOf, Lookup;
    forall key: Key ensures Lookup(after, key) == CanonicalRow(g, key) {
      assert Lookup(before, key) == CanonicalRow(f, key);
      if MonthOf(key.day) !in months {
        CanonicalLocal(f, g, MonthOf(key.day));
      }
    }
  }
}
