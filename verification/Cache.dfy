/** The metric cache as the program maintains it: building a month summary, replacing a month's rows,
    rebuilding everything, and the independent repair script (app/services/month_summary.py,
    app/services/daily_metrics.py, scripts/rebuild_daily_time_metrics.py). */
module Cache {
  import opened Options
  import opened Calendar
  import opened Intervals
  import opened Metrics
  import opened Summary

  // ---- build_month_summaries for one employment ----

  lemma {:induction false} DaysAppend(f: Facts, persisted: Option<Table>, lo: nat, hi: nat)
    requires lo <= hi
    ensures Days(f, persisted, lo, hi + 1) == Days(f, persisted, lo, hi) + [Day(f, persisted, hi)]
  {
    hide Day;
  }

  lemma {:induction false} PresentAppend(a: seq<Option<DailyMetrics>>, x: Option<DailyMetrics>)
    ensures Present(a + [x]) == Present(a) + if x.Some? then [x.value] else []
  {
    if a == [] {
      assert [x][1..] == [];
    } else {
      assert (a + [x])[1..] == a[1..] + [x];
      PresentAppend(a[1..], x);
      Assoc(if a[0].Some? then [a[0].value] else [], Present(a[1..]), if x.Some? then [x.value] else []);
    }
  }

  function WorkedValues(days: seq<DaySummary>): seq<Option<DailyMetrics>> {
    seq(|days|, i requires 0 <= i < |days| => days[i].worked)
  }

  function PlannedValues(days: seq<DaySummary>): seq<Option<DailyMetrics>> {
    seq(|days|, i requires 0 <= i < |days| => days[i].planned)
  }

  lemma {:induction false} ValuesAppend(days: seq<DaySummary>, item: DaySummary)
    ensures Present(WorkedValues(days + [item]))
         == Present(WorkedValues(days)) + if item.worked.Some? then [item.worked.value] else []
    ensures Present(PlannedValues(days + [item]))
         == Present(PlannedValues(days)) + if item.planned.Some? then [item.planned.value] else []
  {
    PresentAppend(WorkedValues(days), item.worked);
    PresentAppend(PlannedValues(days), item.planned);
    assert WorkedValues(days + [item]) == WorkedValues(days) + [item.worked];
    assert PlannedValues(days + [item]) == PlannedValues(days) + [item.planned];
  }

  function StatusValues(days: seq<DaySummary>): seq<StatusMetrics> {
    seq(|days|, i requires 0 <= i < |days| => days[i].statusMetrics)
  }

  lemma {:induction false} StatusAppend(days: seq<DaySummary>, item: DaySummary)
    ensures StatusValues(days + [item]) == StatusValues(days) + [item.statusMetrics]
  {
  }

  /** `_sum_status` for each status category. */
  function StatusTotals(values: seq<StatusMetrics>): StatusMetrics {
    StatusMetrics(
      SumOf(seq(|values|, i requires 0 <= i < |values| => values[i].vacation)),
      SumOf(seq(|values|, i requires 0 <= i < |values| => values[i].sickness)),
      SumOf(seq(|values|, i requires 0 <= i < |values| => values[i].paragraph)))
  }

  lemma {:induction false} StatusFromValues(f: Facts, days: seq<DaySummary>)
    ensures SummaryOf(f, days).statusMetrics == StatusTotals(StatusValues(days))
  {
    hide SumOf, TotalsOf, Present;
    var n, values := |days|, StatusValues(days);
    assert seq(n, i requires 0 <= i < n => values[i].vacation) == seq(n, i requires 0 <= i < n => days[i].statusMetrics.vacation);
    assert seq(n, i requires 0 <= i < n => values[i].sickness) == seq(n, i requires 0 <= i < n => days[i].statusMetrics.sickness);
    assert seq(n, i requires 0 <= i < n => values[i].paragraph) == seq(n, i requires 0 <= i < n => days[i].statusMetrics.paragraph);
  }

  lemma {:induction false} SummaryFields(f: Facts, persisted: Option<Table>, m: nat)
    ensures MonthStart(m) <= MonthStart(m + 1)
    ensures var days, s := Days(f, persisted, MonthStart(m), MonthStart(m + 1)), MonthSummaryOf(f, persisted, m);
      s == MonthSummary(days, TotalsOf(Present(WorkedValues(days))), TotalsOf(Present(PlannedValues(days))),
                        StatusTotals(StatusValues(days)))
  {
    hide Days, TotalsOf, Present, SumOf, StatusTotals, StatusValues;
    MonthStartMonotone(m, m + 1);
    StatusFromValues(f, Days(f, persisted, MonthStart(m), MonthStart(m + 1)));
  }

  method BuildMonthSummary(f: Facts, persisted: Option<Table>, m: nat) returns (summary: MonthSummary)
    ensures summary == MonthSummaryOf(f, persisted, m)
  {
    hide *;
    SummaryFields(f, persisted, m);
    var days, workedValues, plannedValues, statusValues := CollectDays(f, persisted, MonthStart(m), MonthStart(m + 1));
    summary := MonthSummary(days, TotalsOf(workedValues), TotalsOf(plannedValues), StatusTotals(statusValues));
  }

  /** The loop of `build_month_summaries`: the days, and the values they carry. */
  method CollectDays(f: Facts, persisted: Option<Table>, start: nat, end: nat)
    returns (days: seq<DaySummary>, workedValues: seq<DailyMetrics>, plannedValues: seq<DailyMetrics>,
             statusValues: seq<StatusMetrics>)
    requires start <= end
    ensures days == Days(f, persisted, start, end)
    ensures workedValues == Present(WorkedValues(days)) && plannedValues == Present(PlannedValues(days))
    ensures statusValues == StatusValues(days)
  {
    days, workedValues, plannedValues, statusValues := [], [], [], [];
    assert WorkedValues([]) == [] && PlannedValues([]) == [];
    hide Day, WorkedValues, PlannedValues, StatusValues;
    for day := start to end
      invariant days == Days(f, persisted, start, day)
      invariant workedValues == Present(WorkedValues(days))
      invariant plannedValues == Present(PlannedValues(days))
      invariant statusValues == StatusValues(days)
    {
      hide *;
      var item := Day(f, persisted, day);
      DaysAppend(f, persisted, start, day);
      ValuesAppend(days, item);
      StatusAppend(days, item);
      if item.worked.Some? {
        workedValues := workedValues + [item.worked.value];
      } else {
        assert workedValues + [] == workedValues;
      }
      if item.planned.Some? {
        plannedValues := plannedValues + [item.planned.value];
      } else {
        assert plannedValues + [] == plannedValues;
      }
      statusValues := statusValues + [item.statusMetrics];
      days := days + [item];
    }
  }

  // ---- which sources a month has ----

  lemma {:induction false} PresenceFromDays(f: Facts, m: nat, days: seq<DaySummary>)
    requires days == MonthSummaryOf(f, None, m).days
    ensures (exists i :: 0 <= i < |days| && AttendanceSeen(days[i])) <==> AttendancePresent(f, m)
    ensures (exists i :: 0 <= i < |days| && PlanSeen(days[i])) <==> PlanPresent(f, m)
  {
    hide Day, AttendanceSeen, PlanSeen, MonthStart, MonthOf;
    MonthStartMonotone(m, m + 1);
    var lo := MonthStart(m);
    forall i | 0 <= i < |days| ensures MonthOf(lo + i) == m && days[i] == Day(f, None, lo + i) {
      MonthUnique(lo + i, m);
    }
    forall day: nat | MonthOf(day) == m ensures 0 <= day - lo < |days| && days[day - lo] == Day(f, None, day) {
      MonthUnique(day, m);
    }
  }

  method SourcePresence(f: Facts, m: nat, summary: MonthSummary) returns (attendance: bool, plan: bool)
    requires summary == MonthSummaryOf(f, None, m)
    ensures attendance <==> AttendancePresent(f, m)
    ensures plan <==> PlanPresent(f, m)
  {
    attendance := exists i :: 0 <= i < |summary.days| && AttendanceSeen(summary.days[i]);
    plan := exists i :: 0 <= i < |summary.days| && PlanSeen(summary.days[i]);
    PresenceFromDays(f, m, summary.days);
  }

  // ---- months that have any facts ----

  function FactDays(f: Facts): set<nat> {
    var pairs := PairEvents(f.events);
    (set e | e in f.events :: DayOf(e.at))
      + (set k, p | 0 <= k < |pairs| && p in SplitByDay(pairs[k]) :: p.day)
      + f.attendance.Keys + f.plans.Keys
      + (set day, p | day in f.plans.Keys && p in PlanDayParts(day, f.plans[day]) :: p.day)
  }

  function PlanDayParts(day: nat, plan: Plan): seq<DayPart> {
    var x := PlanInterval(day, plan);
    if x.Some? then SplitByDay(x.value) else []
  }

  lemma {:induction false} MonthWithoutFacts(f: Facts, m: nat)
    requires m !in set day | day in FactDays(f) :: MonthOf(day)
    ensures forall key: Key :: MonthOf(key.day) == m ==> CanonicalRow(f, key) == None
  {
    hide MonthOf, MetricsOfParts, Worked, Planned, SplitByDay, PlanDayParts;
    forall day | MonthOf(day) == m ensures !AttendanceSeen(Day(f, None, day)) && !PlanSeen(Day(f, None, day)) {
      assert day !in FactDays(f);
      DayWithoutFacts(f, day);
    }
  }

  lemma {:induction false} DayWithoutFacts(f: Facts, day: nat)
    requires day !in FactDays(f)
    ensures !AttendanceSeen(Day(f, None, day)) && !PlanSeen(Day(f, None, day))
  {
    hide MetricsOfParts, Worked, Planned, SplitByDay, PlanDayParts, DayOf;
    OfDayEmpty(f.events, day);
    NoEventsNoIntervals(f.events, day);
    NoPlanNoParts(f.plans, day);
    WorkedFromDay(f, day);
    PlannedFromDay(f, day);
    if f.profile.kind != TaskShiftBased {
      NoPartsNoMinutes(f.profile, day);
    }
  }

  // ---- the cache table ----

  class MetricTable {
    var rows: Table

    constructor (initial: Table)
      ensures rows == initial
    {
      rows := initial;
    }

    /** Store one recomputed day, source by source. */
    method StoreDay(f: Facts, item: DaySummary, attendancePresent: bool, planPresent: bool)
      requires item == Day(f, None, item.date)
      requires attendancePresent == AttendancePresent(f, MonthOf(item.date))
      requires planPresent == PlanPresent(f, MonthOf(item.date))
      modifies this
      ensures forall key :: Lookup(rows, key)
                              == (if key.day == item.date && CanonicalRow(f, key).Some? then CanonicalRow(f, key) else Lookup(old(rows), key))
    {
      hide Day, MonthOf, AttendancePresent, PlanPresent, Worked, Planned, RowOf;
      DayFields(f, item.date);
      if attendancePresent && item.worked.Some? {
        rows := rows[Key(item.date, Attendance) := RowOf(item.worked.value)];
      }
      if planPresent && item.planned.Some? {
        rows := rows[Key(item.date, ShiftPlan) := RowOf(item.planned.value)];
      }
    }

    /** Store the recomputed days of a month whose rows were deleted. */
    method StoreDays(f: Facts, m: nat, days: seq<DaySummary>, attendancePresent: bool, planPresent: bool,
                     ghost lo: nat, ghost start: Table)
      requires Recomputed(f, m, days, lo)
      requires attendancePresent == AttendancePresent(f, m) && planPresent == PlanPresent(f, m)
      requires Refilled(f, start, m, lo, rows)
      modifies this
      ensures Refilled(f, start, m, lo + |days|, rows)
    {
      hide *;
      for i := 0 to |days|
        invariant Refilled(f, start, m, lo + i, rows)
      {
        RecomputedAt(f, m, days, lo, i);
        ghost var before := rows;
        StoreDay(f, days[i], attendancePresent, planPresent);
        RefillStep(f, start, m, lo + i, before, rows);
      }
    }

    /** `sync_employment_month_metrics`: delete the month's rows, then store the recomputed ones. */
    method SyncMonth(f: Facts, m: nat)
      modifies this
      ensures Synced(f, old(rows), rows, {m})
    {
      hide *;
      ghost var before := rows;
      rows := WithoutMonth(rows, m);
      MonthDropped(f, before, m);
      var summary := BuildMonthSummary(f, None, m);
      var attendancePresent, planPresent := SourcePresence(f, m, summary);
      MonthRecomputed(f, m, summary.days);
      StoreDays(f, m, summary.days, attendancePresent, planPresent, MonthStart(m), before);
      MonthSynced(f, before, m, rows);
    }

    /** `sync_employment_metric_months`. */
    method SyncMonths(f: Facts, months: set<nat>)
      modifies this
      ensures Synced(f, old(rows), rows, months)
    {
      hide CanonicalRow, MonthOf, Lookup;
      var todo := months;
      while todo != {}
        invariant todo <= months
        invariant Synced(f, old(rows), rows, months - todo)
        decreases todo
      {
        var m :| m in todo;
        SyncMonth(f, m);
        todo := todo - {m};
      }
    }

    /** The script's first loop: rows under keys it does not expect. */
    method DropUnexpected(expected: Table, apply: bool) returns (changed: nat)
      modifies this
      ensures changed == |Unexpected(old(rows), expected)|
      ensures forall key :: Lookup(rows, key)
                              == (if apply && key in Unexpected(old(rows), expected) then None else Lookup(old(rows), key))
    {
      ghost var stored, dropped: set<Key> := rows, {};
      var existing := set key | key in rows;
      changed := 0;
      while existing != {}
        invariant (forall key :: key in existing ==> key in stored) && dropped == Unexpected(stored, expected) - existing
        invariant changed == |dropped|
        invariant forall key :: Lookup(rows, key) == if apply && key in dropped then None else Lookup(stored, key)
        decreases existing
      {
        var key :| key in existing;
        existing := existing - {key};
        if key !in expected {
          dropped := dropped + {key};
          changed := changed + 1;
          if apply {
            rows := rows - {key};
          }
        }
      }
    }

    /** The script's second loop: expected rows that are missing or differ in some column. */
    method WriteExpected(expected: Table, apply: bool) returns (changed: nat)
      modifies this
      ensures changed == |Differing(old(rows), expected)|
      ensures forall key :: Lookup(rows, key)
                              == (if apply && key in Differing(old(rows), expected) then Lookup(expected, key) else Lookup(old(rows), key))
    {
      ghost var stored, written: set<Key> := rows, {};
      var todo := set key | key in expected;
      changed := 0;
      while todo != {}
        invariant (forall key :: key in todo ==> key in expected) && written == Differing(stored, expected) - todo
        invariant changed == |written|
        invariant forall key :: Lookup(rows, key) == if apply && key in written then Lookup(expected, key) else Lookup(stored, key)
        decreases todo
      {
        var key :| key in todo;
        todo := todo - {key};
        if Lookup(rows, key) != Lookup(expected, key) {
          written := written + {key};
          changed := changed + 1;
          if apply {
            rows := rows[key := expected[key]];
          }
        }
      }
    }

    /** `rebuild` for one employment: count the keys whose stored row is wrong, and repair them when
        asked to. The count is zero exactly when the table already is what recomputation gives. */
    method Rebuild(f: Facts, apply: bool) returns (changed: nat, ghost canonical: Table)
      modifies this
      ensures CacheExact(f, canonical) && changed == |WrongKeys(old(rows), canonical)|
      ensures changed == 0 <==> CacheExact(f, old(rows))
      ensures rows == if apply then canonical else old(rows)
    {
      hide CacheExact, FactDays, Unexpected, Differing, WrongKeys, Lookup;
      if FactDays(f) == {} {
        NoFactsNoRows(f);
        canonical := map[];
        changed := |rows|;
        WrongKeysOfEmpty(rows);
        if apply {
          rows := map[];
        }
      } else {
        var expected := ExpectAll(f);
        canonical := expected;
        var dropped := DropUnexpected(expected, apply);
        ghost var kept := rows;
        var written := WriteExpected(expected, apply);
        changed := dropped + written;
        WrongKeysCount(old(rows), expected);
        Repaired(old(rows), expected, kept, rows, apply);
      }
      NoWrongKeys(f, old(rows), canonical);
    }

    /** `sync_employment_metrics`: whatever the table held, it ends exact. */
    method SyncAll(f: Facts)
      modifies this
      ensures CacheExact(f, rows)
    {
      hide CanonicalRow, MonthOf, FactDays;
      var months := set day | day in FactDays(f) :: MonthOf(day);
      rows := map key | key in rows && MonthOf(key.day) in months :: rows[key];
      SyncMonths(f, months);
      forall key ensures Lookup(rows, key) == CanonicalRow(f, key) {
        if MonthOf(key.day) !in months {
          MonthWithoutFacts(f, MonthOf(key.day));
        }
      }
    }
  }

  /** The days of month `m` from `lo` on, as recomputation gives them. */
  ghost predicate Recomputed(f: Facts, m: nat, days: seq<DaySummary>, lo: nat) {
    forall i :: 0 <= i < |days| ==> DayRecomputed(f, m, days[i], lo + i)
  }

  ghost predicate DayRecomputed(f: Facts, m: nat, item: DaySummary, day: nat) {
    MonthOf(day) == m && item == Day(f, None, day) && item.date == day
  }

  lemma {:induction false} RecomputedAt(f: Facts, m: nat, days: seq<DaySummary>, lo: nat, i: nat)
    requires Recomputed(f, m, days, lo) && i < |days|
    ensures MonthOf(lo + i) == m && days[i] == Day(f, None, lo + i) && days[i].date == lo + i
  {
    hide MonthOf, Day;
    assert DayRecomputed(f, m, days[i], lo + i);
  }

  lemma {:induction false} MonthRecomputed(f: Facts, m: nat, days: seq<DaySummary>)
    requires days == MonthSummaryOf(f, None, m).days
    ensures Recomputed(f, m, days, MonthStart(m)) && MonthStart(m) + |days| == MonthStart(m + 1)
  {
    hide MonthOf, Day, MonthStart;
    SummaryDates(f, m, days);
    forall i | 0 <= i < |days| ensures MonthOf(days[i].date) == m {
      MonthUnique(days[i].date, m);
    }
  }

  /** The table while a month is being refilled: its days before `next` are canonical, later ones empty. */
  ghost predicate Refilled(f: Facts, before: Table, m: nat, next: nat, rows: Table) {
    forall key :: Lookup(rows, key) == Partly(f, before, m, next, key)
  }

  ghost function Partly(f: Facts, before: Table, m: nat, next: nat, key: Key): Option<Row> {
    if MonthOf(key.day) != m then Lookup(before, key)
    else if key.day < next then CanonicalRow(f, key)
    else None
  }

  function WithoutMonth(rows: Table, m: nat): Table {
    map key | key in rows && MonthOf(key.day) != m :: rows[key]
  }

  lemma {:induction false} MonthDropped(f: Facts, before: Table, m: nat)
    ensures Refilled(f, before, m, MonthStart(m), WithoutMonth(before, m))
  {
    hide MonthOf, MonthStart, CanonicalRow;
    forall key: Key ensures Lookup(WithoutMonth(before, m), key) == Partly(f, before, m, MonthStart(m), key) {
      MonthUnique(key.day, m);
    }
  }

  lemma {:induction false} MonthSynced(f: Facts, before: Table, m: nat, after: Table)
    requires Refilled(f, before, m, MonthStart(m + 1), after)
    ensures Synced(f, before, after, {m})
  {
    hide MonthOf, MonthStart, CanonicalRow, Lookup;
    forall key: Key
      ensures Lookup(after, key) == if MonthOf(key.day) in {m} then CanonicalRow(f, key) else Lookup(before, key)
    {
      MonthUnique(key.day, m);
      assert Lookup(after, key) == Partly(f, before, m, MonthStart(m + 1), key);
    }
  }

  lemma {:induction false} RefillStep(f: Facts, start: Table, m: nat, day: nat, before: Table, after: Table)
    requires MonthOf(day) == m && Refilled(f, start, m, day, before)
    requires forall key ::
      Lookup(after, key) == (if key.day == day && CanonicalRow(f, key).Some? then CanonicalRow(f, key) else Lookup(before, key))
    ensures Refilled(f, start, m, day + 1, after)
  {
    hide MonthOf, CanonicalRow, Lookup;
    forall key ensures Lookup(after, key) == Partly(f, start, m, day + 1, key) {
      assert Lookup(before, key) == Partly(f, start, m, day, key);
    }
  }

  lemma {:induction false} DayFields(f: Facts, day: nat)
    ensures var item := Day(f, None, day);
      item.date == day && item.worked == Worked(f, day) && item.planned == Planned(f, day)
  {
  }

  // ---- the repair script ----

  /** Rows of one source for the listed days. */
  function SourceRows(days: seq<DaySummary>, source: Source): Table
    requires forall i, j :: 0 <= i < j < |days| ==> days[i].date != days[j].date
  {
    map i | 0 <= i < |days| && ValueFor(days[i], source).Some? ::
      Key(days[i].date, source) := RowOf(ValueFor(days[i], source).value)
  }

  function ValueFor(day: DaySummary, source: Source): Option<DailyMetrics> {
    if source == Attendance then day.worked else day.planned
  }

  ghost function ComputedRow(f: Facts, key: Key): Option<Row> {
    var v := if key.source == Attendance then Worked(f, key.day) else Planned(f, key.day);
    if v.Some? then Some(RowOf(v.value)) else None
  }

  lemma {:induction false} SummaryDates(f: Facts, m: nat, days: seq<DaySummary>)
    requires days == MonthSummaryOf(f, None, m).days
    ensures MonthStart(m) <= MonthStart(m + 1) && |days| == MonthStart(m + 1) - MonthStart(m)
    ensures forall i :: 0 <= i < |days| ==>
      days[i] == Day(f, None, MonthStart(m) + i) && days[i].date == MonthStart(m) + i
  {
    hide MonthStart, Worked, Planned;
    MonthStartMonotone(m, m + 1);
  }

  /** Days dated consecutively from `lo`. */
  ghost predicate Dated(days: seq<DaySummary>, lo: nat) {
    forall i :: 0 <= i < |days| ==> days[i].date == lo + i
  }

  function RowFor(v: Option<DailyMetrics>): Option<Row> {
    if v.Some? then Some(RowOf(v.value)) else None
  }

  lemma {:induction false} SourceRowByDate(days: seq<DaySummary>, lo: nat, source: Source, key: Key)
    requires Dated(days, lo)
    ensures forall i, j :: 0 <= i < j < |days| ==> days[i].date != days[j].date
    ensures Lookup(SourceRows(days, source), key)
         == if key.source == source && lo <= key.day < lo + |days| then RowFor(ValueFor(days[key.day - lo], source)) else None
  {
    hide RowOf, ValueFor;
    var rows := SourceRows(days, source);
    if key.source == source && lo <= key.day < lo + |days| {
      var i := key.day - lo;
      assert days[i].date == key.day;
    }
  }

  lemma {:induction false} ComputedFromDay(f: Facts, key: Key)
    ensures RowFor(ValueFor(Day(f, None, key.day), key.source)) == ComputedRow(f, key)
  {
    hide RowOf, Worked, Planned;
    DayFields(f, key.day);
  }

  lemma {:induction false} SummaryDated(f: Facts, m: nat, days: seq<DaySummary>)
    requires days == MonthSummaryOf(f, None, m).days
    ensures Dated(days, MonthStart(m)) && MonthStart(m) + |days| == MonthStart(m + 1)
    ensures forall day: nat :: MonthStart(m) <= day < MonthStart(m + 1) ==> days[day - MonthStart(m)] == Day(f, None, day)
  {
    SummaryDates(f, m, days);
    hide MonthStart, MonthSummaryOf, Day;
  }

  lemma {:induction false} SourceRowAt(f: Facts, m: nat, days: seq<DaySummary>, source: Source, key: Key)
    requires days == MonthSummaryOf(f, None, m).days
    requires forall i, j :: 0 <= i < j < |days| ==> days[i].date != days[j].date
    ensures Lookup(SourceRows(days, source), key)
         == if MonthOf(key.day) == m && key.source == source then ComputedRow(f, key) else None
  {
    hide *;
    SummaryDated(f, m, days);
    MonthUnique(key.day, m);
    SourceRowByDate(days, MonthStart(m), source, key);
    ComputedFromDay(f, key);
  }

  lemma {:induction false} LookupMerged(a: Table, b: Table, key: Key)
    ensures Lookup(a + b, key) == if Lookup(b, key).Some? then Lookup(b, key) else Lookup(a, key)
  {
  }

  /** One month's part of the script's `expected` dictionary. */
  method ExpectMonth(f: Facts, m: nat) returns (part: Table)
    ensures forall key :: Lookup(part, key) == if MonthOf(key.day) == m then CanonicalRow(f, key) else None
  {
    var summary := BuildMonthSummary(f, None, m);
    var attendancePresent, planPresent := SourcePresence(f, m, summary);
    SummaryDates(f, m, summary.days);
    var worked := if attendancePresent then SourceRows(summary.days, Attendance) else map[];
    var planned := if planPresent then SourceRows(summary.days, ShiftPlan) else map[];
    part := worked + planned;
    forall key ensures Lookup(part, key) == if MonthOf(key.day) == m then CanonicalRow(f, key) else None {
      LookupMerged(worked, planned, key);
      SourceRowAt(f, m, summary.days, Attendance, key);
      SourceRowAt(f, m, summary.days, ShiftPlan, key);
      MonthPart(f, m, attendancePresent, planPresent, worked, planned, key);
    }
  }

  lemma {:induction false} MonthPart(f: Facts, m: nat, attendance: bool, plan: bool, worked: Table, planned: Table, key: Key)
    requires attendance == AttendancePresent(f, m) && plan == PlanPresent(f, m)
    requires Lookup(worked, key)
      == if attendance && MonthOf(key.day) == m && key.source == Attendance then ComputedRow(f, key) else None
    requires Lookup(planned, key)
      == if plan && MonthOf(key.day) == m && key.source == ShiftPlan then ComputedRow(f, key) else None
    ensures (if Lookup(planned, key).Some? then Lookup(planned, key) else Lookup(worked, key))
      == if MonthOf(key.day) == m then CanonicalRow(f, key) else None
  {
    hide MonthOf, Worked, Planned, RowOf, Lookup, AttendancePresent, PlanPresent;
  }

  /** The keys under which the stored and the canonical row differ. */
  ghost function WrongKeys(stored: Table, canonical: Table): set<Key> {
    set key | key in stored.Keys + canonical.Keys && Lookup(stored, key) != Lookup(canonical, key)
  }

  ghost function Unexpected(stored: Table, expected: Table): set<Key> {
    set key | key in stored && key !in expected
  }

  ghost function Differing(stored: Table, expected: Table): set<Key> {
    set key | key in expected && Lookup(stored, key) != Lookup(expected, key)
  }

  lemma {:induction false} DisjointCount<T>(a: set<T>, b: set<T>)
    requires a !! b
    ensures |a + b| == |a| + |b|
  {
    assert a * b == {};
  }

  lemma {:induction false} WrongKeysCount(stored: Table, canonical: Table)
    ensures |WrongKeys(stored, canonical)| == |Unexpected(stored, canonical)| + |Differing(stored, canonical)|
  {
    DisjointCount(Unexpected(stored, canonical), Differing(stored, canonical));
    assert WrongKeys(stored, canonical) == Unexpected(stored, canonical) + Differing(stored, canonical);
  }

  lemma {:induction false} WrongKeysOfEmpty(stored: Table)
    ensures |WrongKeys(stored, map[])| == |stored|
  {
    assert WrongKeys(stored, map[]) == stored.Keys;
  }

  lemma {:induction false} SameLookups(a: Table, b: Table)
    requires forall key :: Lookup(a, key) == Lookup(b, key)
    ensures a == b
  {
    forall key ensures key in a <==> key in b { assert Lookup(a, key) == Lookup(b, key); }
    forall key | key in a ensures a[key] == b[key] { assert Lookup(a, key) == Lookup(b, key); }
  }

  /** The two loops together turn any table into the expected one, or leave it alone. */
  lemma {:induction false} Repaired(stored: Table, expected: Table, kept: Table, after: Table, apply: bool)
    requires forall key :: Lookup(kept, key)
                             == (if apply && key in Unexpected(stored, expected) then None else Lookup(stored, key))
    requires forall key :: Lookup(after, key)
                             == (if apply && key in Differing(kept, expected) then Lookup(expected, key) else Lookup(kept, key))
    ensures Differing(kept, expected) == Differing(stored, expected)
    ensures after == if apply then expected else stored
  {
    forall key ensures Lookup(after, key) == Lookup(if apply then expected else stored, key) {
      assert Lookup(kept, key) == if apply && key in Unexpected(stored, expected) then None else Lookup(stored, key);
    }
    SameLookups(after, if apply then expected else stored);
  }

  lemma {:induction false} NoWrongKeys(f: Facts, stored: Table, canonical: Table)
    requires CacheExact(f, canonical)
    ensures |WrongKeys(stored, canonical)| == 0 <==> CacheExact(f, stored)
  {
    hide CanonicalRow;
    var wrong := WrongKeys(stored, canonical);
    forall key ensures key in wrong <==> Lookup(stored, key) != CanonicalRow(f, key) {
      assert Lookup(canonical, key) == CanonicalRow(f, key);
    }
  }

  lemma {:induction false} NoFactsNoRows(f: Facts)
    requires FactDays(f) == {}
    ensures CacheExact(f, map[])
  {
    hide CanonicalRow, MonthOf, FactDays;
    forall key: Key ensures CanonicalRow(f, key) == None {
      MonthWithoutFacts(f, MonthOf(key.day));
    }
  }

  /** The script's `expected` dictionary for one employment. */
  method ExpectAll(f: Facts) returns (expected: Table)
    ensures CacheExact(f, expected)
  {
    hide CanonicalRow, MonthOf, FactDays;
    var months := set day | day in FactDays(f) :: MonthOf(day);
    var todo := months;
    expected := map[];
    while todo != {}
      invariant todo <= months
      invariant forall key :: Lookup(expected, key) == if MonthOf(key.day) in months - todo then CanonicalRow(f, key) else None
      decreases todo
    {
      var m :| m in todo;
      var part := ExpectMonth(f, m);
      ghost var before := expected;
      expected := expected + part;
      forall key
        ensures Lookup(expected, key) == if MonthOf(key.day) in months - (todo - {m}) then CanonicalRow(f, key) else None
      {
        assert Lookup(before, key) == if MonthOf(key.day) in months - todo then CanonicalRow(f, key) else None;
        assert Lookup(part, key) == if MonthOf(key.day) == m then CanonicalRow(f, key) else None;
      }
      todo := todo - {m};
    }
    forall key ensures Lookup(expected, key) == CanonicalRow(f, key) {
      if MonthOf(key.day) !in months {
        MonthWithoutFacts(f, MonthOf(key.day));
      }
    }
  }
}
