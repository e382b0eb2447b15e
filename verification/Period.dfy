/** Changing an employment's period and time profile (app/api/v1/admin_employments.py). */
module Period {
  import opened Options
  import opened Calendar
  import opened Intervals
  import opened Metrics
  import opened Summary
  import opened Ledger
  import opened Footprint
  import opened Invariants

  predicate DayOut(day: nat, start: nat, end: Option<nat>) {
    day < start || (end.Some? && day > end.value)
  }

  /** A month record is out of range only when the whole month is. */
  predicate MonthOut(m: nat, start: nat, end: Option<nat>) {
    MonthStart(m + 1) - 1 < start || (end.Some? && MonthStart(m) > end.value)
  }

  function OutRowIds(events: seq<Event>, start: nat, end: Option<nat>): set<nat> {
    set e | e in events && DayOut(DayOf(e.at), start, end) :: e.id
  }

  function ClosePairs(ids: set<nat>, pairs: seq<(Event, Event)>): set<nat>
    decreases |pairs|
  {
    if pairs == [] then ids
    else
      var p := pairs[0];
      ClosePairs(if p.0.id in ids || p.1.id in ids then ids + {p.0.id, p.1.id} else ids, pairs[1..])
  }

  /** `_out_of_range_event_ids`: rows on outside days, and whole intervals touching such a row. */
  function OutEventIds(events: seq<Event>, start: nat, end: Option<nat>): set<nat> {
    ClosePairs(OutRowIds(events, start, end), PairRows(Ordered(events)))
  }

  method OutOfRangeEventIds(events: seq<Event>, start: nat, end: Option<nat>) returns (ids: set<nat>)
    ensures ids == OutEventIds(events, start, end)
  {
    ids := OutRowIds(events, start, end);
    var pairs := PairEventRows(events);
    assert pairs[0..] == pairs;
    for i := 0 to |pairs|
      invariant ClosePairs(ids, pairs[i..]) == OutEventIds(events, start, end)
    {
      hide OutEventIds;
      assert pairs[i..][1..] == pairs[i + 1..];
      if pairs[i].0.id in ids || pairs[i].1.id in ids {
        ids := ids + {pairs[i].0.id, pairs[i].1.id};
      }
    }
  }

  // ---- preview and deletion ----

  datatype Preview = Preview(
    attendance: nat, plans: nat, attendanceLocks: nat, planLocks: nat, selections: nat, reminders: nat)

  function OutDays(days: set<nat>, start: nat, end: Option<nat>): set<nat> {
    set day | day in days && DayOut(day, start, end)
  }

  function OutMonths(months: set<nat>, start: nat, end: Option<nat>): set<nat> {
    set m | m in months && MonthOut(m, start, end)
  }

  function OutReminders(reminders: set<Reminder>, start: nat, end: Option<nat>): set<Reminder> {
    set r | r in reminders && DayOut(r.day, start, end)
  }

  /** `_collect_range_conflicts`: how many records of each kind lie outside the new period. */
  function PreviewOf(s: State, start: nat, end: Option<nat>): Preview {
    Preview(
      |OutDays(s.facts.attendance.Keys, start, end)| + |OutEventIds(s.facts.events, start, end)|,
      |OutDays(s.facts.plans.Keys, start, end)|,
      |OutMonths(s.attendanceLocks, start, end)|,
      |OutMonths(s.planLocks, start, end)|,
      |OutMonths(s.selections, start, end)|,
      |OutReminders(s.reminders, start, end)|)
  }

  const NOTHING := Preview(0, 0, 0, 0, 0, 0)

  /** `_delete_out_of_range_records`. */
  function Trimmed(s: State, start: nat, end: Option<nat>): State {
    var f := s.facts;
    s.(facts := f.(
         events := Without(f.events, OutEventIds(f.events, start, end)),
         attendance := f.attendance - OutDays(f.attendance.Keys, start, end),
         plans := f.plans - OutDays(f.plans.Keys, start, end)),
       attendanceLocks := s.attendanceLocks - OutMonths(s.attendanceLocks, start, end),
       planLocks := s.planLocks - OutMonths(s.planLocks, start, end),
       selections := s.selections - OutMonths(s.selections, start, end),
       reminders := s.reminders - OutReminders(s.reminders, start, end))
  }

  /** How many records of each kind disappear from `s` to `t`. */
  function Removed(s: State, t: State): (int, int, int, int, int, int) {
    (|s.facts.attendance| - |t.facts.attendance| + |s.facts.events| - |t.facts.events|,
     |s.facts.plans| - |t.facts.plans|,
     |s.attendanceLocks| - |t.attendanceLocks|,
     |s.planLocks| - |t.planLocks|,
     |s.selections| - |t.selections|,
     |s.reminders| - |t.reminders|)
  }

  lemma {:induction false} ClosePairsAddsNothing(ids: set<nat>, pairs: seq<(Event, Event)>)
    requires forall k :: 0 <= k < |pairs| ==> (pairs[k].0.id in ids <==> pairs[k].1.id in ids)
    ensures ClosePairs(ids, pairs) == ids
  {
    if pairs != [] {
      var p := pairs[0];
      if p.0.id in ids || p.1.id in ids {
        assert ids + {p.0.id, p.1.id} == ids;
      }
      ClosePairsAddsNothing(ids, pairs[1..]);
    }
  }

  lemma {:induction false} OutRowById(events: seq<Event>, e: Event, start: nat, end: Option<nat>)
    requires Distinct(events) && e in events
    ensures e.id in OutRowIds(events, start, end) <==> DayOut(DayOf(e.at), start, end)
  {
    if e.id in OutRowIds(events, start, end) {
      var g :| g in events && DayOut(DayOf(g.at), start, end) && g.id == e.id;
      SameIdSameRow(events, e, g);
    }
  }

  /** Pairs stay inside a day, so the deleted rows are exactly those on outside days, and no interval
      loses only one of its ends. */
  lemma {:induction false} DeletionClosedUnderPairing(events: seq<Event>, start: nat, end: Option<nat>)
    requires Distinct(events)
    ensures OutEventIds(events, start, end) == OutRowIds(events, start, end)
    ensures forall p :: p in PairRows(Ordered(events)) ==>
      (p.0.id in OutEventIds(events, start, end) <==> p.1.id in OutEventIds(events, start, end))
  {
    hide DayOf, OutRowIds;
    var pairs := PairRows(Ordered(events));
    OrderedSorted(events); OrderedElements(events);
    PairsDisjoint(Ordered(events));
    forall k | 0 <= k < |pairs|
      ensures pairs[k].0.id in OutRowIds(events, start, end) <==> pairs[k].1.id in OutRowIds(events, start, end)
    {
      OutRowById(events, pairs[k].0, start, end);
      OutRowById(events, pairs[k].1, start, end);
    }
    ClosePairsAddsNothing(OutRowIds(events, start, end), pairs);
  }

  lemma {:induction false} WithoutCount(events: seq<Event>, ids: set<nat>)
    requires Distinct(events) && forall id :: id in ids ==> HasRow(events, id)
    ensures |events| - |Without(events, ids)| == |ids|
  {
    if events == [] {
      assert ids == {};
    } else {
      var e, rest := events[0], ids - {events[0].id};
      forall id | id in rest ensures HasRow(events[1..], id) {
        var i :| 0 <= i < |events| && events[i].id == id;
        assert events[1..][i - 1].id == id;
      }
      WithoutCount(events[1..], rest);
      WithoutSame(events[1..], ids, rest, e.id);
    }
  }

  lemma {:induction false} WithoutSame(events: seq<Event>, ids: set<nat>, rest: set<nat>, id: nat)
    requires rest == ids - {id} && forall i :: 0 <= i < |events| ==> events[i].id != id
    ensures Without(events, ids) == Without(events, rest)
  {
    if events != [] {
      WithoutSame(events[1..], ids, rest, id);
    }
  }

  lemma {:induction false} PartCount<T>(all: set<T>, part: set<T>)
    requires part <= all
    ensures |all| - |all - part| == |part|
  {
    assert all == (all - part) + part;
  }

  lemma {:induction false} MapPartCount<V>(rows: map<nat, V>, part: set<nat>)
    requires part <= rows.Keys
    ensures |rows| - |rows - part| == |part|
  {
    assert (rows - part).Keys == rows.Keys - part;
    assert |rows| == |rows.Keys| && |rows - part| == |(rows - part).Keys|;
    PartCount(rows.Keys, part);
  }

  /** A confirmed change deletes exactly what its preview counted, kind by kind. */
  lemma {:induction false} DeletesWhatWasPreviewed(s: State, start: nat, end: Option<nat>)
    requires Distinct(s.facts.events)
    ensures var p := PreviewOf(s, start, end);
      Removed(s, Trimmed(s, start, end))
        == (p.attendance, p.plans, p.attendanceLocks, p.planLocks, p.selections, p.reminders)
  {
    hide *;
    RowsRemoved(s, start, end);
    RecordsRemoved(s, start, end);
    CountsInOrder(s, Trimmed(s, start, end), PreviewOf(s, start, end));
  }

  lemma {:induction false} CountsInOrder(s: State, t: State, p: Preview)
    requires |s.facts.attendance| - |t.facts.attendance| + |s.facts.events| - |t.facts.events| == p.attendance
    requires |s.facts.plans| - |t.facts.plans| == p.plans
    requires |s.attendanceLocks| - |t.attendanceLocks| == p.attendanceLocks
    requires |s.planLocks| - |t.planLocks| == p.planLocks
    requires |s.selections| - |t.selections| == p.selections
    requires |s.reminders| - |t.reminders| == p.reminders
    ensures Removed(s, t) == (p.attendance, p.plans, p.attendanceLocks, p.planLocks, p.selections, p.reminders)
  {
  }

  lemma {:induction false} RowsRemoved(s: State, start: nat, end: Option<nat>)
    requires Distinct(s.facts.events)
    ensures var t, p := Trimmed(s, start, end), PreviewOf(s, start, end);
      && |s.facts.attendance| - |t.facts.attendance| + |s.facts.events| - |t.facts.events| == p.attendance
      && |s.facts.plans| - |t.facts.plans| == p.plans
  {
    hide OutEventIds, OutDays, OutMonths, OutReminders, Distinct, Without;
    var f := s.facts;
    OutSubsets(s, start, end);
    EventsRemoved(f.events, start, end);
    MapPartCount(f.attendance, OutDays(f.attendance.Keys, start, end));
    MapPartCount(f.plans, OutDays(f.plans.Keys, start, end));
  }

  lemma {:induction false} RecordsRemoved(s: State, start: nat, end: Option<nat>)
    ensures var t, p := Trimmed(s, start, end), PreviewOf(s, start, end);
      && |s.attendanceLocks| - |t.attendanceLocks| == p.attendanceLocks
      && |s.planLocks| - |t.planLocks| == p.planLocks
      && |s.selections| - |t.selections| == p.selections
      && |s.reminders| - |t.reminders| == p.reminders
  {
    hide OutEventIds, OutDays, OutMonths, OutReminders, Without;
    OutSubsets(s, start, end);
    PartCount(s.attendanceLocks, OutMonths(s.attendanceLocks, start, end));
    PartCount(s.planLocks, OutMonths(s.planLocks, start, end));
    PartCount(s.selections, OutMonths(s.selections, start, end));
    PartCount(s.reminders, OutReminders(s.reminders, start, end));
  }

  lemma {:induction false} OutSubsets(s: State, start: nat, end: Option<nat>)
    ensures OutDays(s.facts.attendance.Keys, start, end) <= s.facts.attendance.Keys
    ensures OutDays(s.facts.plans.Keys, start, end) <= s.facts.plans.Keys
    ensures OutMonths(s.attendanceLocks, start, end) <= s.attendanceLocks
    ensures OutMonths(s.planLocks, start, end) <= s.planLocks
    ensures OutMonths(s.selections, start, end) <= s.selections
    ensures OutReminders(s.reminders, start, end) <= s.reminders
  {
    hide DayOut, MonthOut;
  }

  lemma {:induction false} EventsRemoved(events: seq<Event>, start: nat, end: Option<nat>)
    requires Distinct(events)
    ensures var ids := OutEventIds(events, start, end); |events| - |Without(events, ids)| == |ids|
  {
    hide OutEventIds, OutRowIds, Distinct;
    DeletionClosedUnderPairing(events, start, end);
    OutIdsAreRows(events, start, end);
    WithoutCount(events, OutEventIds(events, start, end));
  }

  lemma {:induction false} OutIdsAreRows(events: seq<Event>, start: nat, end: Option<nat>)
    ensures forall id :: id in OutRowIds(events, start, end) ==> HasRow(events, id)
  {
    hide DayOut;
    forall id | id in OutRowIds(events, start, end) ensures HasRow(events, id) {
      var e :| e in events && DayOut(DayOf(e.at), start, end) && e.id == id;
      var i :| 0 <= i < |events| && events[i] == e;
    }
  }

  lemma {:induction false} TrimmedDay(s: State, start: nat, end: Option<nat>, day: nat)
    requires Distinct(s.facts.events)
    ensures var g := Trimmed(s, start, end).facts;
      && DayTimes(g.events, day) == (if DayOut(day, start, end) then {} else DayTimes(s.facts.events, day))
      && (OfDay(g.events, day) == [] <==> DayOut(day, start, end) || OfDay(s.facts.events, day) == [])
  {
    hide DayOf, DayOut, Distinct;
    var events := s.facts.events;
    var ids := OutRowIds(events, start, end);
    DeletionClosedUnderPairing(events, start, end);
    WithoutElements(events, ids);
    var kept := Without(events, ids);
    forall t: nat ensures t in DayTimes(kept, day) <==> !DayOut(day, start, end) && t in DayTimes(events, day) {
      if t in DayTimes(kept, day) {
        var e :| e in kept && e.at == t;
        OutRowById(events, e, start, end);
      }
      if t in DayTimes(events, day) && !DayOut(day, start, end) {
        var e :| e in events && e.at == t;
        OutRowById(events, e, start, end);
        assert e in kept;
      }
    }
    NoTimesNoRows(kept, day);
    NoTimesNoRows(events, day);
  }

  /** After a confirmed change a new preview of the same period is all zeros. */
  lemma {:induction false} SecondPreviewIsEmpty(s: State, start: nat, end: Option<nat>)
    requires Distinct(s.facts.events)
    ensures PreviewOf(Trimmed(s, start, end), start, end) == NOTHING
  {
    hide DayOut, MonthOut, OutEventIds, Distinct;
    var t := Trimmed(s, start, end);
    DeletionClosedUnderPairing(s.facts.events, start, end);
    WithoutDistinct(s.facts.events, OutEventIds(s.facts.events, start, end));
    DeletionClosedUnderPairing(t.facts.events, start, end);
    NoOutRowsLeft(s.facts.events, start, end);
    assert OutDays(t.facts.attendance.Keys, start, end) == {};
    assert OutDays(t.facts.plans.Keys, start, end) == {};
    assert OutMonths(t.attendanceLocks, start, end) == {};
    assert OutMonths(t.planLocks, start, end) == {};
    assert OutMonths(t.selections, start, end) == {};
    assert OutReminders(t.reminders, start, end) == {};
  }

  lemma {:induction false} NoOutRowsLeft(events: seq<Event>, start: nat, end: Option<nat>)
    ensures OutRowIds(Without(events, OutRowIds(events, start, end)), start, end) == {}
  {
    hide DayOut;
    WithoutElements(events, OutRowIds(events, start, end));
  }

  // ---- profiles ----

  /** `_normalize_profile_for_type`. */
  function Normalized(p: Profile, typeChanged: bool): Profile {
    var q := if typeChanged && p.kind != WorkContract then p.(workload := None) else p;
    if q.kind == WorkContract then
      q.(workload := if q.workload == None || q.workload == Some(0) then Some(1000) else q.workload,
         totalEnabled := true, nightEnabled := true)
    else if typeChanged && q.kind == TaskShiftBased then
      q.(totalEnabled := false, automaticBreaks := false, afternoonEnabled := false, afternoonStart := None,
         nightEnabled := false, weekendEnabled := false, holidayEnabled := false)
    else q
  }

  /** `validate_time_profile`; the workload fraction is counted in thousandths. */
  predicate ValidProfile(p: Profile) {
    && (p.kind == WorkContract ==> p.workload.Some? && 0 < p.workload.value <= 1000 && p.totalEnabled && p.nightEnabled)
    && (p.kind != WorkContract ==> p.workload == None)
    && (p.kind == TaskShiftBased ==>
          !p.totalEnabled && !p.automaticBreaks && !p.afternoonEnabled && !p.nightEnabled
          && !p.weekendEnabled && !p.holidayEnabled)
    && (p.afternoonEnabled ==> p.afternoonStart.Some? && p.afternoonStart.value <= 1319)
    && (!p.afternoonEnabled ==> p.afternoonStart == None)
  }

  /** The comparison that decides whether a profile edit resynchronises the cache. */
  predicate MetricProfileChanged(p: Profile, q: Profile) {
    || p.kind != q.kind || p.totalEnabled != q.totalEnabled
    || p.afternoonEnabled != q.afternoonEnabled || p.afternoonStart != q.afternoonStart
    || p.nightEnabled != q.nightEnabled || p.weekendEnabled != q.weekendEnabled || p.holidayEnabled != q.holidayEnabled
  }

  // ---- update_employment ----

  /** The requested values, with unset fields already filled from the stored employment. */
  datatype Request = Request(profile: Profile, start: nat, end: Option<nat>, confirmed: bool)

  datatype UpdateOutcome = Refused(error: Error) | Updated(state: State, resync: bool)

  /** `update_employment`: the state before resynchronisation, and whether that is asked for. */
  function UpdateEmployment(s: State, r: Request): UpdateOutcome {
    var f := s.facts;
    if r.end.Some? && r.end.value < r.start then Refused(InvalidPeriod)
    else if PreviewOf(s, r.start, r.end) != NOTHING && !r.confirmed then Refused(ConfirmationRequired)
    else
      var profile := Normalized(r.profile, r.profile.kind != f.profile.kind);
      if !ValidProfile(profile) then Refused(InvalidProfile)
      else
        var t := if PreviewOf(s, r.start, r.end) != NOTHING then Trimmed(s, r.start, r.end) else s;
        Updated(t.(facts := t.facts.(profile := profile, start := r.start, end := r.end)),
                MetricProfileChanged(f.profile, profile) || r.start != f.start || r.end != f.end)
  }

  ghost predicate Updates(s: State, r: Request, s': State) {
    match UpdateEmployment(s, r)
    case Refused(_) => s' == s
    case Updated(t, resync) =>
      s' == t.(table := s'.table) && if resync then CacheExact(t.facts, s'.table) else s'.table == s.table
  }

  lemma {:induction false} EmptyPreviewTrimsNothing(s: State, start: nat, end: Option<nat>)
    requires Distinct(s.facts.events) && PreviewOf(s, start, end) == NOTHING
    ensures Trimmed(s, start, end) == s
  {
    hide DayOut, MonthOut, Distinct, OutEventIds;
    var f := s.facts;
    assert OutDays(f.attendance.Keys, start, end) == {} && OutEventIds(f.events, start, end) == {};
    WithoutNothing(f.events);
  }

  lemma {:induction false} WithoutNothing(events: seq<Event>)
    ensures Without(events, {}) == events
  {
    if events != [] {
      WithoutNothing(events[1..]);
    }
  }

  /** The facts that remain are inside the new period and as exclusive as before. */
  lemma {:induction false} TrimmedContained(s: State, start: nat, end: Option<nat>, profile: Profile)
    requires RowsOk(s) && Exclusive(s.facts)
    ensures var t := Trimmed(s, start, end);
      var g := t.facts.(profile := profile, start := start, end := end);
      Exclusive(g) && Contained(g) && RowsOk(t)
  {
    hide DayOf, Distinct, OfDay, DayTimes, OutEventIds;
    var t := Trimmed(s, start, end);
    forall day ensures OfDay(t.facts.events, day) == [] <==> DayOut(day, start, end) || OfDay(s.facts.events, day) == [] {
      TrimmedDay(s, start, end, day);
    }
    var ids := OutEventIds(s.facts.events, start, end);
    WithoutDistinct(s.facts.events, ids);
    WithoutElements(s.facts.events, ids);
    forall i | 0 <= i < |t.facts.events| ensures 0 < t.facts.events[i].id < t.nextId {
      assert t.facts.events[i] in s.facts.events;
    }
  }

  /** Inside an unchanged period there is nothing to trim from the facts. */
  lemma {:induction false} ContainedSameDays(s: State, day: nat)
    requires RowsOk(s) && Contained(s.facts)
    ensures SameDay(s.facts, Trimmed(s, s.facts.start, s.facts.end).facts, day)
  {
    hide DayOf, Distinct, OfDay, DayTimes, OutEventIds;
    TrimmedDay(s, s.facts.start, s.facts.end, day);
    NoTimesNoRows(s.facts.events, day);
  }

  lemma {:induction false} UpdateKeepsInv(s: State, r: Request, s': State)
    requires Inv(s) && Updates(s, r, s')
    ensures Inv(s')
  {
    hide CacheExact, Distinct, OfDay, DayTimes, Exclusive, Contained, PreviewOf, Trimmed, Normalized, ValidProfile, SameDay;
    var o := UpdateEmployment(s, r);
    if o.Updated? {
      var t := Trimmed(s, r.start, r.end);
      if PreviewOf(s, r.start, r.end) == NOTHING {
        EmptyPreviewTrimsNothing(s, r.start, r.end);
      }
      TrimmedContained(s, r.start, r.end, o.state.facts.profile);
      if !o.resync {
        forall day ensures SameDay(s.facts, o.state.facts, day) {
          ContainedSameDays(s, day);
          SameDayIgnoresPeriod(s.facts, t.facts, o.state.facts, day);
        }
        NoSyncKeepsExact(s.facts, o.state.facts, s.table);
      }
    }
  }

  lemma {:induction false} SameDayIgnoresPeriod(f: Facts, g: Facts, h: Facts, day: nat)
    requires SameDay(f, g, day) && h == g.(profile := h.profile, start := h.start, end := h.end)
    ensures SameDay(f, h, day)
  {
  }

  lemma {:induction false} NoSyncKeepsExact(f: Facts, g: Facts, table: Table)
    requires Distinct(f.events) && Distinct(g.events) && !MetricProfileChanged(f.profile, g.profile)
    requires CacheExact(f, table) && forall day :: SameDay(f, g, day)
    ensures CacheExact(g, table)
  {
    hide CacheExact, Distinct, SameDay, CanonicalRow, MonthOf;
    SyncKeepsExact(f, g, table, table, {});
  }
}
