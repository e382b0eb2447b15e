/** When plans, day statuses, employments and locks change, and what is stored afterwards
    (app/api/v1/admin_shift_plan.py, app/services/day_status.py, app/api/v1/admin_employments.py). */
module RecordEffects {
  import opened Options
  import opened Calendar
  import opened Intervals
  import opened Metrics
  import opened Summary
  import opened Ledger
  import opened Footprint
  import opened Invariants
  import opened Period
  import opened ProblemRange
  import opened Runs
  import opened PunchEffects

  // ---- plans ----

  /** Something besides a plan is recorded on the day. */
  ghost predicate Attended(f: Facts, day: nat) {
    DayTimes(f.events, day) != {} || AttendanceStatus(f, day).Some?
  }

  lemma {:induction false} AttendedIsConflict(f: Facts, day: nat)
    ensures AttendanceConflict(f, day) <==> Attended(f, day)
    ensures EventsExist(f, day) <==> DayTimes(f.events, day) != {}
    ensures EffectiveStatus(f, day).Some? <==> HasStatus(f, day)
  {
    hide OfDay, DayTimes;
    NoTimesNoRows(f.events, day);
  }

  /** A plan may be written while the employment is active, in its period and outside locked months:
      times in order on a day without a status, or a plan status on a day with nothing recorded, where
      replacing a plan takes a confirmation. */
  ghost predicate Plannable(s: State, env: Env, day: nat, arrival: Option<MinuteOfDay>, departure: Option<MinuteOfDay>,
                            status: Option<Status>, confirmed: bool) {
    && Employed(s.facts, env) && InPeriod(s.facts, day) && MonthOf(day) !in s.planLocks
    && (arrival.Some? && departure.Some? ==> arrival.value < departure.value)
    && match status
       case None => arrival.Some? || departure.Some? ==> !HasStatus(s.facts, day)
       case Some(value) =>
         (value == Vacation || value == DayOff) && !Attended(s.facts, day) && (day in s.facts.plans ==> confirmed)
  }

  /** The day's plan is the requested one, none when nothing is requested, and a status leaves no times. */
  ghost predicate PlanWritten(f: Facts, g: Facts, day: nat, arrival: Option<MinuteOfDay>, departure: Option<MinuteOfDay>,
                              status: Option<Status>) {
    && g == f.(plans := g.plans)
    && (forall d :: d != day ==> Get(g.plans, d) == Get(f.plans, d))
    && (status.Some? ==> Get(g.plans, day) == Some(Plan(None, None, status)))
    && (status == None && (arrival.Some? || departure.Some?) ==> Get(g.plans, day) == Some(Plan(arrival, departure, None)))
    && (status == None && arrival == None && departure == None ==> Get(g.plans, day) == None)
  }

  /** A plan request commits exactly when it is allowed, and then the day's plan is as requested. */
  lemma {:induction false} PlanExactly(s: State, env: Env, day: nat, arrival: Option<MinuteOfDay>,
                                       departure: Option<MinuteOfDay>, status: Option<Status>, confirmed: bool)
    ensures var o := UpsertPlan(s, env, day, arrival, departure, status, confirmed);
      && (o.Commit? <==> Plannable(s, env, day, arrival, departure, status, confirmed))
      && (o.Commit? ==> PlanWritten(s.facts, o.facts, day, arrival, departure, status) && o.nextId == s.nextId)
  {
    hide Active, Employed, InPeriod, MonthOf, OverlapsOtherPlan, EffectiveStatus, AttendanceConflict, HasStatus, Attended;
    EmployedIsActive(s.facts, env);
    AttendedIsConflict(s.facts, day);
    var plan := if status.Some? then Plan(None, None, status) else Plan(arrival, departure, None);
    PlansNeverOverlap(s.facts, day, plan);
  }

  // ---- day statuses ----

  /** Vacations and days off are kept in plans, sickness and paragraph days in attendance rows. */
  ghost predicate SidesOk(f: Facts) {
    && (forall day :: AttendanceStatus(f, day).Some? ==>
          AttendanceStatus(f, day) == Some(Sickness) || AttendanceStatus(f, day) == Some(Paragraph))
    && (forall day :: day in f.plans && f.plans[day].status.Some? ==>
          f.plans[day].status == Some(Vacation) || f.plans[day].status == Some(DayOff))
  }

  ghost predicate TouchesPlan(f: Facts, day: nat, status: Option<Status>) {
    status == Some(Vacation) || status == Some(DayOff) || day in f.plans
  }

  ghost predicate TouchesAttendance(f: Facts, day: nat, status: Option<Status>) {
    status == Some(Sickness) || status == Some(Paragraph) || Attended(f, day)
  }

  /** A status may be set or cleared while the employment is active and in its period. A lock stands in
      the way unless the change touches the other side only; replacing anything takes a confirmation. */
  ghost predicate StatusAllowed(s: State, env: Env, day: nat, status: Option<Status>, confirmed: bool) {
    && Employed(s.facts, env) && InPeriod(s.facts, day)
    && (MonthOf(day) in s.planLocks ==> TouchesAttendance(s.facts, day, status) && !TouchesPlan(s.facts, day, status))
    && (MonthOf(day) in s.attendanceLocks ==> TouchesPlan(s.facts, day, status) && !TouchesAttendance(s.facts, day, status))
    && (status.Some? && (Attended(s.facts, day) || day in s.facts.plans) ==> confirmed)
  }

  function PlanTimes(f: Facts, day: nat): (Option<MinuteOfDay>, Option<MinuteOfDay>) {
    if day in f.plans then (f.plans[day].arrival, f.plans[day].departure) else (None, None)
  }

  /** The day has the requested status, on its own side, and nothing else; clearing it keeps punches and
      planned times. Other days are as before. */
  ghost predicate StatusSet(f: Facts, g: Facts, day: nat, status: Option<Status>) {
    && g == f.(events := g.events, attendance := g.attendance, plans := g.plans)
    && EffectiveStatus(g, day) == status
    && (status == Some(Vacation) || status == Some(DayOff) ==>
          Get(g.plans, day) == Some(Plan(None, None, status)) && day !in g.attendance)
    && (status == Some(Sickness) || status == Some(Paragraph) ==> Get(g.attendance, day) == Some(status) && day !in g.plans)
    && (forall e :: e in g.events <==> e in f.events && (DayOf(e.at) != day || status == None))
    && (status == None ==>
          && PlanTimes(g, day) == PlanTimes(f, day) && (day in g.plans ==> PlanTimes(f, day) != (None, None))
          && (day in g.attendance <==> day in f.attendance && DayTimes(f.events, day) != {}))
    && (forall d :: d != day ==> SameDay(f, g, d))
  }

  lemma {:induction false} StatusStored(f: Facts, day: nat, status: Option<Status>)
    ensures StatusSet(f, ReplaceStatus(f, day, status), day, status)
  {
    hide DayOf, OfDay, OtherDays, DayTimes, EventsExist, SameDay;
    AttendedIsConflict(f, day);
    OtherDaysElements(f.events, day);
    forall d | d != day ensures SameDay(f, ReplaceStatus(f, day, status), d) {
      ReplacedOtherDay(f, day, status, d);
    }
  }

  lemma {:induction false} StatusDays(f: Facts, day: nat, status: Option<Status>)
    requires Distinct(f.events)
    ensures ChangedEventDays(Signatures(f.events), Signatures(ReplaceStatus(f, day, status).events), {}) + {day} == {day}
  {
    hide DayOf, Distinct, OtherDays, Signatures, DaysOf, DayTimes;
    var before, after := f.events, ReplaceStatus(f, day, status).events;
    OtherDaysDistinct(before, day);
    var a, b := Signatures(before), Signatures(after);
    forall x, d | x in (a - b) + (b - a) && d in DaysOf(x) ensures d == day {
      if d != day {
        OtherDaysTimes(before, day, d);
        if x in a { UnchangedDay(before, after, d, x); } else { UnchangedDay(after, before, d, x); }
      }
    }
  }

  lemma {:induction false} LocksConsulted(f: Facts, day: nat, status: Option<Status>)
    requires SidesOk(f)
    ensures ChecksPlanLock(f, day, status) <==> TouchesPlan(f, day, status)
    ensures ChecksAttendanceLock(f, day, status) <==> TouchesAttendance(f, day, status)
  {
    hide AttendanceConflict, Attended, DayTimes;
    AttendedIsConflict(f, day);
    assert AttendanceStatus(f, day).Some? ==> Attended(f, day) by { StatusIsAttended(f, day); }
    assert day in f.attendance && f.attendance[day].Some? ==> AttendanceStatus(f, day) == f.attendance[day];
  }

  lemma {:induction false} StatusIsAttended(f: Facts, day: nat)
    ensures AttendanceStatus(f, day).Some? ==> Attended(f, day)
  {
  }

  lemma {:induction false} OneLocked(locks: set<nat>, day: nat)
    ensures AnyLocked(locks, MonthsFor({day})) <==> MonthOf(day) in locks
  {
    hide MonthOf;
    assert MonthsFor({day}) == {MonthOf(day)};
  }

  /** A status change commits exactly when it is allowed, and then the day has that status. */
  lemma {:induction false} StatusExactly(s: State, env: Env, day: nat, status: Option<Status>, confirmed: bool)
    requires Distinct(s.facts.events) && SidesOk(s.facts)
    ensures var o := UpsertDayStatus(s, env, day, status, confirmed);
      && (o.Commit? <==> StatusAllowed(s, env, day, status, confirmed))
      && (o.Commit? ==> StatusSet(s.facts, o.facts, day, status) && o.nextId == s.nextId)
  {
    hide Active, Employed, InPeriod, MonthOf, ChecksPlanLock, ChecksAttendanceLock, TouchesPlan, TouchesAttendance, ReplaceStatus,
      StatusSet, Signatures, ChangedEventDays, AnyLocked, MonthsFor, AttendanceConflict, Attended, Distinct, SidesOk;
    EmployedIsActive(s.facts, env);
    AttendedIsConflict(s.facts, day);
    LocksConsulted(s.facts, day, status);
    StatusDays(s.facts, day, status);
    OneLocked(s.attendanceLocks, day);
    StatusStored(s.facts, day, status);
  }

  // ---- profiles ----

  ghost predicate AfternoonOk(p: Profile) {
    if p.afternoonEnabled then p.afternoonStart.Some? && p.afternoonStart.value < 22 * 60 else p.afternoonStart == None
  }

  /** A requested profile is refused for a fraction above one, a fraction outside a work contract, figures
      asked of a task-based employment, or an afternoon without a start before 22:00. */
  ghost predicate ProfileAccepted(r: Profile, from: EmploymentType) {
    match r.kind
    case WorkContract => (r.workload.Some? ==> r.workload.value <= 1000) && AfternoonOk(r)
    case TaskShiftBased =>
      r.kind != from
      || r == Profile(TaskShiftBased, None, false, false, false, None, false, false, false)
    case _ => (r.kind != from || r.workload == None) && AfternoonOk(r)
  }

  /** What is stored for a requested profile: the request, except that a work contract has total and night
      hours and a fraction, one when none or zero was asked for, that other types have none, and that
      a change to a task-based employment turns everything off. */
  ghost predicate ProfileStored(r: Profile, from: EmploymentType, p: Profile) {
    var contract, emptied := r.kind == WorkContract, r.kind == TaskShiftBased && from != TaskShiftBased;
    && p.kind == r.kind
    && p.workload == (if !contract then None else if r.workload == None || r.workload == Some(0) then Some(1000) else r.workload)
    && p.totalEnabled == (contract || (r.totalEnabled && !emptied))
    && p.nightEnabled == (contract || (r.nightEnabled && !emptied))
    && p.automaticBreaks == (r.automaticBreaks && !emptied)
    && p.afternoonEnabled == (r.afternoonEnabled && !emptied)
    && p.afternoonStart == (if emptied then None else r.afternoonStart)
    && p.weekendEnabled == (r.weekendEnabled && !emptied)
    && p.holidayEnabled == (r.holidayEnabled && !emptied)
  }

  lemma {:induction false} ProfileExactly(r: Profile, from: EmploymentType)
    ensures var p := Normalized(r, r.kind != from);
      (ValidProfile(p) <==> ProfileAccepted(r, from)) && (ValidProfile(p) ==> ProfileStored(r, from, p))
  {
  }

  /** A valid request that keeps the type is stored as it is. */
  lemma {:induction false} ValidStoredVerbatim(r: Profile, p: Profile)
    requires ValidProfile(r)
    ensures ProfileAccepted(r, r.kind)
    ensures ProfileStored(r, r.kind, p) <==> p == r
  {
  }

  // ---- the employment ----

  /** The employment's facts with another period. */
  function WithPeriod(f: Facts, start: nat, end: Option<nat>): Facts {
    f.(start := start, end := end)
  }

  /** Some day of the month lies in the employment period. */
  ghost predicate MonthInside(f: Facts, m: nat) {
    exists day :: MonthOf(day) == m && InPeriod(f, day)
  }

  /** Every record lies in the period. */
  ghost predicate NothingOutside(s: State, start: nat, end: Option<nat>) {
    var f := WithPeriod(s.facts, start, end);
    && (forall e :: e in f.events ==> InPeriod(f, DayOf(e.at)))
    && (forall day :: day in f.attendance || day in f.plans ==> InPeriod(f, day))
    && (forall m :: m in s.attendanceLocks || m in s.planLocks || m in s.selections ==> MonthInside(f, m))
    && (forall r :: r in s.reminders ==> InPeriod(f, r.day))
  }

  ghost predicate PeriodOk(f: Facts) {
    f.end.Some? ==> f.start <= f.end.value
  }

  lemma {:induction false} MonthInsideIff(f: Facts, m: nat)
    requires PeriodOk(f)
    ensures MonthInside(f, m) <==> !MonthOut(m, f.start, f.end)
    ensures MonthInside(f, m) <==> OverlapsMonth(f, m)
  {
    hide MonthOf, MonthStart;
    MonthNotEmpty(m);
    if !MonthOut(m, f.start, f.end) {
      var day := if f.start <= MonthStart(m) then MonthStart(m) else f.start;
      MonthUnique(day, m);
    }
    if day :| MonthOf(day) == m && InPeriod(f, day) {
      MonthUnique(day, m);
    }
  }

  lemma {:induction false} DayOutIff(f: Facts, day: nat)
    ensures InPeriod(f, day) <==> !DayOut(day, f.start, f.end)
  {
  }

  lemma {:induction false} EmptyOutDays(days: set<nat>, start: nat, end: Option<nat>)
    ensures OutDays(days, start, end) == {} <==> forall day :: day in days ==> !DayOut(day, start, end)
  {
    hide DayOut;
    if day :| day in days && DayOut(day, start, end) { assert day in OutDays(days, start, end); }
  }

  lemma {:induction false} EmptyOutMonths(months: set<nat>, start: nat, end: Option<nat>)
    ensures OutMonths(months, start, end) == {} <==> forall m :: m in months ==> !MonthOut(m, start, end)
  {
    hide MonthOut;
    if m :| m in months && MonthOut(m, start, end) { assert m in OutMonths(months, start, end); }
  }

  lemma {:induction false} EmptyOutRows(events: seq<Event>, reminders: set<Reminder>, start: nat, end: Option<nat>)
    ensures OutRowIds(events, start, end) == {} <==> forall e :: e in events ==> !DayOut(DayOf(e.at), start, end)
    ensures OutReminders(reminders, start, end) == {} <==> forall r :: r in reminders ==> !DayOut(r.day, start, end)
  {
    hide DayOut, DayOf;
    if e :| e in events && DayOut(DayOf(e.at), start, end) { assert e.id in OutRowIds(events, start, end); }
    if r :| r in reminders && DayOut(r.day, start, end) { assert r in OutReminders(reminders, start, end); }
  }

  /** A preview counts nothing exactly when every record lies in the new period. */
  lemma {:induction false} PreviewIsNothing(s: State, start: nat, end: Option<nat>)
    requires Distinct(s.facts.events) && PeriodOk(WithPeriod(s.facts, start, end))
    ensures PreviewOf(s, start, end) == NOTHING <==> NothingOutside(s, start, end)
  {
    hide PreviewOf, OutDays, OutMonths, OutReminders, OutEventIds, OutRowIds, DayOut, MonthOut, MonthInside, InPeriod, Distinct,
      DayOf, OverlapsMonth;
    var f := WithPeriod(s.facts, start, end);
    NothingCounted(s, start, end);
    DeletionClosedUnderPairing(s.facts.events, start, end);
    EmptyOutRows(s.facts.events, s.reminders, start, end);
    EmptyOutDays(s.facts.attendance.Keys, start, end);
    EmptyOutDays(s.facts.plans.Keys, start, end);
    EmptyOutMonths(s.attendanceLocks, start, end);
    EmptyOutMonths(s.planLocks, start, end);
    EmptyOutMonths(s.selections, start, end);
    forall day: nat ensures InPeriod(f, day) <==> !DayOut(day, start, end) { DayOutIff(f, day); }
    forall m: nat ensures MonthInside(f, m) <==> !MonthOut(m, start, end) { MonthInsideIff(f, m); }
  }

  /** An employment may be given a period that does not end before it starts and an acceptable profile;
      records outside the period take a confirmation. */
  ghost predicate Updatable(s: State, r: Request) {
    && PeriodOk(WithPeriod(s.facts, r.start, r.end))
    && (r.confirmed || NothingOutside(s, r.start, r.end))
    && ProfileAccepted(r.profile, s.facts.profile.kind)
  }

  /** The new period and profile are stored, and of all records those in the new period are left. */
  ghost predicate UpdatedTo(s: State, r: Request, t: State) {
    && t.facts.start == r.start && t.facts.end == r.end && ProfileStored(r.profile, s.facts.profile.kind, t.facts.profile)
    && t.nextId == s.nextId
    && (forall e :: e in t.facts.events <==> e in s.facts.events && InPeriod(t.facts, DayOf(e.at)))
    && (forall day :: Get(t.facts.attendance, day) == if InPeriod(t.facts, day) then Get(s.facts.attendance, day) else None)
    && (forall day :: Get(t.facts.plans, day) == if InPeriod(t.facts, day) then Get(s.facts.plans, day) else None)
    && (forall m :: m in t.attendanceLocks <==> m in s.attendanceLocks && MonthInside(t.facts, m))
    && (forall m :: m in t.planLocks <==> m in s.planLocks && MonthInside(t.facts, m))
    && (forall m :: m in t.selections <==> m in s.selections && MonthInside(t.facts, m))
    && (forall x :: x in t.reminders <==> x in s.reminders && InPeriod(t.facts, x.day))
  }

  lemma {:induction false} RowsLeft(s: State, start: nat, end: Option<nat>)
    requires Distinct(s.facts.events)
    ensures forall e :: e in Trimmed(s, start, end).facts.events <==>
      e in s.facts.events && !DayOut(DayOf(e.at), start, end)
  {
    hide DayOf, DayOut, OutRowIds, OutEventIds, Distinct;
    var ids := OutEventIds(s.facts.events, start, end);
    DeletionClosedUnderPairing(s.facts.events, start, end);
    WithoutElements(s.facts.events, ids);
    forall e | e in s.facts.events ensures e.id in ids <==> DayOut(DayOf(e.at), start, end) {
      OutRowById(s.facts.events, e, start, end);
    }
  }

  lemma {:induction false} RecordsLeft(s: State, start: nat, end: Option<nat>)
    ensures var t := Trimmed(s, start, end);
      && (forall day :: Get(t.facts.attendance, day) == if DayOut(day, start, end) then None else Get(s.facts.attendance, day))
      && (forall day :: Get(t.facts.plans, day) == if DayOut(day, start, end) then None else Get(s.facts.plans, day))
      && (forall m :: m in t.attendanceLocks <==> m in s.attendanceLocks && !MonthOut(m, start, end))
      && (forall m :: m in t.planLocks <==> m in s.planLocks && !MonthOut(m, start, end))
      && (forall m :: m in t.selections <==> m in s.selections && !MonthOut(m, start, end))
      && (forall x :: x in t.reminders <==> x in s.reminders && !DayOut(x.day, start, end))
      && t.nextId == s.nextId
  {
    hide DayOut, MonthOut, OutEventIds, Without;
  }

  lemma {:induction false} TrimmedRecords(s: State, r: Request, t: State, profile: Profile)
    requires Distinct(s.facts.events) && PeriodOk(WithPeriod(s.facts, r.start, r.end))
    requires var u := Trimmed(s, r.start, r.end); t == u.(facts := u.facts.(profile := profile, start := r.start, end := r.end))
    requires ProfileStored(r.profile, s.facts.profile.kind, profile)
    ensures UpdatedTo(s, r, t)
  {
    hide DayOf, DayOut, MonthOut, Trimmed, Distinct, InPeriod, MonthInside, ProfileStored, OverlapsMonth;
    RowsLeft(s, r.start, r.end);
    RecordsLeft(s, r.start, r.end);
    forall day: nat ensures InPeriod(t.facts, day) <==> !DayOut(day, r.start, r.end) { DayOutIff(t.facts, day); }
    forall m: nat ensures MonthInside(t.facts, m) <==> !MonthOut(m, r.start, r.end) { MonthInsideIff(t.facts, m); }
  }

  /** An update commits exactly when it is allowed, and then stores the requested period and profile and
      keeps exactly the records inside the period. */
  lemma {:induction false} UpdateExactly(s: State, r: Request)
    requires Distinct(s.facts.events)
    ensures var o := UpdateEmployment(s, r);
      && (o.Updated? <==> Updatable(s, r))
      && (o.Updated? ==> UpdatedTo(s, r, o.state) && ValidProfile(o.state.facts.profile))
  {
    hide PreviewOf, Trimmed, Normalized, ValidProfile, MetricProfileChanged, Distinct, ProfileAccepted, ProfileStored, UpdatedTo,
      NothingOutside;
    ProfileExactly(r.profile, s.facts.profile.kind);
    var profile := Normalized(r.profile, r.profile.kind != s.facts.profile.kind);
    if PeriodOk(WithPeriod(s.facts, r.start, r.end)) {
      PreviewIsNothing(s, r.start, r.end);
      if PreviewOf(s, r.start, r.end) == NOTHING {
        EmptyPreviewTrimsNothing(s, r.start, r.end);
      }
      var u := Trimmed(s, r.start, r.end);
      if ValidProfile(profile) {
        TrimmedRecords(s, r, u.(facts := u.facts.(profile := profile, start := r.start, end := r.end)), profile);
      }
    }
  }

  // ---- locks ----

  /** The lock of one month is held or not, as requested; all others are as before. */
  ghost predicate LockChanged(s: State, t: State, kind: LockKind, m: nat, locked: bool) {
    && t == s.(attendanceLocks := t.attendanceLocks, planLocks := t.planLocks)
    && (forall k :: k in t.attendanceLocks <==> if kind == AttendanceLock && k == m then locked else k in s.attendanceLocks)
    && (forall k :: k in t.planLocks <==> if kind == PlanLock && k == m then locked else k in s.planLocks)
  }

  /** Only a month that shares a day with the employment can be locked or unlocked. */
  lemma {:induction false} LockExactly(s: State, kind: LockKind, m: nat, locked: bool)
    requires PeriodOk(s.facts)
    ensures var t := AfterLock(s, kind, m, locked);
      if MonthInside(s.facts, m) then LockChanged(s, t, kind, m, locked) else t == s
  {
    hide MonthInside, OverlapsMonth;
    MonthInsideIff(s.facts, m);
    match kind
    case AttendanceLock =>
    case PlanLock =>
  }
}
