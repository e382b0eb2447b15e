/** The administrator's operations on one employment as atomic steps: what each one commits, or why it
    aborts and leaves the database as it was (app/api/v1/admin_attendance.py,
    app/api/v1/admin_shift_plan.py, app/services/day_status.py, app/services/attendance_mutations.py,
    app/services/locks.py). */
module Ledger {
  import opened Options
  import opened Calendar
  import opened Intervals
  import opened Breaks
  import opened Backfill
  import opened Metrics
  import opened Punches
  import opened Summary

  datatype Reminder = Reminder(day: nat, kind: nat, sequenceNo: nat)

  /** Everything stored about one employment. */
  datatype State = State(
    facts: Facts,
    nextId: nat,
    attendanceLocks: set<nat>,
    planLocks: set<nat>,
    selections: set<nat>,
    reminders: set<Reminder>,
    table: Table)

  datatype Error =
    | NotFound
    | NotActive
    | PeriodMismatch
    | Alternation
    | EventConflict
    | StatusConflict
    | MonthLocked
    | ConfirmationRequired
    | PlanMustEndSameDay
    | PlanBlocked
    | PlanOverlap
    | AttendanceExists
    | InvalidStatus
    | InvalidPeriod
    | InvalidProfile
    | UniqueViolation

  /** Clock and login state the endpoints consult. */
  datatype Env = Env(today: nat, userActive: bool)

  predicate InPeriod(f: Facts, day: nat) {
    f.start <= day && (f.end.Some? ==> day <= f.end.value)
  }

  predicate Active(f: Facts, env: Env) {
    InPeriod(f, env.today) && env.userActive
  }

  // ---- attendance_mutations ----

  function Signatures(events: seq<Event>): set<WorkInterval> {
    var pairs := PairEvents(events);
    set k | 0 <= k < |pairs| :: pairs[k]
  }

  function DaysOf(x: WorkInterval): set<nat> {
    var parts := SplitByDay(x);
    set k | 0 <= k < |parts| :: parts[k].day
  }

  function ChangedEventDays(before: set<WorkInterval>, after: set<WorkInterval>, stamps: set<nat>): set<nat> {
    (set t | t in stamps :: DayOf(t))
      + (set x, day | x in (before - after) + (after - before) && day in DaysOf(x) :: day)
  }

  function MonthsFor(days: set<nat>): set<nat> {
    set day | day in days :: MonthOf(day)
  }

  predicate HasStatus(f: Facts, day: nat) {
    || (day in f.attendance && f.attendance[day].Some?)
    || (day in f.plans && f.plans[day].status.Some?)
  }

  predicate AnyStatus(f: Facts, days: set<nat>) {
    exists day | day in days :: HasStatus(f, day)
  }

  predicate AnyLocked(locks: set<nat>, months: set<nat>) {
    exists m | m in months :: m in locks
  }

  // ---- what an operation does ----

  datatype Outcome =
    | Abort(error: Error)
    | Commit(facts: Facts, nextId: nat, months: set<nat>)

  function NewRows(nextId: nat, times: seq<nat>): seq<Event>
    decreases |times|
  {
    if times == [] then [] else [Event(nextId, times[0])] + NewRows(nextId + 1, times[1..])
  }

  /** The unique constraint on (employment, time) accepts the new rows. */
  predicate Insertable(events: seq<Event>, times: seq<nat>) {
    && (forall i, j :: 0 <= i < j < |times| ==> times[i] != times[j])
    && (forall i, k :: 0 <= i < |times| && 0 <= k < |events| ==> events[k].at != times[i])
  }

  /** `create_event`. */
  function CreateEvent(s: State, env: Env, at: nat, paired: Option<nat>): Outcome {
    var f := s.facts;
    if !env.userActive then Abort(NotFound)
    else if !Active(f, env) then Abort(NotActive)
    else if !InPeriod(f, DayOf(at)) || (paired.Some? && !InPeriod(f, DayOf(paired.value))) then Abort(PeriodMismatch)
    else if paired.Some? && (DayOf(paired.value) != DayOf(at) || paired.value <= at) then Abort(Alternation)
    else
      var breaks := f.profile.automaticBreaks;
      var times := if paired.Some? then ClosedAdditions(breaks, at, paired.value) else EventAdditions(breaks, f.events, at);
      if !Insertable(f.events, times) then Abort(EventConflict)
      else
        var events := f.events + NewRows(s.nextId, times);
        var stamps := {at} + if paired.Some? then {paired.value} else {};
        var days := ChangedEventDays(Signatures(f.events), Signatures(events), stamps);
        if AnyStatus(f, days) then Abort(StatusConflict)
        else if AnyLocked(s.attendanceLocks, MonthsFor(days)) then Abort(MonthLocked)
        else Commit(f.(events := events), s.nextId + |times|, MonthsFor(days))
  }

  predicate HasRow(events: seq<Event>, id: nat) {
    exists i | 0 <= i < |events| :: events[i].id == id
  }

  function RowIndex(events: seq<Event>, id: nat): (i: nat)
    requires HasRow(events, id)
    ensures i < |events| && events[i].id == id
  {
    if events[0].id == id then 0 else 1 + RowIndex(events[1..], id)
  }

  function Without(events: seq<Event>, ids: set<nat>): seq<Event> {
    if events == [] then []
    else (if events[0].id in ids then [] else [events[0]]) + Without(events[1..], ids)
  }

  /** `update_event`: move one stored row to another time. */
  function MoveEvent(s: State, env: Env, id: nat, at: nat): Outcome {
    var f := s.facts;
    if !HasRow(f.events, id) then Abort(NotFound)
    else if !Active(f, env) then Abort(NotActive)
    else if !InPeriod(f, DayOf(at)) then Abort(PeriodMismatch)
    else
      var i := RowIndex(f.events, id);
      var events := f.events[i := Event(id, at)];
      if !Insertable(f.events[..i] + f.events[i + 1..], [at]) then Abort(EventConflict)
      else
        var days := ChangedEventDays(Signatures(f.events), Signatures(events), {f.events[i].at, at});
        if AnyStatus(f, days) then Abort(StatusConflict)
        else if AnyLocked(s.attendanceLocks, MonthsFor(days)) then Abort(MonthLocked)
        else Commit(f.(events := events), s.nextId, MonthsFor(days))
  }

  /** `delete_event`, alone or with a second row. */
  function DeleteEvent(s: State, env: Env, id: nat, paired: Option<nat>): Outcome {
    var f := s.facts;
    if !HasRow(f.events, id) then Abort(NotFound)
    else if !Active(f, env) then Abort(NotActive)
    else if paired.Some? && (!HasRow(f.events, paired.value) || paired.value == id) then Abort(NotFound)
    else
      var ids := {id} + if paired.Some? then {paired.value} else {};
      var stamps := {f.events[RowIndex(f.events, id)].at}
        + if paired.Some? then {f.events[RowIndex(f.events, paired.value)].at} else {};
      var events := Without(f.events, ids);
      var days := ChangedEventDays(Signatures(f.events), Signatures(events), stamps);
      if AnyLocked(s.attendanceLocks, MonthsFor(days)) then Abort(MonthLocked)
      else Commit(f.(events := events), s.nextId, MonthsFor(days))
  }

  /** Pairs of one group none of whose ends is already stored. */
  function NewPairs(additions: seq<nat>, existing: set<nat>): seq<nat> {
    if |additions| < 2 then []
    else (if additions[0] in existing || additions[1] in existing then [] else [additions[0], additions[1]])
         + NewPairs(additions[2..], existing)
  }

  /** Times inserted group by group; every insertion counts as existing for the later groups. */
  function Inserted(groups: seq<seq<nat>>, existing: set<nat>): seq<nat> {
    if groups == [] then []
    else
      var times := NewPairs(groups[0], existing);
      times + Inserted(groups[1..], existing + set t | t in times)
  }

  /** How many groups contribute at least one new pair. */
  function Affected(groups: seq<seq<nat>>, existing: set<nat>): nat {
    if groups == [] then 0
    else
      var times := NewPairs(groups[0], existing);
      (if times == [] then 0 else 1) + Affected(groups[1..], existing + set t | t in times)
  }

  function TimeSet(events: seq<Event>): set<nat> {
    set e | e in events :: e.at
  }

  /** `add_missing_breaks` for one month. */
  function AddBreaks(s: State, env: Env, m: nat, confirmed: bool): Outcome {
    var f := s.facts;
    if !confirmed then Abort(ConfirmationRequired)
    else if !env.userActive then Abort(NotFound)
    else if !Active(f, env) then Abort(NotActive)
    else if m in s.attendanceLocks then Abort(MonthLocked)
    else
      var groups := MissingBreakGroups(PairEvents(f.events), MonthStart(m) * MINUTES_PER_DAY, MonthStart(m + 1) * MINUTES_PER_DAY);
      var times := Inserted(groups, TimeSet(f.events));
      if AnyLocked(s.attendanceLocks, set t | t in times :: MonthOf(DayOf(t))) then Abort(MonthLocked)
      else if !Insertable(f.events, times) then Abort(UniqueViolation)
      else
        var events := f.events + NewRows(s.nextId, times);
        var days := ChangedEventDays(Signatures(f.events), Signatures(events), {});
        if AnyStatus(f, days) then Abort(StatusConflict)
        else if AnyLocked(s.attendanceLocks, MonthsFor(days)) then Abort(MonthLocked)
        else Commit(f.(events := events), s.nextId + |times|, MonthsFor(days))
  }

  // ---- plans and day statuses ----

  predicate EventsExist(f: Facts, day: nat) {
    OfDay(f.events, day) != []
  }

  /** `collect_day_status_conflicts`. */
  predicate AttendanceConflict(f: Facts, day: nat) {
    (day in f.attendance && f.attendance[day].Some?) || EventsExist(f, day)
  }

  predicate PlansOverlap(a: Option<WorkInterval>, b: Option<WorkInterval>) {
    a.Some? && b.Some? && a.value.start < b.value.end && b.value.start < a.value.end
  }

  predicate OverlapsOtherPlan(f: Facts, day: nat, plan: Plan) {
    exists other | other in f.plans.Keys ::
      other != day && PlansOverlap(PlanInterval(day, plan), PlanInterval(other, f.plans[other]))
  }

  /** Plans stay inside their day, so the overlap check never refuses anything. */
  lemma {:induction false} PlansNeverOverlap(f: Facts, day: nat, plan: Plan)
    ensures !OverlapsOtherPlan(f, day, plan)
  {
    hide DayOf;
    forall other | other in f.plans.Keys && other != day
      ensures !PlansOverlap(PlanInterval(day, plan), PlanInterval(other, f.plans[other]))
    {
      if day < other {
        assert (day + 1) * MINUTES_PER_DAY <= other * MINUTES_PER_DAY;
      } else {
        assert (other + 1) * MINUTES_PER_DAY <= day * MINUTES_PER_DAY;
      }
    }
  }

  function WithPlan(f: Facts, day: nat, plan: Option<Plan>): Facts {
    f.(plans := if plan.Some? then f.plans[day := plan.value] else f.plans - {day})
  }

  /** `_admin_upsert_shift_plan_impl`. */
  function UpsertPlan(s: State, env: Env, day: nat, arrival: Option<MinuteOfDay>, departure: Option<MinuteOfDay>,
                      status: Option<Status>, confirmed: bool): Outcome {
    var f := s.facts;
    if !Active(f, env) then Abort(NotActive)
    else if !InPeriod(f, day) then Abort(PeriodMismatch)
    else if MonthOf(day) in s.planLocks then Abort(MonthLocked)
    else if arrival.Some? && departure.Some? && departure.value <= arrival.value then Abort(PlanMustEndSameDay)
    else if status.Some? && status.value !in {Vacation, DayOff} then Abort(InvalidStatus)
    else if EffectiveStatus(f, day).Some? && status == None && (arrival.Some? || departure.Some?) then Abort(PlanBlocked)
    else if status.Some? && AttendanceConflict(f, day) then Abort(AttendanceExists)
    else if status.Some? && day in f.plans && !confirmed then Abort(ConfirmationRequired)
    else
      var plan := if status.Some? then Plan(None, None, status) else Plan(arrival, departure, None);
      if plan == Plan(None, None, None) then
        Commit(WithPlan(f, day, None), s.nextId, if day in f.plans then {MonthOf(day)} else {})
      else if OverlapsOtherPlan(f, day, plan) then Abort(PlanOverlap)
      else Commit(WithPlan(f, day, Some(plan)), s.nextId, {MonthOf(day)})
  }

  /** What is left of a day's rows when its status is cleared: a status-less attendance row only
      while the day has punches, a plan only while it has a time. */
  function ClearedAttendance(f: Facts, day: nat): map<nat, Option<Status>> {
    if day !in f.attendance then f.attendance
    else if EventsExist(f, day) then f.attendance[day := None]
    else f.attendance - {day}
  }

  function ClearedPlans(f: Facts, day: nat): map<nat, Plan> {
    if day !in f.plans then f.plans
    else if f.plans[day].arrival == None && f.plans[day].departure == None then f.plans - {day}
    else f.plans[day := f.plans[day].(status := None)]
  }

  function OtherDays(s: seq<Event>, day: nat): seq<Event> {
    if s == [] then [] else (if DayOf(s[0].at) == day then [] else [s[0]]) + OtherDays(s[1..], day)
  }

  /** `replace_day_status` once confirmed: the facts after it. */
  function ReplaceStatus(f: Facts, day: nat, status: Option<Status>): Facts {
    match status
    case None => f.(attendance := ClearedAttendance(f, day), plans := ClearedPlans(f, day))
    case Some(value) =>
      if value == Vacation || value == DayOff then
        f.(events := OtherDays(f.events, day), attendance := f.attendance - {day},
           plans := f.plans[day := Plan(None, None, Some(value))])
      else
        f.(events := OtherDays(f.events, day), attendance := f.attendance[day := Some(value)],
           plans := f.plans - {day})
  }

  predicate IsPlanStatus(status: Option<Status>) {
    status == Some(Vacation) || status == Some(DayOff)
  }

  predicate IsAttendanceStatus(status: Option<Status>) {
    status == Some(Sickness) || status == Some(Paragraph)
  }

  predicate ChecksPlanLock(f: Facts, day: nat, status: Option<Status>) {
    IsPlanStatus(status) || IsPlanStatus(EffectiveStatus(f, day)) || day in f.plans
  }

  predicate ChecksAttendanceLock(f: Facts, day: nat, status: Option<Status>) {
    IsAttendanceStatus(status) || IsAttendanceStatus(EffectiveStatus(f, day)) || AttendanceConflict(f, day)
  }

  /** `admin_upsert_day_status`. */
  function UpsertDayStatus(s: State, env: Env, day: nat, status: Option<Status>, confirmed: bool): Outcome {
    var f := s.facts;
    if !Active(f, env) then Abort(NotActive)
    else if !InPeriod(f, day) then Abort(PeriodMismatch)
    else
      var plan, attendance := ChecksPlanLock(f, day, status), ChecksAttendanceLock(f, day, status);
      if (plan || !attendance) && MonthOf(day) in s.planLocks then Abort(MonthLocked)
      else if (attendance || !plan) && MonthOf(day) in s.attendanceLocks then Abort(MonthLocked)
      else if status.Some? && (AttendanceConflict(f, day) || day in f.plans) && !confirmed then Abort(ConfirmationRequired)
      else
        var g := ReplaceStatus(f, day, status);
        var days := ChangedEventDays(Signatures(f.events), Signatures(g.events), {}) + {day};
        if attendance && AnyLocked(s.attendanceLocks, MonthsFor(days)) then Abort(MonthLocked)
        else Commit(g, s.nextId, MonthsFor(days))
  }
}
