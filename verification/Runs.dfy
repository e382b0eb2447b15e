/** Runs of administrator steps on one employment, and what holds after every run. */
module Runs {
  import opened Options
  import opened Calendar
  import opened Intervals
  import opened Backfill
  import opened Metrics
  import opened Summary
  import opened Ledger
  import opened Footprint
  import opened Invariants
  import opened Punches
  import opened Period

  datatype LockKind = AttendanceLock | PlanLock

  datatype Op =
    | Create(env: Env, at: nat, paired: Option<nat>)
    | Move(env: Env, id: nat, at: nat)
    | Delete(env: Env, id: nat, pairedId: Option<nat>)
    | Breaks(env: Env, month: nat, confirmed: bool)
    | PutPlan(env: Env, day: nat, arrival: Option<MinuteOfDay>, departure: Option<MinuteOfDay>,
              status: Option<Status>, confirmed: bool)
    | PutStatus(env: Env, day: nat, status: Option<Status>, confirmed: bool)
    | Update(request: Request)
    | SetLock(kind: LockKind, month: nat, locked: bool)

  /** A month can be locked or unlocked only while the employment overlaps it (admin_locks.py). */
  predicate OverlapsMonth(f: Facts, m: nat) {
    f.start < MonthStart(m + 1) && (f.end.Some? ==> MonthStart(m) <= f.end.value)
  }

  function WithLock(locks: set<nat>, m: nat, locked: bool): set<nat> {
    if locked then locks + {m} else locks - {m}
  }

  /** `set_month_lock_state_bulk` for one employment. */
  function AfterLock(s: State, kind: LockKind, m: nat, locked: bool): State {
    if !OverlapsMonth(s.facts, m) then s
    else if kind == AttendanceLock then s.(attendanceLocks := WithLock(s.attendanceLocks, m, locked))
    else s.(planLocks := WithLock(s.planLocks, m, locked))
  }

  function OutcomeOf(s: State, op: Op): Outcome
    requires !op.Update? && !op.SetLock?
  {
    match op
    case Create(env, at, paired) => CreateEvent(s, env, at, paired)
    case Move(env, id, at) => MoveEvent(s, env, id, at)
    case Delete(env, id, pairedId) => DeleteEvent(s, env, id, pairedId)
    case Breaks(env, m, confirmed) => AddBreaks(s, env, m, confirmed)
    case PutPlan(env, day, arrival, departure, status, confirmed) =>
      UpsertPlan(s, env, day, arrival, departure, status, confirmed)
    case PutStatus(env, day, status, confirmed) => UpsertDayStatus(s, env, day, status, confirmed)
  }

  ghost predicate Step(s: State, op: Op, s': State) {
    match op
    case Update(request) => Updates(s, request, s')
    case SetLock(kind, m, locked) => s' == AfterLock(s, kind, m, locked)
    case _ => Applies(s, OutcomeOf(s, op), s')
  }

  /** A finite run: every step relates a state to the next one. */
  ghost predicate Run(states: seq<State>, ops: seq<Op>) {
    |states| == |ops| + 1 && forall i :: 0 <= i < |ops| ==> Step(states[i], ops[i], states[i + 1])
  }

  /** A newly created employment: no facts and an empty cache. */
  ghost predicate Initial(s: State) {
    && s.facts.events == [] && s.facts.attendance == map[] && s.facts.plans == map[]
    && s.table == map[] && 0 < s.nextId
  }

  lemma {:induction false} InitialInv(s: State)
    requires Initial(s)
    ensures Inv(s)
  {
    hide MonthOf, Worked, Planned;
    forall key: Key ensures CanonicalRow(s.facts, key) == None {
      forall day ensures !AttendanceSeen(Day(s.facts, None, day)) && !PlanSeen(Day(s.facts, None, day)) {
        EmptyDay(s.facts, day);
      }
    }
  }

  lemma {:induction false} EmptyDay(f: Facts, day: nat)
    requires f.events == [] && f.attendance == map[] && f.plans == map[]
    ensures !AttendanceSeen(Day(f, None, day)) && !PlanSeen(Day(f, None, day))
  {
    hide MetricsOfParts, Worked, Planned;
    WorkedFromDay(f, day);
    PlannedFromDay(f, day);
    assert DayState(f.events, day) == Empty;
    NoEventsNoIntervals(f.events, day);
    NoPlanNoParts(f.plans, day);
    if f.profile.kind != TaskShiftBased {
      NoPartsNoMinutes(f.profile, day);
    }
  }

  lemma {:induction false} StepKeepsInv(s: State, op: Op, s': State)
    requires Inv(s) && Step(s, op, s')
    ensures Inv(s')
  {
    hide Inv, Applies, Updates, CreateEvent, MoveEvent, DeleteEvent, AddBreaks, UpsertPlan, UpsertDayStatus, OverlapsMonth;
    match op
    case Create(env, at, paired) => CreateKeepsInv(s, env, at, paired, s');
    case Move(env, id, at) => MoveKeepsInv(s, env, id, at, s');
    case Delete(env, id, pairedId) => DeleteKeepsInv(s, env, id, pairedId, s');
    case Breaks(env, m, confirmed) => BreaksKeepInv(s, env, m, confirmed, s');
    case PutPlan(env, day, arrival, departure, status, confirmed) =>
      PlanKeepsInv(s, env, day, arrival, departure, status, confirmed, s');
    case PutStatus(env, day, status, confirmed) => StatusKeepsInv(s, env, day, status, confirmed, s');
    case Update(request) => UpdateKeepsInv(s, request, s');
    case SetLock(kind, m, locked) => LocksKeepInv(s, s');
  }

  lemma {:induction false} LocksKeepInv(s: State, s': State)
    requires Inv(s) && s' == s.(attendanceLocks := s'.attendanceLocks, planLocks := s'.planLocks)
    ensures Inv(s')
  {
    hide CacheExact, Exclusive, Contained, Distinct;
  }

  /** In every reachable state statuses are exclusive, facts lie in the employment period and the
      cache equals full recomputation. */
  lemma {:induction false} RunKeepsInv(states: seq<State>, ops: seq<Op>)
    requires Run(states, ops) && Initial(states[0])
    ensures forall i :: 0 <= i < |states| ==> Inv(states[i])
    decreases |ops|
  {
    hide Inv, Step, Initial;
    if ops == [] {
      InitialInv(states[0]);
    } else {
      var n := |ops| - 1;
      RunKeepsInv(states[..n + 1], ops[..n]);
      assert Inv(states[..n + 1][n]);
      StepKeepsInv(states[n], ops[n], states[n + 1]);
      forall i | 0 <= i < |states| ensures Inv(states[i]) {
        if i <= n { assert states[..n + 1][i] == states[i]; }
      }
    }
  }

  /** After any run, reading a month from the cache returns what recomputing it would. */
  lemma {:induction false} ReadsAreExactAfterAnyRun(states: seq<State>, ops: seq<Op>, m: nat)
    requires Run(states, ops) && Initial(states[0])
    ensures var s := states[|ops|];
      MonthSummaryOf(s.facts, Some(s.table), m) == MonthSummaryOf(s.facts, None, m)
  {
    hide Initial, MonthSummaryOf, CacheExact, Step;
    RunKeepsInv(states, ops);
    PersistedReadsAreExact(states[|ops|].facts, states[|ops|].table, m);
  }

  // ---- month locks ----

  function AttendanceStatus(f: Facts, day: nat): Option<Status> {
    if day in f.attendance then f.attendance[day] else None
  }

  /** Punches and attendance statuses of one month are the same. */
  ghost predicate SameAttendanceMonth(f: Facts, g: Facts, m: nat) {
    forall day :: MonthOf(day) == m ==>
      DayTimes(f.events, day) == DayTimes(g.events, day) && AttendanceStatus(f, day) == AttendanceStatus(g, day)
  }

  /** Plan times and plan statuses of one month are the same. */
  ghost predicate SamePlanMonth(f: Facts, g: Facts, m: nat) {
    forall day :: MonthOf(day) == m ==> Get(f.plans, day) == Get(g.plans, day)
  }

  lemma {:induction false} UnlockedDays(locks: set<nat>, days: set<nat>, m: nat, day: nat)
    requires m in locks && !AnyLocked(locks, MonthsFor(days)) && MonthOf(day) == m
    ensures day !in days
  {
    hide MonthOf;
    assert day in days ==> MonthOf(day) in MonthsFor(days);
  }

  lemma {:induction false} PunchStepRespectsLock(s: State, events: seq<Event>, days: set<nat>, m: nat)
    requires PunchStep(s.facts, events, days)
    requires m in s.attendanceLocks && !AnyLocked(s.attendanceLocks, MonthsFor(days))
    ensures SameAttendanceMonth(s.facts, s.facts.(events := events), m)
  {
    hide MonthOf, Distinct, DayTimes, MonthsFor;
    forall day | MonthOf(day) == m ensures DayTimes(s.facts.events, day) == DayTimes(events, day) {
      UnlockedDays(s.attendanceLocks, days, m, day);
    }
  }

  lemma {:induction false} CreateRespectsLock(s: State, env: Env, at: nat, paired: Option<nat>, m: nat)
    requires Inv(s) && m in s.attendanceLocks && CreateEvent(s, env, at, paired).Commit?
    ensures SameAttendanceMonth(s.facts, CreateEvent(s, env, at, paired).facts, m)
  {
    hide DayOf, Distinct, OfDay, MonthOf, CacheExact, Signatures, DayTimes, DaysOf, MonthsFor;
    var f, times := s.facts, CreatedTimes(s.facts, at, paired);
    var events := f.events + NewRows(s.nextId, times);
    var stamps := {at} + if paired.Some? then {paired.value} else {};
    var days := ChangedEventDays(Signatures(f.events), Signatures(events), stamps);
    CreatedOnOneDay(f, at, paired);
    assert DayOf(at) in days by { assert at in stamps; }
    InsertedOnDays(s, times, days);
    PunchStepRespectsLock(s, events, days, m);
  }

  lemma {:induction false} MoveRespectsLock(s: State, env: Env, id: nat, at: nat, m: nat)
    requires Inv(s) && m in s.attendanceLocks && MoveEvent(s, env, id, at).Commit?
    ensures SameAttendanceMonth(s.facts, MoveEvent(s, env, id, at).facts, m)
  {
    hide DayOf, Distinct, OfDay, MonthOf, CacheExact, Signatures, DayTimes, DaysOf, Insertable, MonthsFor;
    var f, i := s.facts, RowIndex(s.facts.events, id);
    var events, from := f.events[i := Event(id, at)], f.events[i].at;
    var days := ChangedEventDays(Signatures(f.events), Signatures(events), {from, at});
    assert from in {from, at} && at in {from, at};
    assert DayOf(from) in days && DayOf(at) in days;
    MovedStep(s, i, at, days);
    PunchStepRespectsLock(s, events, days, m);
  }

  lemma {:induction false} DeleteRespectsLock(s: State, env: Env, id: nat, paired: Option<nat>, m: nat)
    requires Inv(s) && m in s.attendanceLocks && DeleteEvent(s, env, id, paired).Commit?
    ensures SameAttendanceMonth(s.facts, DeleteEvent(s, env, id, paired).facts, m)
  {
    hide DayOf, Distinct, OfDay, MonthOf, CacheExact, Signatures, DayTimes, DaysOf, RowIndex, HasRow, MonthsFor;
    var f := s.facts;
    var ids := {id} + if paired.Some? then {paired.value} else {};
    var stamps := {f.events[RowIndex(f.events, id)].at}
      + if paired.Some? then {f.events[RowIndex(f.events, paired.value)].at} else {};
    var days := ChangedEventDays(Signatures(f.events), Signatures(Without(f.events, ids)), stamps);
    RowOfId(f.events, id);
    if paired.Some? { RowOfId(f.events, paired.value); }
    assert forall t :: t in stamps ==> DayOf(t) in days;
    DeletedStep(s, ids, stamps, days);
    PunchStepRespectsLock(s, Without(f.events, ids), days, m);
  }

  lemma {:induction false} BreaksRespectLock(s: State, env: Env, month: nat, confirmed: bool, m: nat)
    requires Inv(s) && m in s.attendanceLocks && AddBreaks(s, env, month, confirmed).Commit?
    ensures SameAttendanceMonth(s.facts, AddBreaks(s, env, month, confirmed).facts, m)
  {
    hide DayOf, Distinct, OfDay, MonthOf, CacheExact, Signatures, DayTimes, DaysOf, Insertable,
      ChangedEventDays, MonthStart, Inserted, MonthsFor;
    var f, times := s.facts, BreakInsertions(s.facts, month);
    var events := f.events + NewRows(s.nextId, times);
    var days := ChangedEventDays(Signatures(f.events), Signatures(events), {});
    forall t | t in times ensures DayOf(t) in days && InPeriod(f, DayOf(t)) {
      InsertionsDetected(s, month, t);
    }
    InsertedOnDays(s, times, days);
    PunchStepRespectsLock(s, events, days, m);
  }

  lemma {:induction false} ReplacedOtherDay(f: Facts, day: nat, status: Option<Status>, d: nat)
    requires d != day
    ensures var g := ReplaceStatus(f, day, status);
      SameDay(f, g, d) && AttendanceStatus(f, d) == AttendanceStatus(g, d)
  {
    hide DayTimes, OtherDays, OfDay;
    OtherDaysTimes(f.events, day, d);
  }

  /** A status change that does not consult a lock changes nothing the lock protects. */
  lemma {:induction false} UncheckedLocksProtectNothing(f: Facts, day: nat, status: Option<Status>)
    ensures var g := ReplaceStatus(f, day, status);
      && (!ChecksAttendanceLock(f, day, status) ==>
            DayTimes(f.events, day) == DayTimes(g.events, day) && AttendanceStatus(f, day) == AttendanceStatus(g, day))
      && (!ChecksPlanLock(f, day, status) ==> Get(f.plans, day) == Get(g.plans, day))
  {
    hide DayTimes, OtherDays, OfDay;
    OtherDaysTimes(f.events, day, day);
    NoTimesNoRows(f.events, day);
  }

  lemma {:induction false} CommittedStatusIsUnlocked(s: State, env: Env, day: nat, status: Option<Status>, confirmed: bool)
    requires UpsertDayStatus(s, env, day, status, confirmed).Commit?
    ensures UpsertDayStatus(s, env, day, status, confirmed).facts == ReplaceStatus(s.facts, day, status)
    ensures MonthOf(day) in s.attendanceLocks ==> !ChecksAttendanceLock(s.facts, day, status)
    ensures MonthOf(day) in s.planLocks ==> !ChecksPlanLock(s.facts, day, status)
  {
    hide MonthOf, Signatures, ChangedEventDays, MonthsFor, ReplaceStatus, ChecksAttendanceLock, ChecksPlanLock;
  }

  lemma {:induction false} ReplacedMonths(f: Facts, day: nat, status: Option<Status>, m: nat)
    ensures var g := ReplaceStatus(f, day, status);
      && ((MonthOf(day) == m && ChecksAttendanceLock(f, day, status)) || SameAttendanceMonth(f, g, m))
      && ((MonthOf(day) == m && ChecksPlanLock(f, day, status)) || SamePlanMonth(f, g, m))
  {
    hide MonthOf, DayTimes, ReplaceStatus, ChecksAttendanceLock, ChecksPlanLock, AttendanceStatus;
    UncheckedLocksProtectNothing(f, day, status);
    var g := ReplaceStatus(f, day, status);
    if !(MonthOf(day) == m && ChecksAttendanceLock(f, day, status)) {
      forall d | MonthOf(d) == m
        ensures DayTimes(f.events, d) == DayTimes(g.events, d) && AttendanceStatus(f, d) == AttendanceStatus(g, d)
      {
        if d != day { ReplacedOtherDay(f, day, status, d); }
      }
    }
    if !(MonthOf(day) == m && ChecksPlanLock(f, day, status)) {
      forall d | MonthOf(d) == m ensures Get(f.plans, d) == Get(g.plans, d) {
        if d != day { ReplacedOtherDay(f, day, status, d); }
      }
    }
  }

  lemma {:induction false} StatusRespectsLocks(s: State, env: Env, day: nat, status: Option<Status>, confirmed: bool, m: nat)
    requires UpsertDayStatus(s, env, day, status, confirmed).Commit?
    ensures var g := UpsertDayStatus(s, env, day, status, confirmed).facts;
      && (m in s.attendanceLocks ==> SameAttendanceMonth(s.facts, g, m))
      && (m in s.planLocks ==> SamePlanMonth(s.facts, g, m))
  {
    hide *;
    CommittedStatusIsUnlocked(s, env, day, status, confirmed);
    ReplacedMonths(s.facts, day, status, m);
  }

  lemma {:induction false} PlanRespectsLock(s: State, env: Env, day: nat, arrival: Option<MinuteOfDay>,
                                            departure: Option<MinuteOfDay>, status: Option<Status>, confirmed: bool, m: nat)
    requires UpsertPlan(s, env, day, arrival, departure, status, confirmed).Commit?
    ensures var g := UpsertPlan(s, env, day, arrival, departure, status, confirmed).facts;
      && g.events == s.facts.events && g.attendance == s.facts.attendance
      && (m in s.planLocks ==> SamePlanMonth(s.facts, g, m))
  {
    hide MonthOf, OverlapsOtherPlan, AttendanceConflict;
  }

  // ---- period changes do not consult the locks ----

  /** Every day of month `m` with punches or an attendance status lies in the period. */
  ghost predicate AttendanceInside(f: Facts, m: nat, start: nat, end: Option<nat>) {
    forall day :: MonthOf(day) == m && (DayTimes(f.events, day) != {} || AttendanceStatus(f, day).Some?) ==>
      !DayOut(day, start, end)
  }

  /** Every planned day of month `m` lies in the period. */
  ghost predicate PlansInside(f: Facts, m: nat, start: nat, end: Option<nat>) {
    forall day :: MonthOf(day) == m && day in f.plans ==> !DayOut(day, start, end)
  }

  lemma {:induction false} UpdatedRecords(s: State, r: Request)
    requires RowsOk(s) && UpdateEmployment(s, r).Updated?
    ensures var g, t := UpdateEmployment(s, r).state.facts, Trimmed(s, r.start, r.end).facts;
      g.events == t.events && g.attendance == t.attendance && g.plans == t.plans
  {
    hide PreviewOf, Trimmed, Normalized, ValidProfile, MetricProfileChanged, Distinct;
    if PreviewOf(s, r.start, r.end) == NOTHING {
      EmptyPreviewTrimsNothing(s, r.start, r.end);
    }
  }

  lemma {:induction false} TrimmedAttendance(s: State, start: nat, end: Option<nat>, day: nat)
    requires Distinct(s.facts.events)
    ensures var f, g := s.facts, Trimmed(s, start, end).facts;
      if DayOut(day, start, end) then DayTimes(g.events, day) == {} && AttendanceStatus(g, day) == None
      else DayTimes(g.events, day) == DayTimes(f.events, day) && AttendanceStatus(g, day) == AttendanceStatus(f, day)
  {
    hide DayOut, DayTimes, Distinct, OutEventIds, OfDay;
    TrimmedDay(s, start, end, day);
  }

  /** A committed update of an employment leaves the punches and attendance statuses of a month alone if
      and only if all of them lie in the new period; whether the month is locked plays no part. */
  lemma {:induction false} UpdateKeepsAttendanceMonth(s: State, r: Request, m: nat)
    requires RowsOk(s) && UpdateEmployment(s, r).Updated?
    ensures SameAttendanceMonth(s.facts, UpdateEmployment(s, r).state.facts, m)
       <==> AttendanceInside(s.facts, m, r.start, r.end)
  {
    hide UpdateEmployment, Trimmed, DayOut, MonthOf, DayTimes, Distinct;
    UpdatedRecords(s, r);
    forall day ensures var f, g := s.facts, Trimmed(s, r.start, r.end).facts;
      if DayOut(day, r.start, r.end) then DayTimes(g.events, day) == {} && AttendanceStatus(g, day) == None
      else DayTimes(g.events, day) == DayTimes(f.events, day) && AttendanceStatus(g, day) == AttendanceStatus(f, day)
    {
      TrimmedAttendance(s, r.start, r.end, day);
    }
  }

  /** The same for plans: a committed update leaves a month's plans alone if and only if all of them lie
      in the new period. */
  lemma {:induction false} UpdateKeepsPlanMonth(s: State, r: Request, m: nat)
    requires RowsOk(s) && UpdateEmployment(s, r).Updated?
    ensures SamePlanMonth(s.facts, UpdateEmployment(s, r).state.facts, m) <==> PlansInside(s.facts, m, r.start, r.end)
  {
    hide UpdateEmployment, DayOut, MonthOf, Distinct, OutEventIds, Without;
    UpdatedRecords(s, r);
    var f, g := s.facts, Trimmed(s, r.start, r.end).facts;
    forall day ensures Get(g.plans, day) == if DayOut(day, r.start, r.end) then None else Get(f.plans, day) { }
    if !PlansInside(f, m, r.start, r.end) {
      var day :| MonthOf(day) == m && day in f.plans && DayOut(day, r.start, r.end);
      assert Get(f.plans, day) != Get(g.plans, day);
    }
  }

  /** A period that covers the present one, so also an edit of the profile alone, spares every month. */
  lemma {:induction false} WiderPeriodSparesAll(f: Facts, start: nat, end: Option<nat>, m: nat)
    requires Contained(f) && start <= f.start && (end.Some? ==> f.end.Some? && f.end.value <= end.value)
    ensures AttendanceInside(f, m, start, end) && PlansInside(f, m, start, end)
  {
    hide MonthOf, DayTimes, OfDay;
    forall day ensures OfDay(f.events, day) == [] <==> DayTimes(f.events, day) == {} {
      NoTimesNoRows(f.events, day);
    }
  }

  /** A worked day 0 of an employment that starts on day 0. */
  function WorkedDayZero(): Facts {
    Facts([Event(1, 480), Event(2, 960)], map[], map[],
          Profile(DppDpc, None, true, false, false, None, false, false, false), 0, None)
  }

  /** Moving the start to day 1 deletes the punches of day 0 although their month is locked and stays so. */
  lemma {:induction false} PeriodChangeOverridesLock(s: State)
    requires RowsOk(s) && s.facts == WorkedDayZero() && 0 in s.attendanceLocks
    ensures var o := UpdateEmployment(s, Request(s.facts.profile, 1, None, true));
      o.Updated? && 0 in o.state.attendanceLocks && !SameAttendanceMonth(s.facts, o.state.facts, 0)
  {
    hide PreviewOf, DayOut, Distinct, OutEventIds, Without, MonthOut, AttendanceInside, SameAttendanceMonth, MonthStart, MonthOf;
    var r := Request(s.facts.profile, 1, None, true);
    UpdateKeepsAttendanceMonth(s, r, 0);
    DayZeroOutside(s.facts);
    assert !MonthOut(0, 1, None) by { DayOneInFirstMonth(); }
  }

  lemma {:induction false} DayOneInFirstMonth()
    ensures MonthOf(0) == 0 && !MonthOut(0, 1, None)
  {
    hide MonthStart, MonthOf;
    FirstMonth();
    MonthUnique(0, 0);
  }

  lemma {:induction false} DayZeroOutside(f: Facts)
    requires f == WorkedDayZero()
    ensures !AttendanceInside(f, 0, 1, None)
  {
    hide MonthOf, MonthStart;
    DayOneInFirstMonth();
    assert f.events[0] in f.events;
    assert 480 in DayTimes(f.events, 0);
  }

  /** An update that commits keeps the attendance records of month `m` in the period. */
  ghost predicate SparesAttendance(s: State, op: Op, m: nat) {
    op.Update? && UpdateEmployment(s, op.request).Updated? ==>
      AttendanceInside(s.facts, m, op.request.start, op.request.end)
  }

  ghost predicate SparesPlans(s: State, op: Op, m: nat) {
    op.Update? && UpdateEmployment(s, op.request).Updated? ==> PlansInside(s.facts, m, op.request.start, op.request.end)
  }

  lemma {:induction false} UpdateRespectsLocks(s: State, r: Request, s': State, m: nat)
    requires RowsOk(s) && Updates(s, r, s')
    ensures SparesAttendance(s, Update(r), m) ==> SameAttendanceMonth(s.facts, s'.facts, m)
    ensures SparesPlans(s, Update(r), m) ==> SamePlanMonth(s.facts, s'.facts, m)
  {
    hide UpdateEmployment, SameAttendanceMonth, SamePlanMonth, AttendanceInside, PlansInside, CacheExact, Distinct;
    UnchangedMonths(s.facts, s'.facts, m);
    if UpdateEmployment(s, r).Updated? {
      UpdateKeepsAttendanceMonth(s, r, m);
      UpdateKeepsPlanMonth(s, r, m);
    }
  }

  /** While a month's attendance is locked, no punch, break, plan or status step changes its punches or
      attendance statuses; while its plan is locked, none changes its plan times or plan statuses. An
      update of the employment leaves them alone when they lie in the new period. */
  lemma {:induction false} StepRespectsLocks(s: State, op: Op, s': State, m: nat)
    requires Inv(s) && Step(s, op, s')
    ensures m in s.attendanceLocks && SparesAttendance(s, op, m) ==> SameAttendanceMonth(s.facts, s'.facts, m)
    ensures m in s.planLocks && SparesPlans(s, op, m) ==> SamePlanMonth(s.facts, s'.facts, m)
  {
    hide SameAttendanceMonth, SamePlanMonth, CreateEvent, MoveEvent, DeleteEvent, AddBreaks, UpsertPlan, CacheExact,
      UpsertDayStatus, OverlapsMonth, Synced, Updates, SparesAttendance, SparesPlans, Exclusive, Contained, RowsOk;
    UnchangedMonths(s.facts, s'.facts, m);
    if op.Update? {
      UpdateRespectsLocks(s, op.request, s', m);
    } else if !op.SetLock? && OutcomeOf(s, op).Commit? {
      CommitRespectsLocks(s, op, m);
    }
  }

  lemma {:induction false} UnchangedMonths(f: Facts, g: Facts, m: nat)
    ensures f.events == g.events && f.attendance == g.attendance ==> SameAttendanceMonth(f, g, m)
    ensures f.plans == g.plans ==> SamePlanMonth(f, g, m)
  {
    hide MonthOf, DayTimes;
  }

  lemma {:induction false} CommitRespectsLocks(s: State, op: Op, m: nat)
    requires Inv(s) && !op.Update? && !op.SetLock? && OutcomeOf(s, op).Commit?
    ensures m in s.attendanceLocks ==> SameAttendanceMonth(s.facts, OutcomeOf(s, op).facts, m)
    ensures m in s.planLocks ==> SamePlanMonth(s.facts, OutcomeOf(s, op).facts, m)
  {
    hide Inv, SameAttendanceMonth, SamePlanMonth, CreateEvent, MoveEvent, DeleteEvent, AddBreaks, UpsertPlan,
      UpsertDayStatus;
    var g := OutcomeOf(s, op).facts;
    UnchangedMonths(s.facts, g, m);
    match op
    case PutPlan(env, day, arrival, departure, status, confirmed) =>
      PlanRespectsLock(s, env, day, arrival, departure, status, confirmed, m);
    case PutStatus(env, day, status, confirmed) => StatusRespectsLocks(s, env, day, status, confirmed, m);
    case _ =>
      PunchesLeavePlans(s, op);
      if m in s.attendanceLocks {
        match op
        case Create(env, at, paired) => CreateRespectsLock(s, env, at, paired, m);
        case Move(env, id, at) => MoveRespectsLock(s, env, id, at, m);
        case Delete(env, id, pairedId) => DeleteRespectsLock(s, env, id, pairedId, m);
        case Breaks(env, month, confirmed) => BreaksRespectLock(s, env, month, confirmed, m);
      }
  }

  lemma {:induction false} PunchesLeavePlans(s: State, op: Op)
    requires (op.Create? || op.Move? || op.Delete? || op.Breaks?) && OutcomeOf(s, op).Commit?
    ensures OutcomeOf(s, op).facts.plans == s.facts.plans
  {
    hide Signatures, ChangedEventDays, MonthsFor, AnyLocked, AnyStatus, Insertable, NewRows, Without, Inserted,
      MissingBreakGroups, PairEvents, EventAdditions, ClosedAdditions, Active, InPeriod, MonthStart, MonthOf, DayOf;
  }

  /** A month that stays locked through a run keeps its facts, provided the updates of the employment in
      it keep them in the period. */
  lemma {:induction false} LockedMonthIsFrozen(states: seq<State>, ops: seq<Op>, m: nat)
    requires Run(states, ops) && Inv(states[0])
    ensures (forall i :: 0 <= i < |ops| ==> m in states[i].attendanceLocks && SparesAttendance(states[i], ops[i], m)) ==>
      SameAttendanceMonth(states[0].facts, states[|ops|].facts, m)
    ensures (forall i :: 0 <= i < |ops| ==> m in states[i].planLocks && SparesPlans(states[i], ops[i], m)) ==>
      SamePlanMonth(states[0].facts, states[|ops|].facts, m)
    ensures Inv(states[|ops|])
    decreases |ops|
  {
    hide Inv, Step, DayTimes, MonthOf, SparesAttendance, SparesPlans;
    if ops != [] {
      var n := |ops| - 1;
      LockedMonthIsFrozen(states[..n + 1], ops[..n], m);
      StepKeepsInv(states[n], ops[n], states[n + 1]);
      StepRespectsLocks(states[n], ops[n], states[n + 1], m);
    }
  }
}
