/** The errors of the administrator's operations: a refusal always names something that really stands in the
    way of the request. */
module Refusals {
  import opened Options
  import opened Calendar
  import opened Intervals
  import opened Breaks
  import opened Backfill
  import opened Metrics
  import opened Punches
  import opened Summary
  import opened Ledger
  import opened Footprint
  import opened Weaving
  import opened Invariants
  import opened BreakEffect
  import opened BreakAction
  import opened Period
  import opened Runs
  import opened PunchEffects
  import opened RecordEffects
  import opened Effects

  ghost predicate CreateReason(s: State, env: Env, at: nat, paired: Option<nat>, error: Error) {
    match error
    case NotFound => !env.userActive
    case NotActive => !Employed(s.facts, env)
    case PeriodMismatch => !InPeriod(s.facts, DayOf(at)) || (paired.Some? && !InPeriod(s.facts, DayOf(paired.value)))
    case Alternation => paired.Some? && (DayOf(paired.value) != DayOf(at) || paired.value <= at)
    case EventConflict =>
      || !Free(s.facts.events, at)
      || (paired.Some? && at <= paired.value
          && (!Free(s.facts.events, paired.value)
              || exists t :: t in BreaksWith(s.facts, at, paired) && !Free(s.facts.events, t)))
    case StatusConflict => HasStatus(s.facts, DayOf(at))
    case MonthLocked => MonthLockedAt(s, at)
    case _ => false
  }

  ghost predicate MoveReason(s: State, env: Env, id: nat, at: nat, error: Error) {
    match error
    case NotFound => forall e :: e in s.facts.events ==> e.id != id
    case NotActive => !Employed(s.facts, env)
    case PeriodMismatch => !InPeriod(s.facts, DayOf(at))
    case EventConflict => exists e :: e in s.facts.events && e.at == at && e.id != id
    case StatusConflict => HasStatus(s.facts, DayOf(at))
    case MonthLocked => MonthLockedAt(s, at) || exists e :: IsRow(s.facts.events, e, id) && MonthLockedAt(s, e.at)
    case _ => false
  }

  ghost predicate DeleteReason(s: State, env: Env, id: nat, paired: Option<nat>, error: Error) {
    match error
    case NotFound =>
      paired == Some(id) || exists x :: x in Ids(id, paired) && forall e :: e in s.facts.events ==> e.id != x
    case NotActive => !Employed(s.facts, env)
    case MonthLocked => exists e :: e in s.facts.events && e.id in Ids(id, paired) && MonthLockedAt(s, e.at)
    case _ => false
  }

  ghost predicate BreaksReason(s: State, env: Env, m: nat, confirmed: bool, error: Error) {
    match error
    case ConfirmationRequired => !confirmed
    case NotFound => !env.userActive
    case NotActive => !Employed(s.facts, env)
    case MonthLocked =>
      m in s.attendanceLocks || exists t :: t in Flat(ProposedGroups(s.facts, m)) && MonthLockedAt(s, t)
    case UniqueViolation => !EachDistinct(SheetOf(s.facts), MonthFirst(m), MonthFirst(m + 1))
    case _ => false
  }

  ghost predicate PlanReason(s: State, env: Env, day: nat, arrival: Option<MinuteOfDay>, departure: Option<MinuteOfDay>,
                             status: Option<Status>, confirmed: bool, error: Error) {
    match error
    case NotActive => !Employed(s.facts, env)
    case PeriodMismatch => !InPeriod(s.facts, day)
    case MonthLocked => MonthOf(day) in s.planLocks
    case PlanMustEndSameDay => arrival.Some? && departure.Some? && departure.value <= arrival.value
    case InvalidStatus => status == Some(Sickness) || status == Some(Paragraph)
    case PlanBlocked => HasStatus(s.facts, day) && status == None
    case AttendanceExists => status.Some? && Attended(s.facts, day)
    case ConfirmationRequired => status.Some? && day in s.facts.plans && !confirmed
    case _ => false
  }

  ghost predicate StatusReason(s: State, env: Env, day: nat, status: Option<Status>, confirmed: bool, error: Error) {
    match error
    case NotActive => !Employed(s.facts, env)
    case PeriodMismatch => !InPeriod(s.facts, day)
    case MonthLocked =>
      || (MonthOf(day) in s.planLocks && (TouchesPlan(s.facts, day, status) || !TouchesAttendance(s.facts, day, status)))
      || (MonthOf(day) in s.attendanceLocks && (TouchesAttendance(s.facts, day, status) || !TouchesPlan(s.facts, day, status)))
    case ConfirmationRequired => status.Some? && (Attended(s.facts, day) || day in s.facts.plans) && !confirmed
    case _ => false
  }

  /** What an error says about the request and the state it met. */
  ghost predicate Reason(s: State, op: Op, error: Error)
    requires !op.Update? && !op.SetLock?
  {
    match op
    case Create(env, at, paired) => CreateReason(s, env, at, paired, error)
    case Move(env, id, at) => MoveReason(s, env, id, at, error)
    case Delete(env, id, pairedId) => DeleteReason(s, env, id, pairedId, error)
    case Breaks(env, m, confirmed) => BreaksReason(s, env, m, confirmed, error)
    case PutPlan(env, day, arrival, departure, status, confirmed) =>
      PlanReason(s, env, day, arrival, departure, status, confirmed, error)
    case PutStatus(env, day, status, confirmed) => StatusReason(s, env, day, status, confirmed, error)
  }

  ghost predicate UpdateReason(s: State, r: Request, error: Error) {
    match error
    case InvalidPeriod => !PeriodOk(WithPeriod(s.facts, r.start, r.end))
    case ConfirmationRequired => !r.confirmed && !NothingOutside(s, r.start, r.end)
    case InvalidProfile => !ProfileAccepted(r.profile, s.facts.profile.kind)
    case _ => false
  }

  lemma {:induction false} CreateRefused(s: State, env: Env, at: nat, paired: Option<nat>)
    requires Inv(s) && CreateEvent(s, env, at, paired).Abort?
    ensures CreateReason(s, env, at, paired, CreateEvent(s, env, at, paired).error)
  {
    hide DayOf, Signatures, ChangedEventDays, HasStatus, Insertable, AnyStatus, AnyLocked, MonthsFor, RowsOk, CacheExact,
      Exclusive, Contained, InPeriod, NewRows, MonthLockedAt, BreaksWith, EventAdditions, ClosedAdditions, Free, DistinctTimes,
      Active, Employed;
    EmployedIsActive(s.facts, env);
    if paired.Some? ==> at < paired.value && DayOf(paired.value) == DayOf(at) {
      CreationAccepted(s, at, paired);
      if Insertable(s.facts.events, CreatedTimes(s.facts, at, paired)) {
        CreatedGuards(s, at, paired);
      }
    }
  }

  lemma {:induction false} MoveRefused(s: State, env: Env, id: nat, at: nat)
    requires Inv(s) && MoveEvent(s, env, id, at).Abort?
    ensures MoveReason(s, env, id, at, MoveEvent(s, env, id, at).error)
  {
    hide DayOf, Distinct, Signatures, ChangedEventDays, HasStatus, MonthLockedAt, Insertable, AnyStatus, AnyLocked, MonthsFor,
      CacheExact, Exclusive, Contained, HasRow, RowIndex, Active, InPeriod, Employed;
    var f := s.facts;
    EmployedIsActive(f, env);
    NoRow(f.events, id);
    if HasRow(f.events, id) {
      var i := RowIndex(f.events, id);
      assert IsRow(f.events, f.events[i], id) by { OnlyRow(f.events, id, Event(0, 0)); }
      FreeForMove(f.events, i, at);
      if Insertable(f.events[..i] + f.events[i + 1..], [at]) {
        MovedDays(s, i, at);
      }
    } else {
      assert forall e :: e in f.events ==> !IsRow(f.events, e, id);
    }
  }

  lemma {:induction false} DeleteRefused(s: State, env: Env, id: nat, paired: Option<nat>)
    requires Inv(s) && DeleteEvent(s, env, id, paired).Abort?
    ensures DeleteReason(s, env, id, paired, DeleteEvent(s, env, id, paired).error)
  {
    hide DayOf, Signatures, ChangedEventDays, MonthLockedAt, AnyLocked, MonthsFor, Inv, HasRow, RowIndex, Active, Employed, IsRow,
      Deleted, Without;
    var f := s.facts;
    EmployedIsActive(f, env);
    assert forall x :: x in Ids(id, paired) <==> x == id || paired == Some(x);
    forall x | !HasRow(f.events, x) ensures forall e :: e in f.events ==> e.id != x { MissingRow(f.events, x); }
    if HasRow(f.events, id) && (paired.Some? ==> HasRow(f.events, paired.value)) {
      DeletionGuards(s, id, paired);
    }
  }

  lemma {:induction false} MissingRow(events: seq<Event>, id: nat)
    requires !HasRow(events, id)
    ensures forall e :: e in events ==> e.id != id
  {
    forall e | e in events ensures e.id != id {
      var i :| 0 <= i < |events| && events[i] == e;
    }
  }

  lemma {:induction false} BreaksRefused(s: State, env: Env, m: nat, confirmed: bool)
    requires Inv(s) && AddBreaks(s, env, m, confirmed).Abort?
    ensures BreaksReason(s, env, m, confirmed, AddBreaks(s, env, m, confirmed).error)
  {
    hide DayOf, Signatures, ChangedEventDays, Insertable, AnyStatus, AnyLocked, MonthsFor, CacheExact, Distinct, MonthOf,
      Exclusive, Contained, InPeriod, NewRows, MonthLockedAt, EachDistinct, Inserted, MissingBreakGroups, PairEvents, MonthStart,
      SheetOf, Flat, Active, Employed;
    var f, times := s.facts, BreakInsertions(s.facts, m);
    EmployedIsActive(f, env);
    AcceptedIffDistinct(f, m);
    LockedInsertions(s, times);
    if Insertable(f.events, times) {
      BreakGuards(s, m);
    }
  }

  lemma {:induction false} PlanRefused(s: State, env: Env, day: nat, arrival: Option<MinuteOfDay>,
                                       departure: Option<MinuteOfDay>, status: Option<Status>, confirmed: bool)
    requires UpsertPlan(s, env, day, arrival, departure, status, confirmed).Abort?
    ensures PlanReason(s, env, day, arrival, departure, status, confirmed,
                       UpsertPlan(s, env, day, arrival, departure, status, confirmed).error)
  {
    hide Active, Employed, InPeriod, MonthOf, OverlapsOtherPlan, EffectiveStatus, AttendanceConflict, HasStatus, Attended;
    EmployedIsActive(s.facts, env);
    AttendedIsConflict(s.facts, day);
    PlansNeverOverlap(s.facts, day, if status.Some? then Plan(None, None, status) else Plan(arrival, departure, None));
    if status.Some? {
      assert status.value.Vacation? || status.value.DayOff? || status.value.Sickness? || status.value.Paragraph?;
    }
  }

  lemma {:induction false} StatusRefused(s: State, env: Env, day: nat, status: Option<Status>, confirmed: bool)
    requires Distinct(s.facts.events) && SidesOk(s.facts) && UpsertDayStatus(s, env, day, status, confirmed).Abort?
    ensures StatusReason(s, env, day, status, confirmed, UpsertDayStatus(s, env, day, status, confirmed).error)
  {
    hide Active, Employed, InPeriod, MonthOf, ChecksPlanLock, ChecksAttendanceLock, TouchesPlan, TouchesAttendance, ReplaceStatus,
      Signatures, ChangedEventDays, AnyLocked, MonthsFor, AttendanceConflict, Attended, Distinct, SidesOk;
    EmployedIsActive(s.facts, env);
    AttendedIsConflict(s.facts, day);
    LocksConsulted(s.facts, day, status);
    StatusDays(s.facts, day, status);
    OneLocked(s.attendanceLocks, day);
  }

  /** Whatever error an operation ends with names a true obstacle. */
  lemma {:induction false} RefusedForReason(s: State, op: Op)
    requires Sound(s) && !op.Update? && !op.SetLock? && OutcomeOf(s, op).Abort?
    ensures Reason(s, op, OutcomeOf(s, op).error)
  {
    hide CreateEvent, MoveEvent, DeleteEvent, AddBreaks, UpsertPlan, UpsertDayStatus, CreateReason, MoveReason, DeleteReason,
      BreaksReason, PlanReason, StatusReason, SidesOk, Exclusive, Contained, CacheExact, Distinct;
    match op
    case Create(env, at, paired) => CreateRefused(s, env, at, paired);
    case Move(env, id, at) => MoveRefused(s, env, id, at);
    case Delete(env, id, pairedId) => DeleteRefused(s, env, id, pairedId);
    case Breaks(env, m, confirmed) => BreaksRefused(s, env, m, confirmed);
    case PutPlan(env, day, arrival, departure, status, confirmed) =>
      PlanRefused(s, env, day, arrival, departure, status, confirmed);
    case PutStatus(env, day, status, confirmed) => StatusRefused(s, env, day, status, confirmed);
  }

  /** The same for an update of the employment. */
  lemma {:induction false} UpdateRefusedForReason(s: State, r: Request)
    requires Distinct(s.facts.events) && UpdateEmployment(s, r).Refused?
    ensures UpdateReason(s, r, UpdateEmployment(s, r).error)
  {
    hide PreviewOf, Trimmed, Normalized, ValidProfile, MetricProfileChanged, Distinct, ProfileAccepted, NothingOutside;
    ProfileExactly(r.profile, s.facts.profile.kind);
    if PeriodOk(WithPeriod(s.facts, r.start, r.end)) {
      PreviewIsNothing(s, r.start, r.end);
    }
  }
}
