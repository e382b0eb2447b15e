/** Destructive steps need a confirmation, and an inactive employment cannot be changed
    (app/api/v1/admin_attendance.py, app/api/v1/admin_shift_plan.py, app/api/v1/admin_employments.py). */
module Confirmation {
  import opened Options
  import opened Calendar
  import opened Intervals
  import opened Backfill
  import opened Metrics
  import opened Punches
  import opened Summary
  import opened Ledger
  import opened Invariants
  import opened Period
  import opened Runs

  /** Steps that would replace or delete recorded facts, requested without confirmation. */
  predicate Unconfirmed(op: Op) {
    match op
    case Breaks(_, _, confirmed) => !confirmed
    case PutPlan(_, _, _, _, status, confirmed) => status.Some? && !confirmed
    case PutStatus(_, _, status, confirmed) => status.Some? && !confirmed
    case Update(request) => !request.confirmed
    case _ => false
  }

  /** Every punch, every attendance status and every plan of `f` is still in `g`. */
  ghost predicate NothingLost(f: Facts, g: Facts) {
    && (forall e :: e in f.events ==> e in g.events)
    && (forall day :: AttendanceStatus(f, day).Some? ==> AttendanceStatus(g, day) == AttendanceStatus(f, day))
    && (forall day :: day in f.plans ==> day in g.plans && g.plans[day] == f.plans[day])
  }

  lemma {:induction false} SameRecordsKept(f: Facts, g: Facts)
    requires f.events == g.events && f.attendance == g.attendance && f.plans == g.plans
    ensures NothingLost(f, g)
  {
  }

  lemma {:induction false} NoRowsOtherDays(events: seq<Event>, day: nat)
    requires OfDay(events, day) == []
    ensures OtherDays(events, day) == events
  {
    hide DayOf;
    if events != [] {
      NoRowsOtherDays(events[1..], day);
    }
  }

  lemma {:induction false} UnconfirmedStatus(s: State, env: Env, day: nat, status: Option<Status>)
    requires status.Some? && UpsertDayStatus(s, env, day, status, false).Commit?
    ensures NothingLost(s.facts, UpsertDayStatus(s, env, day, status, false).facts)
  {
    hide *;
    CommittedStatusIsUnlocked(s, env, day, status, false);
    FreeOfConflicts(s, env, day, status);
    ReplacedNothing(s.facts, day, status);
  }

  lemma {:induction false} ReplacedNothing(f: Facts, day: nat, status: Option<Status>)
    requires status.Some? && !AttendanceConflict(f, day) && day !in f.plans
    ensures NothingLost(f, ReplaceStatus(f, day, status))
  {
    hide OfDay, OtherDays, DayOf;
    NoRowsOtherDays(f.events, day);
  }

  lemma {:induction false} FreeOfConflicts(s: State, env: Env, day: nat, status: Option<Status>)
    requires status.Some? && UpsertDayStatus(s, env, day, status, false).Commit?
    ensures !AttendanceConflict(s.facts, day) && day !in s.facts.plans
  {
    hide AttendanceConflict, ChangedEventDays, Signatures, MonthsFor, AnyLocked, ReplaceStatus, MonthOf, Active, InPeriod,
      IsPlanStatus, IsAttendanceStatus, EffectiveStatus;
  }

  lemma {:induction false} UnconfirmedPlan(s: State, env: Env, day: nat, arrival: Option<MinuteOfDay>,
                                           departure: Option<MinuteOfDay>, status: Option<Status>)
    requires status.Some? && UpsertPlan(s, env, day, arrival, departure, status, false).Commit?
    ensures NothingLost(s.facts, UpsertPlan(s, env, day, arrival, departure, status, false).facts)
  {
    hide MonthOf, OverlapsOtherPlan, AttendanceConflict, EffectiveStatus;
  }

  lemma {:induction false} UnconfirmedUpdate(s: State, r: Request)
    requires !r.confirmed && UpdateEmployment(s, r).Updated?
    ensures NothingLost(s.facts, UpdateEmployment(s, r).state.facts)
  {
    hide PreviewOf, Trimmed, Normalized, ValidProfile, MetricProfileChanged;
    SameRecordsKept(s.facts, UpdateEmployment(s, r).state.facts);
  }

  /** Without confirmation no punch, no attendance status and no plan is ever lost, whatever the outcome. */
  lemma {:induction false} NothingLostUnconfirmed(s: State, op: Op, s': State)
    requires Step(s, op, s') && Unconfirmed(op)
    ensures NothingLost(s.facts, s'.facts)
  {
    hide NothingLost, UpsertPlan, UpsertDayStatus, UpdateEmployment, AddBreaks, Synced, CacheExact;
    SameRecordsKept(s.facts, s.facts);
    match op
    case Breaks(env, m, confirmed) => BreaksNeedConfirmation(s, env, m);
    case PutPlan(env, day, arrival, departure, status, confirmed) =>
      if UpsertPlan(s, env, day, arrival, departure, status, false).Commit? {
        UnconfirmedPlan(s, env, day, arrival, departure, status);
      }
    case PutStatus(env, day, status, confirmed) =>
      if UpsertDayStatus(s, env, day, status, false).Commit? {
        UnconfirmedStatus(s, env, day, status);
      }
    case Update(request) =>
      if UpdateEmployment(s, request).Updated? {
        UnconfirmedUpdate(s, request);
      }
    case _ =>
  }

  lemma {:induction false} BreaksNeedConfirmation(s: State, env: Env, m: nat)
    ensures AddBreaks(s, env, m, false) == Abort(ConfirmationRequired)
  {
  }

  /** The clock and login state a step consults. */
  function EnvOf(op: Op): Env
    requires !op.Update? && !op.SetLock?
  {
    op.env
  }

  lemma {:induction false} InactivePunches(s: State, op: Op)
    requires (op.Create? || op.Move? || op.Delete?) && !Active(s.facts, op.env)
    ensures OutcomeOf(s, op).Abort?
  {
    hide HasRow, RowIndex, Insertable, Signatures, ChangedEventDays, MonthsFor, InPeriod, Active, DayOf, Without, NewRows,
      ClosedAdditions, EventAdditions;
  }

  /** An employment outside its period, or of a deactivated user, is read-only for every punch, break,
      plan and status step. */
  lemma {:induction false} InactiveIsReadOnly(s: State, op: Op, s': State)
    requires Step(s, op, s') && !op.Update? && !op.SetLock? && !Active(s.facts, EnvOf(op))
    ensures s' == s
  {
    hide Synced, CreateEvent, MoveEvent, DeleteEvent, Active;
    if op.Create? || op.Move? || op.Delete? {
      InactivePunches(s, op);
    } else {
      InactiveOthers(s, op);
    }
  }

  lemma {:induction false} InactiveOthers(s: State, op: Op)
    requires (op.Breaks? || op.PutPlan? || op.PutStatus?) && !Active(s.facts, op.env)
    ensures OutcomeOf(s, op).Abort?
  {
    hide InPeriod, Active, MonthOf, MonthStart, Inserted, MissingBreakGroups, Insertable, Signatures, ChangedEventDays,
      MonthsFor, NewRows, ReplaceStatus, AttendanceConflict, OverlapsOtherPlan, EffectiveStatus;
  }
}
