/** The stored employment as the endpoints change it, field by field. Every endpoint is one transaction:
    it ends with the state its specification commits, or with the state it started from. */
module Store {
  import opened Options
  import opened Calendar
  import opened Intervals
  import opened Breaks
  import opened Backfill
  import opened Metrics
  import opened Punches
  import opened Summary
  import opened Ledger
  import opened Footprint
  import opened Invariants
  import opened Period
  import opened ProblemRange
  import opened Runs
  import opened Cache

  datatype Response = Done | Refused(error: Error)

  function ResponseOf(o: Outcome): Response {
    match o
    case Abort(error) => Response.Refused(error)
    case Commit(_, _, _) => Done
  }

  // ---- supporting loops ----

  /** `changed_event_days`: every day touched by an interval that appeared or disappeared. */
  method CollectChangedDays(before: set<WorkInterval>, after: set<WorkInterval>, stamps: set<nat>) returns (days: set<nat>)
    ensures days == ChangedEventDays(before, after, stamps)
  {
    hide DayOf, DaysOf;
    ghost var all := (before - after) + (after - before);
    days := set t | t in stamps :: DayOf(t);
    var todo := (before - after) + (after - before);
    while todo != {}
      invariant todo <= all
      invariant days == (set t | t in stamps :: DayOf(t)) + (set x, day | x in all - todo && day in DaysOf(x) :: day)
      decreases todo
    {
      var x :| x in todo;
      todo := todo - {x};
      days := days + DaysOf(x);
    }
    assert all - todo == all;
  }

  /** Pairs of one group neither of whose ends is stored yet. */
  method CollectPairs(additions: seq<nat>, existing: set<nat>) returns (times: seq<nat>)
    ensures times == NewPairs(additions, existing)
  {
    times := [];
    var index := 0;
    assert additions[0..] == additions;
    while index + 1 < |additions|
      invariant 0 <= index <= |additions|
      invariant times + NewPairs(additions[index..], existing) == NewPairs(additions, existing)
    {
      assert additions[index..][2..] == additions[index + 2..];
      ghost var rest := NewPairs(additions[index + 2..], existing);
      if additions[index] !in existing && additions[index + 1] !in existing {
        Assoc(times, [additions[index], additions[index + 1]], rest);
        times := times + [additions[index], additions[index + 1]];
      }
      index := index + 2;
    }
  }

  lemma {:induction false} RowsAppended(nextId: nat, before: seq<nat>, times: seq<nat>)
    ensures NewRows(nextId, before + times) == NewRows(nextId, before) + NewRows(nextId + |before|, times)
    decreases |before|
  {
    if before == [] {
      assert before + times == times;
    } else {
      assert (before + times)[1..] == before[1..] + times;
      RowsAppended(nextId + 1, before[1..], times);
    }
  }

  /** Some of the times lies in a locked month. */
  predicate HitsLock(locks: set<nat>, times: seq<nat>) {
    exists t | t in times :: MonthOf(DayOf(t)) in locks
  }

  lemma {:induction false} HitsLockConcat(locks: set<nat>, a: seq<nat>, b: seq<nat>)
    ensures HitsLock(locks, a + b) <==> HitsLock(locks, a) || HitsLock(locks, b)
  {
    hide MonthOf, DayOf;
    if t :| t in a && MonthOf(DayOf(t)) in locks { assert t in a + b; }
    if t :| t in b && MonthOf(DayOf(t)) in locks { assert t in a + b; }
  }

  lemma {:induction false} HitsLockIsAnyLocked(locks: set<nat>, times: seq<nat>)
    ensures HitsLock(locks, times) <==> AnyLocked(locks, set t | t in times :: MonthOf(DayOf(t)))
  {
    hide MonthOf, DayOf;
    var months := set t | t in times :: MonthOf(DayOf(t));
    if t :| t in times && MonthOf(DayOf(t)) in locks { assert MonthOf(DayOf(t)) in months; }
  }

  function ProposedFor(events: seq<Event>, m: nat): seq<seq<nat>> {
    MissingBreakGroups(PairEvents(events), MonthStart(m) * MINUTES_PER_DAY, MonthStart(m + 1) * MINUTES_PER_DAY)
  }

  class Employment {
    var events: seq<Event>
    var nextId: nat
    var attendance: map<nat, Option<Status>>
    var plans: map<nat, Plan>
    var profile: Profile
    var start: nat
    var end: Option<nat>
    var attendanceLocks: set<nat>
    var planLocks: set<nat>
    var selections: set<nat>
    var reminders: set<Reminder>
    const metrics: MetricTable

    constructor (profile: Profile, start: nat, end: Option<nat>)
      ensures fresh(metrics) && Initial(Current())
      ensures CurrentFacts() == Facts([], map[], map[], profile, start, end)
    {
      events, nextId, attendance, plans := [], 1, map[], map[];
      this.profile, this.start, this.end := profile, start, end;
      attendanceLocks, planLocks, selections, reminders := {}, {}, {}, {};
      metrics := new MetricTable(map[]);
    }

    function CurrentFacts(): Facts
      reads this
    {
      Facts(events, attendance, plans, profile, start, end)
    }

    function Current(): State
      reads this, metrics
    {
      State(CurrentFacts(), nextId, attendanceLocks, planLocks, selections, reminders, metrics.rows)
    }

    /** Rolling a transaction back. */
    method Restore(saved: State)
      modifies this, metrics
      ensures Current() == saved
    {
      events, nextId, attendance, plans := saved.facts.events, saved.nextId, saved.facts.attendance, saved.facts.plans;
      profile, start, end := saved.facts.profile, saved.facts.start, saved.facts.end;
      attendanceLocks, planLocks := saved.attendanceLocks, saved.planLocks;
      selections, reminders := saved.selections, saved.reminders;
      metrics.rows := saved.table;
    }

    /** A month as reports read it, from the cache. */
    method ReadMonth(m: nat) returns (summary: MonthSummary)
      ensures summary == MonthSummaryOf(CurrentFacts(), Some(metrics.rows), m)
      ensures Inv(Current()) ==> summary == MonthSummaryOf(CurrentFacts(), None, m)
    {
      hide MonthSummaryOf, CacheExact, RowsOk, Exclusive, Contained;
      summary := BuildMonthSummary(CurrentFacts(), Some(metrics.rows), m);
      if Inv(Current()) {
        PersistedReadsAreExact(CurrentFacts(), metrics.rows, m);
      }
    }

    // ---- punches ----

    /** Add rows for the given times under the next identifiers. */
    method AddRows(times: seq<nat>)
      modifies this
      ensures Current() == old(Current()).(
        facts := old(CurrentFacts()).(events := old(events) + NewRows(old(nextId), times)), nextId := old(nextId) + |times|)
    {
      assert times[0..] == times;
      for i := 0 to |times|
        invariant events + NewRows(nextId, times[i..]) == old(events) + NewRows(old(nextId), times)
        invariant Current() == old(Current()).(facts := old(CurrentFacts()).(events := events), nextId := nextId)
        invariant nextId == old(nextId) + i
      {
        assert times[i..][1..] == times[i + 1..];
        Assoc(events, [Event(nextId, times[i])], NewRows(nextId + 1, times[i + 1..]));
        events := events + [Event(nextId, times[i])];
        nextId := nextId + 1;
      }
    }

    /** The end of every punch endpoint: find the changed days, check them, resynchronise their months
        and commit; otherwise go back to `saved`. */
    method FinishPunches(saved: State, stamps: set<nat>, checkStatus: bool) returns (r: Response)
      requires Current() == saved.(facts := saved.facts.(events := events), nextId := nextId)
      modifies this, metrics
      ensures var days := ChangedEventDays(Signatures(saved.facts.events), Signatures(old(events)), stamps);
        var o := if checkStatus && AnyStatus(saved.facts, days) then Abort(StatusConflict)
                 else if AnyLocked(saved.attendanceLocks, MonthsFor(days)) then Abort(MonthLocked)
                 else Commit(old(CurrentFacts()), old(nextId), MonthsFor(days));
        r == ResponseOf(o) && Applies(saved, o, Current())
    {
      hide ChangedEventDays, Signatures, MonthsFor, AnyLocked, Synced;
      var days := CollectChangedDays(Signatures(saved.facts.events), Signatures(events), stamps);
      assert forall day :: HasStatus(CurrentFacts(), day) == HasStatus(saved.facts, day);
      if checkStatus && AnyStatus(CurrentFacts(), days) {
        Restore(saved);
        return Response.Refused(StatusConflict);
      }
      if AnyLocked(attendanceLocks, MonthsFor(days)) {
        Restore(saved);
        return Response.Refused(MonthLocked);
      }
      metrics.SyncMonths(CurrentFacts(), MonthsFor(days));
      return Done;
    }

    method CreateEvent(env: Env, at: nat, paired: Option<nat>) returns (r: Response)
      modifies this, metrics
      ensures var o := Ledger.CreateEvent(old(Current()), env, at, paired);
        r == ResponseOf(o) && Applies(old(Current()), o, Current())
    {
      hide ChangedEventDays, Signatures, MonthsFor, AnyLocked, AnyStatus, Synced, Active, InPeriod, DayOf, NewRows,
        EventAdditions, ClosedAdditions, Insertable;
      var f := CurrentFacts();
      if !env.userActive {
        return Response.Refused(NotFound);
      }
      if !Active(f, env) {
        return Response.Refused(NotActive);
      }
      if !InPeriod(f, DayOf(at)) || (paired.Some? && !InPeriod(f, DayOf(paired.value))) {
        return Response.Refused(PeriodMismatch);
      }
      if paired.Some? && (DayOf(paired.value) != DayOf(at) || paired.value <= at) {
        return Response.Refused(Alternation);
      }
      var saved := Current();
      var times: seq<nat>;
      if paired.Some? {
        times := AddClosedInterval(profile.automaticBreaks, at, paired.value);
      } else {
        times := AddEvent(profile.automaticBreaks, events, at);
      }
      if !Insertable(events, times) {
        return Response.Refused(EventConflict);
      }
      AddRows(times);
      r := FinishPunches(saved, {at} + if paired.Some? then {paired.value} else {}, true);
    }

    method MoveEvent(env: Env, id: nat, at: nat) returns (r: Response)
      modifies this, metrics
      ensures var o := Ledger.MoveEvent(old(Current()), env, id, at);
        r == ResponseOf(o) && Applies(old(Current()), o, Current())
    {
      hide ChangedEventDays, Signatures, MonthsFor, AnyLocked, AnyStatus, Synced, Active, InPeriod, DayOf, Insertable,
        HasRow, RowIndex;
      var f := CurrentFacts();
      if !HasRow(events, id) {
        return Response.Refused(NotFound);
      }
      if !Active(f, env) {
        return Response.Refused(NotActive);
      }
      if !InPeriod(f, DayOf(at)) {
        return Response.Refused(PeriodMismatch);
      }
      var saved := Current();
      var i := RowIndex(events, id);
      var previous := events[i].at;
      if !Insertable(events[..i] + events[i + 1..], [at]) {
        return Response.Refused(EventConflict);
      }
      events := events[i := Event(id, at)];
      r := FinishPunches(saved, {previous, at}, true);
    }

    method DeleteEvent(env: Env, id: nat, paired: Option<nat>) returns (r: Response)
      modifies this, metrics
      ensures var o := Ledger.DeleteEvent(old(Current()), env, id, paired);
        r == ResponseOf(o) && Applies(old(Current()), o, Current())
    {
      hide ChangedEventDays, Signatures, MonthsFor, AnyLocked, Synced, Active, InPeriod, DayOf, HasRow, RowIndex, Without;
      var f := CurrentFacts();
      if !HasRow(events, id) {
        return Response.Refused(NotFound);
      }
      if !Active(f, env) {
        return Response.Refused(NotActive);
      }
      if paired.Some? && (!HasRow(events, paired.value) || paired.value == id) {
        return Response.Refused(NotFound);
      }
      var deleted, stamps := {id}, {events[RowIndex(events, id)].at};
      if paired.Some? {
        deleted := deleted + {paired.value};
        stamps := stamps + {events[RowIndex(events, paired.value)].at};
      }
      assert deleted == {id} + if paired.Some? then {paired.value} else {};
      assert stamps == {events[RowIndex(events, id)].at}
        + if paired.Some? then {events[RowIndex(events, paired.value)].at} else {};
      var remaining := Without(events, deleted);
      var days := CollectChangedDays(Signatures(events), Signatures(remaining), stamps);
      if AnyLocked(attendanceLocks, MonthsFor(days)) {
        return Response.Refused(MonthLocked);
      }
      events := remaining;
      metrics.SyncMonths(CurrentFacts(), MonthsFor(days));
      return Done;
    }

    /** The insertion loop of `add_missing_breaks`: stops at the first time in a locked month. */
    method InsertGroups(groups: seq<seq<nat>>) returns (times: seq<nat>, affected: nat, locked: bool)
      modifies this
      ensures var all := Inserted(groups, TimeSet(old(events)));
        && locked == HitsLock(old(attendanceLocks), all)
        && (!locked ==>
              && times == all && affected == Affected(groups, TimeSet(old(events)))
              && Current() == old(Current()).(
                    facts := old(CurrentFacts()).(events := old(events) + NewRows(old(nextId), times)),
                    nextId := old(nextId) + |times|))
    {
      hide NewPairs, TimeSet, HitsLock, NewRows;
      var existing := TimeSet(events);
      times, affected, locked := [], 0, false;
      ghost var all, total := Inserted(groups, existing), Affected(groups, existing);
      assert groups[0..] == groups && [] + all == all;
      NoneLocked(attendanceLocks);
      NoRows(nextId);
      assert events + [] == events;
      for j := 0 to |groups|
        invariant times + Inserted(groups[j..], existing) == all && affected + Affected(groups[j..], existing) == total
        invariant !HitsLock(attendanceLocks, times)
        invariant Current() == old(Current()).(
            facts := old(CurrentFacts()).(events := old(events) + NewRows(old(nextId), times)), nextId := old(nextId) + |times|)
      {
        var pairs := CollectPairs(groups[j], existing);
        assert groups[j..][1..] == groups[j + 1..];
        ghost var rest := Inserted(groups[j + 1..], existing + set t | t in pairs);
        Assoc(times, pairs, rest);
        HitsLockConcat(attendanceLocks, times, pairs);
        HitsLockConcat(attendanceLocks, times + pairs, rest);
        if pairs != [] {
          affected := affected + 1;
        }
        if HitsLock(attendanceLocks, pairs) {
          return times, affected, true;
        }
        RowsAppended(old(nextId), times, pairs);
        Assoc(old(events), NewRows(old(nextId), times), NewRows(nextId, pairs));
        AddRows(pairs);
        existing := existing + set t | t in pairs;
        times := times + pairs;
      }
      assert times + [] == times;
    }

    /** `add_missing_breaks`; the numbers report affected intervals and inserted rows. */
    method AddMissingBreaks(env: Env, m: nat, confirmed: bool) returns (r: Response, affected: nat, inserted: nat)
      modifies this, metrics
      ensures var o := Ledger.AddBreaks(old(Current()), env, m, confirmed);
        r == ResponseOf(o) && Applies(old(Current()), o, Current())
      ensures r.Done? ==> inserted == |events| - |old(events)|
      ensures r.Done? ==> affected == Affected(ProposedFor(old(events), m), TimeSet(old(events)))
    {
      hide ChangedEventDays, Signatures, MonthsFor, AnyLocked, AnyStatus, Synced, Active, DayOf, MonthOf, MonthStart,
        NewRows, Insertable, Inserted, Affected, MissingBreakGroups, TimeSet, HitsLock;
      affected, inserted := 0, 0;
      if !confirmed {
        return Response.Refused(ConfirmationRequired), 0, 0;
      }
      if !env.userActive {
        return Response.Refused(NotFound), 0, 0;
      }
      if !Active(CurrentFacts(), env) {
        return Response.Refused(NotActive), 0, 0;
      }
      if m in attendanceLocks {
        return Response.Refused(MonthLocked), 0, 0;
      }
      var saved := Current();
      var groups := MissingBreakEventGroups(PairEvents(events), MonthStart(m) * MINUTES_PER_DAY, MonthStart(m + 1) * MINUTES_PER_DAY);
      var times, affectedIntervals, locked := InsertGroups(groups);
      HitsLockIsAnyLocked(saved.attendanceLocks, Inserted(groups, TimeSet(saved.facts.events)));
      if locked {
        Restore(saved);
        return Response.Refused(MonthLocked), 0, 0;
      }
      if !Insertable(saved.facts.events, times) {
        Restore(saved);
        return Response.Refused(UniqueViolation), 0, 0;
      }
      r := FinishPunches(saved, {}, true);
      affected, inserted := affectedIntervals, |times|;
      NewRowsIds(saved.nextId, times);
    }

    // ---- plans and day statuses ----

    method UpsertPlan(env: Env, day: nat, arrival: Option<MinuteOfDay>, departure: Option<MinuteOfDay>,
                      status: Option<Status>, confirmed: bool) returns (r: Response)
      modifies this, metrics
      ensures var o := Ledger.UpsertPlan(old(Current()), env, day, arrival, departure, status, confirmed);
        r == ResponseOf(o) && Applies(old(Current()), o, Current())
    {
      hide Synced, Active, InPeriod, MonthOf, OverlapsOtherPlan, EffectiveStatus, AttendanceConflict;
      var f := CurrentFacts();
      if !Active(f, env) {
        return Response.Refused(NotActive);
      }
      if !InPeriod(f, day) {
        return Response.Refused(PeriodMismatch);
      }
      if MonthOf(day) in planLocks {
        return Response.Refused(MonthLocked);
      }
      if arrival.Some? && departure.Some? && departure.value <= arrival.value {
        return Response.Refused(PlanMustEndSameDay);
      }
      if status.Some? && status.value !in {Vacation, DayOff} {
        return Response.Refused(InvalidStatus);
      }
      if EffectiveStatus(f, day).Some? && status == None && (arrival.Some? || departure.Some?) {
        return Response.Refused(PlanBlocked);
      }
      var newArrival, newDeparture := arrival, departure;
      if status.Some? {
        if AttendanceConflict(f, day) {
          return Response.Refused(AttendanceExists);
        }
        if day in plans && !confirmed {
          return Response.Refused(ConfirmationRequired);
        }
        newArrival, newDeparture := None, None;
      }
      var candidate := Plan(newArrival, newDeparture, status);
      if candidate == Plan(None, None, None) {
        if day in plans {
          plans := plans - {day};
          metrics.SyncMonths(CurrentFacts(), {MonthOf(day)});
        } else {
          NothingSynced(f, metrics.rows);
          assert plans - {day} == plans;
        }
        return Done;
      }
      if OverlapsOtherPlan(f, day, candidate) {
        return Response.Refused(PlanOverlap);
      }
      plans := plans[day := candidate];
      metrics.SyncMonths(CurrentFacts(), {MonthOf(day)});
      return Done;
    }

    /** `_conflicting_attendance_events`: punches of the day, and both ends of every interval that
        overlaps it. Intervals stay inside a day, so these are the punches of the day. */
    method ConflictingEvents(day: nat) returns (ids: set<nat>)
      ensures ids == DayIds(events, day)
    {
      hide DayOf, PairRows, Ordered;
      var dayStart, dayEnd := day * MINUTES_PER_DAY, (day + 1) * MINUTES_PER_DAY;
      ids := set e | e in events && dayStart <= e.at < dayEnd :: e.id;
      DayBounds(events, day);
      var pairs := PairEventRows(events);
      for i := 0 to |pairs|
        invariant ids == DayIds(events, day)
      {
        if pairs[i].0.at < dayEnd && pairs[i].1.at > dayStart {
          OverlappingPairIsOfDay(events, i, day);
          ids := ids + {pairs[i].0.id, pairs[i].1.id};
        }
      }
    }

    method SetPlanStatus(day: nat, status: Option<Status>)
      requires status == None || IsPlanStatus(status)
      modifies this`plans
      ensures plans == if status == None then ClearedPlans(old(CurrentFacts()), day)
                       else old(plans)[day := Plan(None, None, status)]
    {
      if status == None {
        if day in plans {
          if plans[day].arrival == None && plans[day].departure == None {
            plans := plans - {day};
          } else {
            plans := plans[day := plans[day].(status := None)];
          }
        }
        return;
      }
      if day !in plans {
        plans := plans[day := Plan(None, None, status)];
      } else {
        plans := plans[day := plans[day].(arrival := None, departure := None, status := status)];
      }
    }

    method SetAttendanceStatus(day: nat, status: Option<Status>)
      requires status == None || IsAttendanceStatus(status)
      modifies this`attendance
      ensures attendance == if status == None then ClearedAttendance(old(CurrentFacts()), day)
                            else old(attendance)[day := status]
    {
      hide OfDay;
      if status == None {
        if day in attendance {
          attendance := attendance[day := None];
          if OfDay(events, day) == [] {
            attendance := attendance - {day};
            assert attendance == old(attendance) - {day};
          }
        }
        return;
      }
      attendance := attendance[day := status];
    }

    /** `replace_day_status`: returns whether the day had conflicting facts; an unconfirmed change of the
        status of such a day changes nothing. */
    method ReplaceDayStatus(day: nat, status: Option<Status>, confirmed: bool) returns (conflicts: bool)
      requires Distinct(events)
      modifies this`events, this`attendance, this`plans
      ensures conflicts == (AttendanceConflict(old(CurrentFacts()), day) || day in old(plans))
      ensures CurrentFacts()
           == if status.Some? && status != EffectiveStatus(old(CurrentFacts()), day) && conflicts && !confirmed
              then old(CurrentFacts()) else ReplaceStatus(old(CurrentFacts()), day, status)
    {
      hide Distinct, EffectiveStatus, ClearedPlans, ClearedAttendance, AttendanceConflict, DayIds, Without, OtherDays;
      var f := CurrentFacts();
      conflicts := AttendanceConflict(f, day) || day in plans;
      if status.Some? && status != EffectiveStatus(f, day) && conflicts && !confirmed {
        return;
      }
      if status == None {
        SetAttendanceStatus(day, None);
        ClearedPlansSame(f, CurrentFacts(), day);
        SetPlanStatus(day, None);
        return;
      }
      var ids := ConflictingEvents(day);
      WithoutDay(events, day);
      events := Without(events, ids);
      if IsPlanStatus(status) {
        attendance := attendance - {day};
        SetPlanStatus(day, status);
      } else {
        assert status.value.Sickness? || status.value.Paragraph?;
        plans := plans - {day};
        SetAttendanceStatus(day, status);
      }
    }

    method UpsertDayStatus(env: Env, day: nat, status: Option<Status>, confirmed: bool) returns (r: Response)
      requires RowsOk(Current())
      modifies this, metrics
      ensures var o := Ledger.UpsertDayStatus(old(Current()), env, day, status, confirmed);
        r == ResponseOf(o) && Applies(old(Current()), o, Current())
    {
      hide Synced, Active, InPeriod, MonthOf, AttendanceConflict, EffectiveStatus, ReplaceStatus, Distinct,
        ChangedEventDays, Signatures, MonthsFor, AnyLocked, IsPlanStatus, IsAttendanceStatus;
      var f := CurrentFacts();
      if !Active(f, env) {
        return Response.Refused(NotActive);
      }
      if !InPeriod(f, day) {
        return Response.Refused(PeriodMismatch);
      }
      var planLock := IsPlanStatus(status) || IsPlanStatus(EffectiveStatus(f, day));
      var attendanceLock := IsAttendanceStatus(status) || IsAttendanceStatus(EffectiveStatus(f, day));
      if AttendanceConflict(f, day) {
        attendanceLock := true;
      }
      if day in plans {
        planLock := true;
      }
      if (planLock || !attendanceLock) && MonthOf(day) in planLocks {
        return Response.Refused(MonthLocked);
      }
      if (attendanceLock || !planLock) && MonthOf(day) in attendanceLocks {
        return Response.Refused(MonthLocked);
      }
      var saved := Current();
      var conflicts := ReplaceDayStatus(day, status, confirmed);
      if status.Some? && conflicts && !confirmed {
        Restore(saved);
        return Response.Refused(ConfirmationRequired);
      }
      var changed := CollectChangedDays(Signatures(saved.facts.events), Signatures(events), {});
      var months := MonthsFor(changed + {day});
      if attendanceLock && AnyLocked(attendanceLocks, months) {
        Restore(saved);
        return Response.Refused(MonthLocked);
      }
      metrics.SyncMonths(CurrentFacts(), months);
      return Done;
    }

    // ---- the employment itself ----

    /** `_collect_range_conflicts`: the counts, and the first and last day of the records counted. */
    method CollectRangeConflicts(newStart: nat, newEnd: Option<nat>) returns (preview: Preview, span: Span)
      ensures preview == PreviewOf(Current(), newStart, newEnd)
      ensures Bounds(span, ProblemDays(Current(), newStart, newEnd))
    {
      hide OutDays, OutMonths, OutReminders, OutEventIds, MonthEnds, Bounds, RowDays, ReminderDays;
      ghost var seen: set<nat> := {};
      NoDays();
      span := Span(None, None);
      var days := OutDays(attendance.Keys, newStart, newEnd);
      var attendanceCount := |days|;
      span := TouchDays(span, seen, days);
      seen := seen + days;
      var ids := OutOfRangeEventIds(events, newStart, newEnd);
      days := RowDays(events, ids);
      span := TouchDays(span, seen, days);
      seen := seen + days;
      days := OutDays(plans.Keys, newStart, newEnd);
      var planCount := |days|;
      span := TouchDays(span, seen, days);
      seen := seen + days;
      span := TouchMonths(span, seen, OutMonths(attendanceLocks, newStart, newEnd));
      seen := seen + MonthEnds(OutMonths(attendanceLocks, newStart, newEnd));
      span := TouchMonths(span, seen, OutMonths(planLocks, newStart, newEnd));
      seen := seen + MonthEnds(OutMonths(planLocks, newStart, newEnd));
      span := TouchMonths(span, seen, OutMonths(selections, newStart, newEnd));
      seen := seen + MonthEnds(OutMonths(selections, newStart, newEnd));
      var outside := OutReminders(reminders, newStart, newEnd);
      days := ReminderDays(outside);
      span := TouchDays(span, seen, days);
      seen := seen + days;
      assert seen == ProblemDays(Current(), newStart, newEnd);
      preview := Preview(
        attendanceCount + |ids|, planCount,
        |OutMonths(attendanceLocks, newStart, newEnd)|, |OutMonths(planLocks, newStart, newEnd)|,
        |OutMonths(selections, newStart, newEnd)|, |outside|);
    }

    method DeleteRows(newStart: nat, newEnd: Option<nat>)
      modifies this
      ensures Current() == Trimmed(old(Current()), newStart, newEnd)
    {
      hide OutDays, OutMonths, OutReminders, OutEventIds, Without;
      attendance := attendance - OutDays(attendance.Keys, newStart, newEnd);
      var ids := OutOfRangeEventIds(events, newStart, newEnd);
      events := Without(events, ids);
      plans := plans - OutDays(plans.Keys, newStart, newEnd);
      attendanceLocks := attendanceLocks - OutMonths(attendanceLocks, newStart, newEnd);
      planLocks := planLocks - OutMonths(planLocks, newStart, newEnd);
      selections := selections - OutMonths(selections, newStart, newEnd);
      reminders := reminders - OutReminders(reminders, newStart, newEnd);
    }

    /** `_delete_out_of_range_records`; the numbers report how many records of each kind went. */
    method DeleteOutOfRange(newStart: nat, newEnd: Option<nat>) returns (deleted: Preview)
      requires Distinct(events)
      modifies this
      ensures Current() == Trimmed(old(Current()), newStart, newEnd)
      ensures deleted == PreviewOf(old(Current()), newStart, newEnd)
    {
      var before := Current();
      DeleteRows(newStart, newEnd);
      var counts := Removed(before, Current());
      hide *;
      DeletesWhatWasPreviewed(before, newStart, newEnd);
      deleted := Preview(counts.0, counts.1, counts.2, counts.3, counts.4, counts.5);
    }

    method UpdateEmployment(request: Request) returns (r: Response, deleted: Preview)
      requires RowsOk(Current())
      modifies this, metrics
      ensures Updates(old(Current()), request, Current())
      ensures r == match Period.UpdateEmployment(old(Current()), request)
                   case Refused(error) => Response.Refused(error)
                   case Updated(_, _) => Done
      ensures r.Done? ==> deleted == PreviewOf(old(Current()), request.start, request.end)
    {
      hide PreviewOf, Trimmed, Normalized, ValidProfile, MetricProfileChanged, CacheExact, Distinct;
      deleted := NOTHING;
      if request.end.Some? && request.end.value < request.start {
        return Response.Refused(InvalidPeriod), NOTHING;
      }
      var saved := Current();
      var preview, _ := CollectRangeConflicts(request.start, request.end);
      if preview != NOTHING && !request.confirmed {
        return Response.Refused(ConfirmationRequired), NOTHING;
      }
      var periodChanged := request.start != start || request.end != end;
      if preview != NOTHING {
        deleted := DeleteOutOfRange(request.start, request.end);
        TrimmedKeeps(saved, request.start, request.end);
      }
      start, end := request.start, request.end;
      var normalized := Normalized(request.profile, request.profile.kind != profile.kind);
      var metricProfileChanged := MetricProfileChanged(profile, normalized);
      if !ValidProfile(normalized) {
        Restore(saved);
        return Response.Refused(InvalidProfile), NOTHING;
      }
      profile := normalized;
      if metricProfileChanged || periodChanged {
        metrics.SyncAll(CurrentFacts());
      }
      return Done, deleted;
    }

    /** `set_month_lock_state_bulk`, for an employment that overlaps the month. */
    method SetLock(kind: LockKind, m: nat, locked: bool)
      modifies this`attendanceLocks, this`planLocks
      ensures Current() == AfterLock(old(Current()), kind, m, locked)
    {
      hide MonthStart;
      if OverlapsMonth(CurrentFacts(), m) {
        match kind
        case AttendanceLock => attendanceLocks := if locked then attendanceLocks + {m} else attendanceLocks - {m};
        case PlanLock => planLocks := if locked then planLocks + {m} else planLocks - {m};
      }
    }
  }

  lemma {:induction false} NoneLocked(locks: set<nat>)
    ensures !HitsLock(locks, [])
  {
  }

  lemma {:induction false} NoRows(nextId: nat)
    ensures NewRows(nextId, []) == []
  {
  }

  lemma {:induction false} NothingSynced(f: Facts, rows: Table)
    ensures Synced(f, rows, rows, {})
  {
    hide MonthOf, CanonicalRow;
  }

  function DayIds(events: seq<Event>, day: nat): set<nat> {
    set e | e in events && DayOf(e.at) == day :: e.id
  }

  lemma {:induction false} DayBounds(events: seq<Event>, day: nat)
    ensures (set e | e in events && day * MINUTES_PER_DAY <= e.at < (day + 1) * MINUTES_PER_DAY :: e.id) == DayIds(events, day)
  {
    forall e: Event ensures day * MINUTES_PER_DAY <= e.at < (day + 1) * MINUTES_PER_DAY <==> DayOf(e.at) == day {
    }
  }

  lemma {:induction false} OverlappingPairIsOfDay(events: seq<Event>, i: nat, day: nat)
    requires i < |PairRows(Ordered(events))|
    requires var p := PairRows(Ordered(events))[i];
      p.0.at < (day + 1) * MINUTES_PER_DAY && p.1.at > day * MINUTES_PER_DAY
    ensures var p := PairRows(Ordered(events))[i]; p.0.id in DayIds(events, day) && p.1.id in DayIds(events, day)
  {
    hide PairRows, Ordered, DayOf;
    OrderedSorted(events); OrderedElements(events);
    PairsDisjoint(Ordered(events));
    var p := PairRows(Ordered(events))[i];
    SameDayBounds(p.0.at, p.1.at, day);
    assert p.0 in events && p.1 in events;
  }

  lemma {:induction false} SameDayBounds(a: nat, b: nat, day: nat)
    requires DayOf(a) == DayOf(b) && a < (day + 1) * MINUTES_PER_DAY && b > day * MINUTES_PER_DAY
    ensures DayOf(a) == day
  {
  }

  lemma {:induction false} WithoutMatches(s: seq<Event>, ids: set<nat>, day: nat)
    requires forall i :: 0 <= i < |s| ==> (s[i].id in ids <==> DayOf(s[i].at) == day)
    ensures Without(s, ids) == OtherDays(s, day)
  {
    hide DayOf;
    if s != [] {
      WithoutMatches(s[1..], ids, day);
    }
  }

  /** Deleting the conflicting rows of a day leaves the rows of the other days. */
  lemma {:induction false} WithoutDay(events: seq<Event>, day: nat)
    requires Distinct(events)
    ensures Without(events, DayIds(events, day)) == OtherDays(events, day)
  {
    hide DayOf, Without, OtherDays;
    forall i | 0 <= i < |events| ensures events[i].id in DayIds(events, day) <==> DayOf(events[i].at) == day {
      if events[i].id in DayIds(events, day) {
        var e :| e in events && DayOf(e.at) == day && e.id == events[i].id;
        SameIdSameRow(events, e, events[i]);
      }
    }
    WithoutMatches(events, DayIds(events, day), day);
  }

  lemma {:induction false} ClearedPlansSame(f: Facts, g: Facts, day: nat)
    requires f.plans == g.plans
    ensures ClearedPlans(f, day) == ClearedPlans(g, day)
  {
  }

  lemma {:induction false} TrimmedKeeps(s: State, start: nat, end: Option<nat>)
    ensures var t := Trimmed(s, start, end);
      t.facts.profile == s.facts.profile && t.facts.start == s.facts.start && t.facts.end == s.facts.end && t.table == s.table
  {
    hide OutDays, OutMonths, OutReminders, OutEventIds, Without;
  }

  lemma {:induction false} NoDays()
    ensures Bounds(Span(None, None), {})
  {
  }
}
