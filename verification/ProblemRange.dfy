/** The first and last date of the records that a period change would delete
    (app/api/v1/admin_employments.py). */
module ProblemRange {
  import opened Options
  import opened Calendar
  import opened Intervals
  import opened Summary
  import opened Ledger
  import opened Period

  datatype Span = Span(first: Option<nat>, last: Option<nat>)

  /** `RangeConflictSummary.touch`. */
  function Touch(span: Span, lo: nat, hi: nat): Span {
    Span(if span.first == None || lo < span.first.value then Some(lo) else span.first,
         if span.last == None || hi > span.last.value then Some(hi) else span.last)
  }

  ghost predicate Between(lo: nat, hi: nat, days: set<nat>) {
    lo in days && hi in days && forall d :: d in days ==> lo <= d <= hi
  }

  /** The span's ends are the earliest and the latest of the days; it has none when there are none. */
  ghost predicate Bounds(span: Span, days: set<nat>) {
    if days == {} then span == Span(None, None)
    else span.first.Some? && span.last.Some? && Between(span.first.value, span.last.value, days)
  }

  lemma {:induction false} TouchBounds(span: Span, days: set<nat>, lo: nat, hi: nat, more: set<nat>)
    requires Bounds(span, days) && Between(lo, hi, more)
    ensures Bounds(Touch(span, lo, hi), days + more)
  {
    assert lo in days + more;
  }

  function LastDay(m: nat): nat {
    MonthNotEmpty(m);
    MonthStart(m + 1) - 1
  }

  /** First and last days of the months. */
  function MonthEnds(months: set<nat>): set<nat> {
    (set m | m in months :: MonthStart(m)) + (set m | m in months :: LastDay(m))
  }

  method Extremes(days: set<nat>) returns (lo: nat, hi: nat)
    requires days != {}
    ensures Between(lo, hi, days)
  {
    var first :| first in days;
    lo, hi := first, first;
    var todo := days - {first};
    while todo != {}
      invariant todo <= days && Between(lo, hi, days - todo)
      decreases todo
    {
      var d :| d in todo;
      assert days - (todo - {d}) == (days - todo) + {d};
      todo := todo - {d};
      if d < lo { lo := d; }
      if d > hi { hi := d; }
    }
    assert days - todo == days;
  }

  method TouchDays(span: Span, ghost seen: set<nat>, days: set<nat>) returns (r: Span)
    requires Bounds(span, seen)
    ensures Bounds(r, seen + days)
  {
    if days == {} {
      assert seen + days == seen;
      return span;
    }
    var lo, hi := Extremes(days);
    TouchBounds(span, seen, lo, hi, days);
    return Touch(span, lo, hi);
  }

  /** Month records count from the first day of the first month to the last day of the last one. */
  method TouchMonths(span: Span, ghost seen: set<nat>, months: set<nat>) returns (r: Span)
    requires Bounds(span, seen)
    ensures Bounds(r, seen + MonthEnds(months))
  {
    hide MonthStart;
    if months == {} {
      assert seen + MonthEnds(months) == seen;
      return span;
    }
    var lo, hi := Extremes(months);
    MonthsBetween(lo, hi, months);
    TouchBounds(span, seen, MonthStart(lo), LastDay(hi), MonthEnds(months));
    return Touch(span, MonthStart(lo), LastDay(hi));
  }

  lemma {:induction false} MonthsBetween(lo: nat, hi: nat, months: set<nat>)
    requires Between(lo, hi, months)
    ensures Between(MonthStart(lo), LastDay(hi), MonthEnds(months))
  {
    hide MonthStart;
    forall m | m in months ensures MonthStart(lo) <= MonthStart(m) <= LastDay(m) <= LastDay(hi) {
      MonthStartMonotone(lo, m);
      MonthNotEmpty(m);
      MonthStartMonotone(m + 1, hi + 1);
    }
  }

  function RowDays(events: seq<Event>, ids: set<nat>): set<nat> {
    set e | e in events && e.id in ids :: DayOf(e.at)
  }

  function ReminderDays(reminders: set<Reminder>): set<nat> {
    set r | r in reminders :: r.day
  }

  /** The days of all records outside the new period. */
  function ProblemDays(s: State, start: nat, end: Option<nat>): set<nat> {
    OutDays(s.facts.attendance.Keys, start, end)
      + RowDays(s.facts.events, OutEventIds(s.facts.events, start, end))
      + OutDays(s.facts.plans.Keys, start, end)
      + MonthEnds(OutMonths(s.attendanceLocks, start, end))
      + MonthEnds(OutMonths(s.planLocks, start, end))
      + MonthEnds(OutMonths(s.selections, start, end))
      + ReminderDays(OutReminders(s.reminders, start, end))
  }

  lemma {:induction false} EmptyParts(a: set<nat>, b: set<nat>, c: set<nat>, d: set<nat>, e: set<nat>, f: set<nat>, g: set<nat>)
    ensures a + b + c + d + e + f + g == {} <==> a == {} && b == {} && c == {} && d == {} && e == {} && f == {} && g == {}
  {
    var all := a + b + c + d + e + f + g;
    assert a <= all && b <= all && c <= all && d <= all && e <= all && f <= all && g <= all;
  }

  lemma {:induction false} NoMonthEnds(months: set<nat>)
    ensures MonthEnds(months) == {} <==> months == {}
  {
    hide MonthStart, LastDay;
    if m :| m in months {
      assert MonthStart(m) in MonthEnds(months);
    }
  }

  lemma {:induction false} NoRowDays(events: seq<Event>, start: nat, end: Option<nat>)
    requires Distinct(events)
    ensures RowDays(events, OutEventIds(events, start, end)) == {} <==> OutEventIds(events, start, end) == {}
  {
    hide DayOf, DayOut, OutRowIds, OutEventIds, Distinct;
    DeletionClosedUnderPairing(events, start, end);
    var ids := OutEventIds(events, start, end);
    if id :| id in ids {
      OutIdIsRow(events, start, end, id);
      var e :| e in events && e.id == id;
      assert DayOf(e.at) in RowDays(events, ids);
    }
  }

  lemma {:induction false} NoReminderDays(reminders: set<Reminder>)
    ensures ReminderDays(reminders) == {} <==> reminders == {}
  {
    if r :| r in reminders {
      assert r.day in ReminderDays(reminders);
    }
  }

  lemma {:induction false} NothingCounted(s: State, start: nat, end: Option<nat>)
    ensures PreviewOf(s, start, end) == NOTHING <==>
      && OutDays(s.facts.attendance.Keys, start, end) == {} && OutEventIds(s.facts.events, start, end) == {}
      && OutDays(s.facts.plans.Keys, start, end) == {} && OutMonths(s.attendanceLocks, start, end) == {}
      && OutMonths(s.planLocks, start, end) == {} && OutMonths(s.selections, start, end) == {}
      && OutReminders(s.reminders, start, end) == {}
  {
    hide OutDays, OutMonths, OutReminders, OutEventIds;
  }

  /** There is a problem day exactly when the preview counts something. */
  lemma {:induction false} NoProblemDays(s: State, start: nat, end: Option<nat>)
    requires Distinct(s.facts.events)
    ensures ProblemDays(s, start, end) == {} <==> PreviewOf(s, start, end) == NOTHING
  {
    hide PreviewOf, OutDays, OutMonths, OutReminders, OutEventIds, RowDays, ReminderDays, MonthEnds, Distinct;
    NothingCounted(s, start, end);
    NoRowDays(s.facts.events, start, end);
    NoMonthEnds(OutMonths(s.attendanceLocks, start, end));
    NoMonthEnds(OutMonths(s.planLocks, start, end));
    NoMonthEnds(OutMonths(s.selections, start, end));
    NoReminderDays(OutReminders(s.reminders, start, end));
    EmptyParts(OutDays(s.facts.attendance.Keys, start, end),
               RowDays(s.facts.events, OutEventIds(s.facts.events, start, end)),
               OutDays(s.facts.plans.Keys, start, end), MonthEnds(OutMonths(s.attendanceLocks, start, end)),
               MonthEnds(OutMonths(s.planLocks, start, end)), MonthEnds(OutMonths(s.selections, start, end)),
               ReminderDays(OutReminders(s.reminders, start, end)));
  }

  lemma {:induction false} OutIdIsRow(events: seq<Event>, start: nat, end: Option<nat>, id: nat)
    requires id in OutRowIds(events, start, end)
    ensures exists e :: e in events && e.id == id
  {
    hide DayOut, DayOf;
  }
}
