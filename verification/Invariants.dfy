/** What every step keeps: exclusive day statuses, containment in the employment period, and an exact
    cache of daily metrics. */
module Invariants {
  import opened Options
  import opened Calendar
  import opened Intervals
  import opened Breaks
  import opened Backfill
  import opened Metrics
  import opened Punches
  import opened Summary
  import opened Ledger
  import opened Footprint

  ghost predicate RowsOk(s: State) {
    && 0 < s.nextId && Distinct(s.facts.events)
    && forall i :: 0 <= i < |s.facts.events| ==> 0 < s.facts.events[i].id < s.nextId
  }

  /** A day with a full-day status has no punches and no planned times, and never two statuses. */
  ghost predicate Exclusive(f: Facts) {
    forall day :: HasStatus(f, day) ==>
      && OfDay(f.events, day) == []
      && (day in f.plans ==> f.plans[day].arrival == None && f.plans[day].departure == None)
      && !(day in f.attendance && f.attendance[day].Some? && day in f.plans && f.plans[day].status.Some?)
  }

  /** Every stored fact lies in the employment period. */
  ghost predicate Contained(f: Facts) {
    && (forall day :: OfDay(f.events, day) != [] ==> InPeriod(f, day))
    && (forall day :: day in f.attendance || day in f.plans ==> InPeriod(f, day))
  }

  ghost predicate Inv(s: State) {
    RowsOk(s) && Exclusive(s.facts) && Contained(s.facts) && CacheExact(s.facts, s.table)
  }

  /** The committed or rolled-back effect of an operation on punches, plans and statuses. */
  ghost predicate Applies(s: State, o: Outcome, s': State) {
    match o
    case Abort(_) => s' == s
    case Commit(g, nextId, months) =>
      s' == s.(facts := g, nextId := nextId, table := s'.table) && Synced(g, s.table, s'.table, months)
  }

  lemma {:induction false} NoTimesNoRows(events: seq<Event>, day: nat)
    ensures OfDay(events, day) == [] <==> DayTimes(events, day) == {}
  {
    hide DayOf;
    OfDayElements(events, day);
    if OfDay(events, day) != [] {
      var e := OfDay(events, day)[0];
      assert e in OfDay(events, day);
      assert e.at in DayTimes(events, day);
    }
    if DayTimes(events, day) != {} {
      var t :| t in DayTimes(events, day);
      var e :| e in events && e.at == t;
      assert e in OfDay(events, day);
    }
  }

  /** Facts that may follow `f` when the days in `days` are resynchronised. */
  ghost predicate Follows(f: Facts, g: Facts, days: set<nat>) {
    && Distinct(g.events) && g.profile == f.profile
    && (forall day :: day !in days ==> SameDay(f, g, day))
  }

  lemma {:induction false} SyncedDays(f: Facts, g: Facts, before: Table, after: Table, days: set<nat>)
    requires Distinct(f.events) && Follows(f, g, days)
    requires CacheExact(f, before) && Synced(g, before, after, MonthsFor(days))
    ensures CacheExact(g, after)
  {
    hide CacheExact, Synced, MonthOf, SameDay, Distinct;
    forall day | MonthOf(day) !in MonthsFor(days) ensures SameDay(f, g, day) {
      assert day !in days;
    }
    SyncKeepsExact(f, g, before, after, MonthsFor(days));
  }

  /** Steps that only change punches: which conditions carry the invariant over. */
  ghost predicate PunchStep(f: Facts, events: seq<Event>, days: set<nat>) {
    && Distinct(events)
    && (forall day :: day !in days ==> DayTimes(events, day) == DayTimes(f.events, day))
    && (forall day :: DayTimes(events, day) != {} ==> InPeriod(f, day))
    && (forall day :: HasStatus(f, day) ==> DayTimes(events, day) == {})
  }

  lemma {:induction false} PunchStepKeepsInv(s: State, events: seq<Event>, nextId: nat, days: set<nat>, s': State)
    requires Inv(s) && PunchStep(s.facts, events, days)
    requires 0 < nextId && forall i :: 0 <= i < |events| ==> 0 < events[i].id < nextId
    requires Applies(s, Commit(s.facts.(events := events), nextId, MonthsFor(days)), s')
    ensures Inv(s')
  {
    hide Distinct, DayTimes, OfDay, MonthOf, CacheExact, Synced, MonthsFor;
    var f, g := s.facts, s.facts.(events := events);
    forall day ensures OfDay(events, day) == [] <==> DayTimes(events, day) == {} {
      NoTimesNoRows(events, day);
    }
    SyncedDays(f, g, s.table, s'.table, days);
    assert forall day :: HasStatus(g, day) == HasStatus(f, day);
    assert forall day :: InPeriod(g, day) == InPeriod(f, day);
  }

  // ---- creating punches ----

  lemma {:induction false} BreaksOnDay(start: nat, end: nat)
    requires start <= end && DayOf(start) == DayOf(end)
    ensures forall t :: t in AutomaticBreaks(start, end) ==> DayOf(t) == DayOf(end)
  {
    hide DayOf, AutomaticBreaks;
    if start < end {
      var w := ClosedAdditions(true, start, end);
      ClosedPairs(start, end);
      BlockInDay(w, start, end);
      forall t | t in AutomaticBreaks(start, end) ensures t in w { }
    } else {
      NoBreaksAtOnce(start);
    }
  }

  lemma {:induction false} NoBreaksAtOnce(at: nat)
    ensures AutomaticBreaks(at, at) == []
  {
  }

  lemma {:induction false} PreviousOnDay(events: seq<Event>, at: nat)
    requires Position(events, at) % 2 == 1
    ensures DayOf(Previous(events, at)) == DayOf(at)
  {
    hide DayOf, Position;
    var rows := OfDay(events, DayOf(at)) + [Fresh(at)];
    OrderedElements(rows);
    OfDayElements(events, DayOf(at));
    var e := DayWith(events, at)[Position(events, at) - 1];
    assert e in DayWith(events, at);
    assert e in OfDay(events, DayOf(at)) || e == Fresh(at);
  }

  /** The times of `create_event`. */
  function CreatedTimes(f: Facts, at: nat, paired: Option<nat>): seq<nat>
    requires paired.Some? ==> at <= paired.value
  {
    if paired.Some? then ClosedAdditions(f.profile.automaticBreaks, at, paired.value)
    else EventAdditions(f.profile.automaticBreaks, f.events, at)
  }

  lemma {:induction false} CreatedOnOneDay(f: Facts, at: nat, paired: Option<nat>)
    requires paired.Some? ==> at < paired.value && DayOf(paired.value) == DayOf(at)
    ensures forall t :: t in CreatedTimes(f, at, paired) ==> DayOf(t) == DayOf(at)
  {
    hide DayOf, Position, Previous, AutomaticBreaks;
    if paired.Some? {
      BreaksOnDay(at, paired.value);
    } else if Position(f.events, at) % 2 == 1 {
      PreviousOnDay(f.events, at);
      BreaksOnDay(Previous(f.events, at), at);
    }
  }

  lemma {:induction false} CreateKeepsInv(s: State, env: Env, at: nat, paired: Option<nat>, s': State)
    requires Inv(s) && Applies(s, CreateEvent(s, env, at, paired), s')
    ensures Inv(s')
  {
    hide DayOf, Distinct, OfDay, MonthOf, CacheExact, Synced, Signatures, DayTimes, DaysOf;
    var o := CreateEvent(s, env, at, paired);
    if o.Commit? {
      var f, times := s.facts, CreatedTimes(s.facts, at, paired);
      var events := f.events + NewRows(s.nextId, times);
      var stamps := {at} + if paired.Some? then {paired.value} else {};
      var days := ChangedEventDays(Signatures(f.events), Signatures(events), stamps);
      CreatedOnOneDay(f, at, paired);
      InsertedRows(f.events, s.nextId, times);
      RowIds(s, times);
      assert DayOf(at) in days by { assert at in stamps; }
      InsertedOnDays(s, times, days);
      PunchStepKeepsInv(s, events, s.nextId + |times|, days, s');
    }
  }

  lemma {:induction false} RowIds(s: State, times: seq<nat>)
    requires RowsOk(s)
    ensures var events := s.facts.events + NewRows(s.nextId, times);
      forall i :: 0 <= i < |events| ==> 0 < events[i].id < s.nextId + |times|
  {
    NewRowsIds(s.nextId, times);
  }

  /** Inserting rows on changed days that carry no status is a punch step. */
  lemma {:induction false} InsertedOnDays(s: State, times: seq<nat>, days: set<nat>)
    requires Inv(s) && Insertable(s.facts.events, times)
    requires forall t :: t in times ==> DayOf(t) in days && InPeriod(s.facts, DayOf(t))
    requires !AnyStatus(s.facts, days)
    ensures PunchStep(s.facts, s.facts.events + NewRows(s.nextId, times), days)
  {
    hide DayOf, Distinct, OfDay, DayTimes, CacheExact;
    var f := s.facts;
    InsertedRows(f.events, s.nextId, times);
    forall day ensures OfDay(f.events, day) == [] <==> DayTimes(f.events, day) == {} {
      NoTimesNoRows(f.events, day);
    }
    forall day | AddedOn(times, day) != {} ensures day in days && InPeriod(f, day) {
      var t :| t in AddedOn(times, day);
    }
  }

  // ---- moving and deleting punches ----

  lemma {:induction false} MovedRow(events: seq<Event>, i: nat, at: nat)
    requires Distinct(events) && i < |events| && Insertable(events[..i] + events[i + 1..], [at])
    ensures var moved := events[i := Event(events[i].id, at)];
      && Distinct(moved)
      && forall day :: DayTimes(moved, day) == DayTimes(events, day) - {events[i].at} + AddedOn([at], day)
  {
    hide DayOf;
    var moved, rest := events[i := Event(events[i].id, at)], events[..i] + events[i + 1..];
    forall j | 0 <= j < |events| && j != i ensures moved[j].at != at {
      var k := if j < i then j else j - 1;
      assert moved[j] == rest[k] && rest[k].at != [at][0];
    }
    forall day, t: nat
      ensures t in DayTimes(moved, day) <==> t in DayTimes(events, day) - {events[i].at} + AddedOn([at], day)
    {
      if t in DayTimes(moved, day) {
        var e :| e in moved && e.at == t;
        var j :| 0 <= j < |moved| && moved[j] == e;
        assert j == i || events[j] in events;
        assert t in [at] <==> t == at;
      }
      if t in DayTimes(events, day) - {events[i].at} {
        var e :| e in events && e.at == t;
        var j :| 0 <= j < |events| && events[j] == e;
        assert moved[j] in moved;
      }
      assert moved[i] in moved;
    }
  }

  lemma {:induction false} MoveKeepsInv(s: State, env: Env, id: nat, at: nat, s': State)
    requires Inv(s) && Applies(s, MoveEvent(s, env, id, at), s')
    ensures Inv(s')
  {
    hide DayOf, Distinct, OfDay, MonthOf, CacheExact, Synced, Signatures, DayTimes, DaysOf, Insertable;
    if MoveEvent(s, env, id, at).Commit? {
      var f, i := s.facts, RowIndex(s.facts.events, id);
      var events, from := f.events[i := Event(id, at)], f.events[i].at;
      var days := ChangedEventDays(Signatures(f.events), Signatures(events), {from, at});
      MovedRow(f.events, i, at);
      assert from in {from, at} && at in {from, at};
      assert DayOf(from) in days && DayOf(at) in days;
      MovedStep(s, i, at, days);
      PunchStepKeepsInv(s, events, s.nextId, days, s');
    }
  }

  lemma {:induction false} MovedStep(s: State, i: nat, at: nat, days: set<nat>)
    requires Inv(s) && i < |s.facts.events| && Insertable(s.facts.events[..i] + s.facts.events[i + 1..], [at])
    requires InPeriod(s.facts, DayOf(at)) && DayOf(at) in days && DayOf(s.facts.events[i].at) in days
    requires !AnyStatus(s.facts, days)
    ensures PunchStep(s.facts, s.facts.events[i := Event(s.facts.events[i].id, at)], days)
  {
    hide DayOf, Distinct, OfDay, CacheExact, Insertable;
    var f := s.facts;
    MovedRow(f.events, i, at);
    forall day ensures OfDay(f.events, day) == [] <==> DayTimes(f.events, day) == {} {
      NoTimesNoRows(f.events, day);
    }
    assert forall day :: AddedOn([at], day) == if day == DayOf(at) then {at} else {};
    assert forall day :: f.events[i].at in DayTimes(f.events, day) ==> day == DayOf(f.events[i].at);
  }

  lemma {:induction false} WithoutElements(events: seq<Event>, ids: set<nat>)
    ensures forall e :: e in Without(events, ids) <==> e in events && e.id !in ids
  {
    if events != [] {
      WithoutElements(events[1..], ids);
    }
  }

  lemma {:induction false} WithoutDistinct(events: seq<Event>, ids: set<nat>)
    requires Distinct(events)
    ensures Distinct(Without(events, ids))
  {
    if events != [] {
      WithoutDistinct(events[1..], ids);
      WithoutElements(events[1..], ids);
      var rest := Without(events[1..], ids);
      forall i | 0 <= i < |rest| ensures rest[i].at != events[0].at && rest[i].id != events[0].id {
        assert rest[i] in rest;
        var j :| 0 <= j < |events[1..]| && events[1..][j] == rest[i];
        assert events[j + 1] == rest[i];
      }
    }
  }

  /** Times of the rows with the given ids. */
  ghost predicate StampsCover(events: seq<Event>, ids: set<nat>, stamps: set<nat>) {
    forall e :: e in events && e.id in ids ==> e.at in stamps
  }

  lemma {:induction false} DeletedStep(s: State, ids: set<nat>, stamps: set<nat>, days: set<nat>)
    requires Inv(s) && StampsCover(s.facts.events, ids, stamps)
    requires forall t :: t in stamps ==> DayOf(t) in days
    ensures PunchStep(s.facts, Without(s.facts.events, ids), days)
  {
    hide DayOf, Distinct, OfDay, CacheExact;
    var f := s.facts;
    var events := Without(f.events, ids);
    WithoutDistinct(f.events, ids);
    WithoutElements(f.events, ids);
    forall day ensures OfDay(f.events, day) == [] <==> DayTimes(f.events, day) == {} {
      NoTimesNoRows(f.events, day);
    }
    forall day ensures DayTimes(events, day) <= DayTimes(f.events, day) { }
    forall day | day !in days ensures DayTimes(f.events, day) <= DayTimes(events, day) {
      forall t | t in DayTimes(f.events, day) ensures t in DayTimes(events, day) {
        var e :| e in f.events && e.at == t;
        assert e.id !in ids;
        assert e in events;
      }
    }
  }

  lemma {:induction false} RowOfId(events: seq<Event>, id: nat)
    requires Distinct(events) && HasRow(events, id)
    ensures forall e :: e in events && e.id == id ==> e.at == events[RowIndex(events, id)].at
  {
  }

  lemma {:induction false} DeleteKeepsInv(s: State, env: Env, id: nat, paired: Option<nat>, s': State)
    requires Inv(s) && Applies(s, DeleteEvent(s, env, id, paired), s')
    ensures Inv(s')
  {
    hide DayOf, Distinct, OfDay, MonthOf, CacheExact, Synced, Signatures, DayTimes, DaysOf, RowIndex, HasRow;
    if DeleteEvent(s, env, id, paired).Commit? {
      var f := s.facts;
      var ids := {id} + if paired.Some? then {paired.value} else {};
      var stamps := {f.events[RowIndex(f.events, id)].at}
        + if paired.Some? then {f.events[RowIndex(f.events, paired.value)].at} else {};
      var days := ChangedEventDays(Signatures(f.events), Signatures(Without(f.events, ids)), stamps);
      RowOfId(f.events, id);
      if paired.Some? { RowOfId(f.events, paired.value); }
      assert forall t :: t in stamps ==> DayOf(t) in days;
      DeletedStep(s, ids, stamps, days);
      WithoutElements(f.events, ids);
      forall i | 0 <= i < |Without(f.events, ids)| ensures 0 < Without(f.events, ids)[i].id < s.nextId {
        assert Without(f.events, ids)[i] in f.events;
      }
      PunchStepKeepsInv(s, Without(f.events, ids), s.nextId, days, s');
    }
  }

  // ---- adding missing breaks ----

  lemma {:induction false} SortedIntervalElements(s: seq<WorkInterval>, x: WorkInterval)
    ensures x in SortedIntervals(s) ==> x in s
  {
    if s != [] {
      SortedIntervalElements(s[1..], x);
      InsertIntervalElements(s[0], SortedIntervals(s[1..]), x);
    }
  }

  lemma {:induction false} InsertIntervalElements(y: WorkInterval, s: seq<WorkInterval>, x: WorkInterval)
    ensures x in InsertInterval(y, s) ==> x == y || x in s
  {
    if s != [] && !IntervalBefore(y, s[0]) {
      InsertIntervalElements(y, s[1..], x);
    }
  }

  lemma {:induction false} SessionElements(s: seq<WorkInterval>, k: nat, x: WorkInterval)
    requires k < |Sessions(s)| && x in Sessions(s)[k]
    ensures x in s
  {
    if s != [] {
      var before, last := Sessions(s[..|s| - 1]), Last(s);
      if k < |before| && x in before[k] {
        SessionElements(s[..|s| - 1], k, x);
      } else {
        assert x == last;
      }
    }
  }

  ghost predicate InsideAny(s: seq<WorkInterval>, t: nat) {
    exists x :: x in s && x.start < t < x.end
  }

  lemma {:induction false} BoundaryInside(g: seq<nat>, session: seq<WorkInterval>, t: nat)
    requires BreaksInside(g, session) && t in g
    ensures InsideAny(session, t)
  {
    var i :| 0 <= i < |g| && g[i] == t;
    var k := i / 2;
    assert BreakInside(g[2 * k], g[2 * k + 1], session);
    assert i == 2 * k || i == 2 * k + 1;
  }

  lemma {:induction false} AdditionsInside(sessions: seq<seq<WorkInterval>>, all: seq<WorkInterval>, lo: nat, hi: nat, j: nat, t: nat)
    requires forall k :: 0 <= k < |sessions| ==> sessions[k] != []
    requires forall k, x :: 0 <= k < |sessions| && x in sessions[k] ==> x in all
    requires j < |AdditionsOf(sessions, lo, hi)| && t in AdditionsOf(sessions, lo, hi)[j]
    ensures InsideAny(all, t)
  {
    hide SessionAdditions, BreaksInside;
    if sessions != [] {
      var first := SessionAdditions(sessions[0], lo, hi);
      if j < |first| {
        AllOrNothing(sessions[0], lo, hi);
        assert first[j] in first;
        BoundaryInside(first[j], sessions[0], t);
      } else {
        AdditionsInside(sessions[1..], all, lo, hi, j - |first|, t);
      }
    }
  }

  /** Whatever the intervals, every added boundary lies strictly inside a recorded one. */
  lemma {:induction false} GroupsInside(intervals: seq<WorkInterval>, lo: nat, hi: nat, j: nat, t: nat)
    requires j < |MissingBreakGroups(intervals, lo, hi)| && t in MissingBreakGroups(intervals, lo, hi)[j]
    ensures InsideAny(intervals, t)
  {
    var s := SortedIntervals(intervals);
    forall k, x | 0 <= k < |Sessions(s)| && x in Sessions(s)[k] ensures x in intervals {
      SessionElements(s, k, x);
      SortedIntervalElements(intervals, x);
    }
    AdditionsInside(Sessions(s), intervals, lo, hi, j, t);
  }

  lemma {:induction false} NewPairsElements(additions: seq<nat>, existing: set<nat>, t: nat)
    ensures t in NewPairs(additions, existing) ==> t in additions
    decreases |additions|
  {
    if |additions| >= 2 {
      NewPairsElements(additions[2..], existing, t);
    }
  }

  lemma {:induction false} InsertedFromGroups(groups: seq<seq<nat>>, existing: set<nat>, t: nat)
    requires t in Inserted(groups, existing)
    ensures exists j :: 0 <= j < |groups| && t in groups[j]
  {
    if groups != [] {
      var times := NewPairs(groups[0], existing);
      if t in times {
        NewPairsElements(groups[0], existing, t);
      } else {
        InsertedFromGroups(groups[1..], existing + (set u | u in times), t);
        var j :| 0 <= j < |groups[1..]| && t in groups[1..][j];
        assert t in groups[j + 1];
      }
    }
  }

  /** The times `add_missing_breaks` inserts for month `m`. */
  function BreakInsertions(f: Facts, m: nat): seq<nat> {
    Inserted(MissingBreakGroups(PairEvents(f.events), MonthStart(m) * MINUTES_PER_DAY, MonthStart(m + 1) * MINUTES_PER_DAY),
             TimeSet(f.events))
  }

  lemma {:induction false} InsertionsInside(f: Facts, m: nat, t: nat)
    requires t in BreakInsertions(f, m)
    ensures InsideRecorded(f.events, t)
  {
    hide MissingBreakGroups, PairEvents, MonthStart;
    var lo, hi := MonthStart(m) * MINUTES_PER_DAY, MonthStart(m + 1) * MINUTES_PER_DAY;
    var groups := MissingBreakGroups(PairEvents(f.events), lo, hi);
    InsertedFromGroups(groups, TimeSet(f.events), t);
    var j :| 0 <= j < |groups| && t in groups[j];
    GroupsInside(PairEvents(f.events), lo, hi, j, t);
    var x :| x in PairEvents(f.events) && x.start < t < x.end;
    assert x in Signatures(f.events);
  }

  /** Breaks fall on days that already have punches, and each such day is found to have changed. */
  lemma {:induction false} InsertionsDetected(s: State, m: nat, t: nat)
    requires Inv(s) && Insertable(s.facts.events, BreakInsertions(s.facts, m)) && t in BreakInsertions(s.facts, m)
    ensures var events := s.facts.events + NewRows(s.nextId, BreakInsertions(s.facts, m));
      DayOf(t) in ChangedEventDays(Signatures(s.facts.events), Signatures(events), {})
    ensures InPeriod(s.facts, DayOf(t))
  {
    hide DayOf, Distinct, OfDay, CacheExact, Signatures, ChangedEventDays, BreakInsertions, DayTimes;
    var f, times := s.facts, BreakInsertions(s.facts, m);
    var events := f.events + NewRows(s.nextId, times);
    InsertedRows(f.events, s.nextId, times);
    InsertionsInside(f, m, t);
    var x :| x in Signatures(f.events) && x.start < t < x.end;
    SignatureEnds(f.events, x);
    DayMonotone(x.start, t); DayMonotone(t, x.end);
    NoTimesNoRows(f.events, DayOf(t));
    NewTimeNotStored(f.events, times, t);
    assert t in AddedOn(times, DayOf(t));
    assert Differs(f.events, events, t);
    CoveredIsChanged(f.events, events, {}, t);
  }

  lemma {:induction false} NewTimeNotStored(events: seq<Event>, times: seq<nat>, t: nat)
    requires Insertable(events, times) && t in times
    ensures t !in DayTimes(events, DayOf(t))
  {
    hide DayOf;
    var i :| 0 <= i < |times| && times[i] == t;
    forall e | e in events ensures e.at != t {
      var k :| 0 <= k < |events| && events[k] == e;
      assert events[k].at != times[i];
    }
  }

  lemma {:induction false} BreaksKeepInv(s: State, env: Env, m: nat, confirmed: bool, s': State)
    requires Inv(s) && Applies(s, AddBreaks(s, env, m, confirmed), s')
    ensures Inv(s')
  {
    hide DayOf, Distinct, OfDay, MonthOf, CacheExact, Synced, Signatures, DayTimes, DaysOf, Insertable,
      ChangedEventDays, MonthStart, Inserted;
    if AddBreaks(s, env, m, confirmed).Commit? {
      var f, times := s.facts, BreakInsertions(s.facts, m);
      var events := f.events + NewRows(s.nextId, times);
      var days := ChangedEventDays(Signatures(f.events), Signatures(events), {});
      forall t | t in times ensures DayOf(t) in days && InPeriod(f, DayOf(t)) {
        InsertionsDetected(s, m, t);
      }
      InsertedOnDays(s, times, days);
      RowIds(s, times);
      PunchStepKeepsInv(s, events, s.nextId + |times|, days, s');
    }
  }

  // ---- plans and day statuses ----

  lemma {:induction false} FollowsKeepsInv(s: State, g: Facts, days: set<nat>, s': State)
    requires Inv(s) && Follows(s.facts, g, days) && Exclusive(g) && Contained(g)
    requires forall i :: 0 <= i < |g.events| ==> 0 < g.events[i].id < s.nextId
    requires Applies(s, Commit(g, s.nextId, MonthsFor(days)), s')
    ensures Inv(s')
  {
    hide Exclusive, Contained, Distinct, CacheExact, Synced, MonthsFor;
    SyncedDays(s.facts, g, s.table, s'.table, days);
  }

  lemma {:induction false} PlanKeepsInv(s: State, env: Env, day: nat, arrival: Option<MinuteOfDay>, departure: Option<MinuteOfDay>,
                                        status: Option<Status>, confirmed: bool, s': State)
    requires Inv(s) && Applies(s, UpsertPlan(s, env, day, arrival, departure, status, confirmed), s')
    ensures Inv(s')
  {
    hide DayOf, Distinct, OfDay, MonthOf, CacheExact, Synced, DayTimes, OverlapsOtherPlan;
    var o := UpsertPlan(s, env, day, arrival, departure, status, confirmed);
    if o.Commit? {
      var days := if o.months == {} then {} else {day};
      assert MonthsFor(days) == o.months;
      assert Follows(s.facts, o.facts, days);
      assert Contained(o.facts);
      assert Exclusive(o.facts);
      FollowsKeepsInv(s, o.facts, days, s');
    }
  }

  lemma {:induction false} OtherDaysElements(s: seq<Event>, day: nat)
    ensures forall e :: e in OtherDays(s, day) <==> e in s && DayOf(e.at) != day
  {
    if s != [] {
      OtherDaysElements(s[1..], day);
    }
  }

  lemma {:induction false} OtherDaysDistinct(s: seq<Event>, day: nat)
    requires Distinct(s)
    ensures Distinct(OtherDays(s, day))
  {
    hide DayOf;
    if s != [] {
      OtherDaysDistinct(s[1..], day);
      OtherDaysElements(s[1..], day);
      var rest := OtherDays(s[1..], day);
      forall i | 0 <= i < |rest| ensures rest[i].at != s[0].at && rest[i].id != s[0].id {
        assert rest[i] in rest;
        var j :| 0 <= j < |s[1..]| && s[1..][j] == rest[i];
        assert s[j + 1] == rest[i];
      }
    }
  }

  lemma {:induction false} OtherDaysTimes(s: seq<Event>, day: nat, d: nat)
    ensures DayTimes(OtherDays(s, day), d) == if d == day then {} else DayTimes(s, d)
    ensures OfDay(OtherDays(s, day), d) == [] <==> d == day || OfDay(s, d) == []
  {
    hide DayOf;
    OtherDaysElements(s, day);
    NoTimesNoRows(OtherDays(s, day), d);
    NoTimesNoRows(s, d);
    forall t: nat ensures t in DayTimes(OtherDays(s, day), d) <==> d != day && t in DayTimes(s, d) {
      if t in DayTimes(s, d) && d != day {
        var e :| e in s && e.at == t;
        assert e in OtherDays(s, day);
      }
    }
  }

  /** What is left of the punches once a day is cleared. */
  ghost predicate DayCleared(before: seq<Event>, after: seq<Event>, day: nat) {
    forall d ::
      && DayTimes(after, d) == (if d == day then {} else DayTimes(before, d))
      && (OfDay(after, d) == [] <==> d == day || OfDay(before, d) == [])
  }

  lemma {:induction false} OtherDaysCleared(events: seq<Event>, day: nat)
    ensures DayCleared(events, OtherDays(events, day), day)
  {
    hide DayOf, OfDay, DayTimes, OtherDays;
    forall d
      ensures DayTimes(OtherDays(events, day), d) == if d == day then {} else DayTimes(events, d)
      ensures OfDay(OtherDays(events, day), d) == [] <==> d == day || OfDay(events, d) == []
    {
      OtherDaysTimes(events, day, d);
    }
  }

  lemma {:induction false} ReplacedExclusive(f: Facts, day: nat, status: Option<Status>)
    requires Exclusive(f) && DayCleared(f.events, OtherDays(f.events, day), day)
    ensures Exclusive(ReplaceStatus(f, day, status))
  {
    hide DayOf, OfDay, DayTimes, OtherDays;
  }

  lemma {:induction false} ReplacedContained(f: Facts, day: nat, status: Option<Status>)
    requires Contained(f) && InPeriod(f, day) && DayCleared(f.events, OtherDays(f.events, day), day)
    ensures Contained(ReplaceStatus(f, day, status))
  {
    hide DayOf, OfDay, DayTimes, OtherDays;
  }

  lemma {:induction false} ReplacedFollows(f: Facts, day: nat, status: Option<Status>)
    requires Distinct(f.events) && Exclusive(f) && Contained(f) && InPeriod(f, day)
    ensures var g := ReplaceStatus(f, day, status);
      Follows(f, g, {day}) && Exclusive(g) && Contained(g)
  {
    hide DayOf, Distinct, OfDay, DayTimes, OtherDays, Exclusive, Contained, InPeriod;
    OtherDaysDistinct(f.events, day);
    OtherDaysCleared(f.events, day);
    ReplacedExclusive(f, day, status);
    ReplacedContained(f, day, status);
  }

  lemma {:induction false} StatusKeepsInv(s: State, env: Env, day: nat, status: Option<Status>, confirmed: bool, s': State)
    requires Inv(s) && Applies(s, UpsertDayStatus(s, env, day, status, confirmed), s')
    ensures Inv(s')
  {
    hide DayOf, Distinct, OfDay, MonthOf, CacheExact, Synced, DayTimes, Signatures, ChangedEventDays, Exclusive, Contained;
    if UpsertDayStatus(s, env, day, status, confirmed).Commit? {
      var f, g := s.facts, ReplaceStatus(s.facts, day, status);
      var days := ChangedEventDays(Signatures(f.events), Signatures(g.events), {}) + {day};
      ReplacedFollows(f, day, status);
      OtherDaysElements(f.events, day);
      forall i | 0 <= i < |g.events| ensures 0 < g.events[i].id < s.nextId {
        assert g.events[i] in f.events;
      }
      assert Follows(f, g, days);
      FollowsKeepsInv(s, g, days, s');
    }
  }
}
