/** When the punch endpoints commit, and which rows are stored afterwards: one row more, moved or less, and
    the breaks of a closed interval (app/api/v1/admin_attendance.py). */
module PunchEffects {
  import opened Options
  import opened Calendar
  import opened Intervals
  import opened Breaks
  import opened Backfill
  import opened Metrics
  import opened Punches
  import opened Summary
  import opened Ledger
  import opened Footprint
  import opened Invariants
  import opened Period
  import opened Weaving
  import opened Sheets
  import opened BreakEffect
  import opened BreakAction

  /** The user is active and the employment runs today. */
  ghost predicate Employed(f: Facts, env: Env) {
    env.userActive && f.start <= env.today && (f.end.Some? ==> env.today <= f.end.value)
  }

  lemma {:induction false} EmployedIsActive(f: Facts, env: Env)
    ensures Active(f, env) <==> Employed(f, env)
    ensures Active(f, env) ==> env.userActive
  {
  }

  ghost predicate MonthLockedAt(s: State, t: nat) {
    MonthOf(DayOf(t)) in s.attendanceLocks
  }

  // ---- the changed days are those of the passed timestamps ----

  lemma {:induction false} StampedDays(before: seq<Event>, after: seq<Event>, stamps: set<nat>)
    requires Distinct(before) && Distinct(after)
    requires forall day :: DayTimes(before, day) != DayTimes(after, day) ==> exists stamp :: stamp in stamps && DayOf(stamp) == day
    ensures ChangedEventDays(Signatures(before), Signatures(after), stamps) == set t | t in stamps :: DayOf(t)
  {
    hide DayOf, Distinct, Signatures, DaysOf, DayTimes, ChangedEventDays, InsideRecorded;
    forall day: nat
      ensures day in ChangedEventDays(Signatures(before), Signatures(after), stamps)
         <==> day in set t | t in stamps :: DayOf(t)
    {
      FootprintExact(before, after, stamps, day);
    }
  }

  lemma {:induction false} StampedGuards(s: State, stamps: set<nat>)
    ensures var days := set t | t in stamps :: DayOf(t);
      && (AnyStatus(s.facts, days) <==> exists t :: t in stamps && HasStatus(s.facts, DayOf(t)))
      && (AnyLocked(s.attendanceLocks, MonthsFor(days)) <==> exists t :: t in stamps && MonthLockedAt(s, t))
  {
    hide DayOf, MonthOf, HasStatus;
    var days := set t | t in stamps :: DayOf(t);
    if t :| t in stamps && HasStatus(s.facts, DayOf(t)) { assert DayOf(t) in days; }
    if t :| t in stamps && MonthLockedAt(s, t) {
      assert DayOf(t) in days;
      assert MonthOf(DayOf(t)) in MonthsFor(days);
    }
  }

  // ---- moving a punch ----

  ghost predicate IsRow(events: seq<Event>, e: Event, id: nat) {
    e in events && e.id == id
  }

  /** A punch may be moved while the employment is active and the new day in its period, to a minute no
      other punch has, on a day without a status, out of and into months that are not locked. */
  ghost predicate Movable(s: State, env: Env, id: nat, at: nat) {
    && Employed(s.facts, env) && InPeriod(s.facts, DayOf(at))
    && (exists e :: IsRow(s.facts.events, e, id) && !MonthLockedAt(s, e.at))
    && (forall e :: e in s.facts.events && e.at == at ==> e.id == id)
    && !HasStatus(s.facts, DayOf(at)) && !MonthLockedAt(s, at)
  }

  /** The row is at the new time, and every other row is as before. */
  ghost predicate Moved(f: Facts, g: Facts, id: nat, at: nat) {
    && g == f.(events := g.events)
    && exists e :: IsRow(f.events, e, id) && multiset(g.events) == multiset(f.events) - multiset{e} + multiset{Event(id, at)}
  }

  lemma {:induction false} FreeForMove(events: seq<Event>, i: nat, at: nat)
    requires Distinct(events) && i < |events|
    ensures Insertable(events[..i] + events[i + 1..], [at])
       <==> forall e :: e in events && e.at == at ==> e.id == events[i].id
  {
    var rest := events[..i] + events[i + 1..];
    if Insertable(rest, [at]) {
      forall j | 0 <= j < |events| && j != i ensures events[j].at != at {
        var k := if j < i then j else j - 1;
        assert rest[k] == events[j] && rest[k].at != [at][0];
      }
    }
    if forall e :: e in events && e.at == at ==> e.id == events[i].id {
      forall k | 0 <= k < |rest| ensures rest[k].at != at {
        var j := if k < i then k else k + 1;
        assert rest[k] == events[j] && events[j] in events;
      }
    }
  }

  lemma {:induction false} OnlyRow(events: seq<Event>, id: nat, e: Event)
    requires Distinct(events) && HasRow(events, id)
    ensures IsRow(events, events[RowIndex(events, id)], id)
    ensures IsRow(events, e, id) ==> e == events[RowIndex(events, id)]
  {
  }

  lemma {:induction false} NoRow(events: seq<Event>, id: nat)
    ensures HasRow(events, id) <==> exists e :: IsRow(events, e, id)
  {
    if HasRow(events, id) {
      var i :| 0 <= i < |events| && events[i].id == id;
      assert IsRow(events, events[i], id);
    }
    if e :| IsRow(events, e, id) {
      var i :| 0 <= i < |events| && events[i] == e;
    }
  }

  lemma {:induction false} DayHasNoStatus(s: State, e: Event)
    requires Inv(s) && e in s.facts.events
    ensures !HasStatus(s.facts, DayOf(e.at))
  {
    hide HasStatus, DayOf, Distinct, CacheExact, Contained;
    OfDayElements(s.facts.events, DayOf(e.at));
    assert e in OfDay(s.facts.events, DayOf(e.at));
  }

  lemma {:induction false} MovedDays(s: State, i: nat, at: nat)
    requires Inv(s) && i < |s.facts.events| && Insertable(s.facts.events[..i] + s.facts.events[i + 1..], [at])
    ensures var f, from := s.facts, s.facts.events[i].at;
      var days := ChangedEventDays(Signatures(f.events), Signatures(f.events[i := Event(f.events[i].id, at)]), {from, at});
      && (AnyStatus(f, days) <==> HasStatus(f, DayOf(at)))
      && (AnyLocked(s.attendanceLocks, MonthsFor(days)) <==> MonthLockedAt(s, from) || MonthLockedAt(s, at))
  {
    hide DayOf, Distinct, Signatures, DayTimes, ChangedEventDays, HasStatus, MonthLockedAt, Insertable, AnyStatus, AnyLocked,
      CacheExact, Exclusive, Contained, MonthsFor;
    var events, from := s.facts.events, s.facts.events[i].at;
    var moved := events[i := Event(events[i].id, at)];
    MovedRow(events, i, at);
    forall day | DayTimes(events, day) != DayTimes(moved, day) ensures day == DayOf(from) || day == DayOf(at) {
      if day != DayOf(from) && day != DayOf(at) {
        MovedElsewhere(events, i, at, day);
      }
    }
    assert from in {from, at} && at in {from, at};
    StampedDays(events, moved, {from, at});
    StampedGuards(s, {from, at});
    assert events[i] in events;
    DayHasNoStatus(s, events[i]);
  }

  lemma {:induction false} MovedElsewhere(events: seq<Event>, i: nat, at: nat, day: nat)
    requires i < |events| && DayOf(events[i].at) != day && DayOf(at) != day
    ensures DayTimes(events, day) - {events[i].at} + AddedOn([at], day) == DayTimes(events, day)
  {
    hide DayOf;
  }

  /** A move commits exactly when the punch is movable, and then it moves that one row. */
  lemma {:induction false} MoveExactly(s: State, env: Env, id: nat, at: nat)
    requires Inv(s)
    ensures var o := MoveEvent(s, env, id, at);
      && (o.Commit? <==> Movable(s, env, id, at))
      && (o.Commit? ==> Moved(s.facts, o.facts, id, at) && o.nextId == s.nextId)
  {
    hide DayOf, Distinct, Signatures, ChangedEventDays, HasStatus, MonthLockedAt, Insertable, AnyStatus, AnyLocked, MonthsFor,
      CacheExact, Exclusive, Contained, HasRow, RowIndex, Active, InPeriod, Employed;
    var f := s.facts;
    EmployedIsActive(f, env);
    NoRow(f.events, id);
    if HasRow(f.events, id) {
      var i := RowIndex(f.events, id);
      assert IsRow(f.events, f.events[i], id) by { OnlyRow(f.events, id, Event(0, 0)); }
      forall e | IsRow(f.events, e, id) ensures e == f.events[i] { OnlyRow(f.events, id, e); }
      FreeForMove(f.events, i, at);
      if Insertable(f.events[..i] + f.events[i + 1..], [at]) {
        MovedDays(s, i, at);
      }
      assert multiset(f.events[i := Event(id, at)]) == multiset(f.events) - multiset{f.events[i]} + multiset{Event(id, at)};
    }
  }

  // ---- deleting punches ----

  function Ids(id: nat, paired: Option<nat>): set<nat> {
    {id} + if paired.Some? then {paired.value} else {}
  }

  /** A punch, or two different ones, may be deleted while the employment is active, from months that are
      not locked. */
  ghost predicate Deletable(s: State, env: Env, id: nat, paired: Option<nat>) {
    && Employed(s.facts, env) && paired != Some(id)
    && (forall x :: x in Ids(id, paired) ==> exists e :: IsRow(s.facts.events, e, x))
    && (forall e :: e in s.facts.events && e.id in Ids(id, paired) ==> !MonthLockedAt(s, e.at))
  }

  /** Exactly the named rows are gone. */
  ghost predicate Deleted(f: Facts, g: Facts, ids: set<nat>) {
    && g == f.(events := g.events) && |g.events| == |f.events| - |ids|
    && forall e :: e in g.events <==> e in f.events && e.id !in ids
  }

  lemma {:induction false} DeletedDays(s: State, ids: set<nat>, stamps: set<nat>)
    requires Inv(s) && forall t :: t in stamps <==> exists e :: e in s.facts.events && e.id in ids && e.at == t
    ensures var days := ChangedEventDays(Signatures(s.facts.events), Signatures(Without(s.facts.events, ids)), stamps);
      AnyLocked(s.attendanceLocks, MonthsFor(days)) <==> exists t :: t in stamps && MonthLockedAt(s, t)
  {
    hide DayOf, Distinct, Signatures, DayTimes, ChangedEventDays, HasStatus, MonthLockedAt, AnyLocked, CacheExact, MonthsFor,
      Exclusive, Contained, AnyStatus;
    var events, kept := s.facts.events, Without(s.facts.events, ids);
    WithoutDistinct(events, ids);
    forall day | DayTimes(events, day) != DayTimes(kept, day) ensures exists stamp :: stamp in stamps && DayOf(stamp) == day {
      if forall stamp :: stamp in stamps ==> DayOf(stamp) != day {
        KeptElsewhere(events, ids, stamps, day);
      }
    }
    StampedDays(events, kept, stamps);
    StampedGuards(s, stamps);
  }

  lemma {:induction false} KeptElsewhere(events: seq<Event>, ids: set<nat>, stamps: set<nat>, day: nat)
    requires StampsCover(events, ids, stamps) && forall stamp :: stamp in stamps ==> DayOf(stamp) != day
    ensures DayTimes(Without(events, ids), day) == DayTimes(events, day)
  {
    hide DayOf;
    WithoutElements(events, ids);
    var kept := Without(events, ids);
    forall t: nat ensures t in DayTimes(kept, day) <==> t in DayTimes(events, day) {
      if t in DayTimes(events, day) {
        var e :| e in events && e.at == t;
        assert e in kept;
      }
    }
  }

  lemma {:induction false} StampsOfIds(events: seq<Event>, id: nat, paired: Option<nat>, t: nat)
    requires Distinct(events) && HasRow(events, id) && (paired.Some? ==> HasRow(events, paired.value))
    ensures var stamps := {events[RowIndex(events, id)].at}
        + if paired.Some? then {events[RowIndex(events, paired.value)].at} else {};
      t in stamps <==> exists e :: e in events && e.id in Ids(id, paired) && e.at == t
  {
    hide HasRow, RowIndex, Distinct;
    OnlyRow(events, id, Event(0, 0));
    if paired.Some? { OnlyRow(events, paired.value, Event(0, 0)); }
    if e :| e in events && e.id in Ids(id, paired) && e.at == t {
      assert IsRow(events, e, e.id);
      OnlyRow(events, id, e);
      if paired.Some? { OnlyRow(events, paired.value, e); }
    }
  }

  lemma {:induction false} RowsDeleted(f: Facts, ids: set<nat>)
    requires Distinct(f.events) && forall x :: x in ids ==> HasRow(f.events, x)
    ensures Deleted(f, f.(events := Without(f.events, ids)), ids)
  {
    hide Distinct, HasRow;
    WithoutCount(f.events, ids);
    WithoutElements(f.events, ids);
  }

  /** Which stamps a deletion passes, and what it does about them. */
  lemma {:induction false} DeletionGuards(s: State, id: nat, paired: Option<nat>)
    requires Inv(s) && HasRow(s.facts.events, id) && (paired.Some? ==> HasRow(s.facts.events, paired.value))
    ensures var f, ids := s.facts, Ids(id, paired);
      var stamps := {f.events[RowIndex(f.events, id)].at}
        + if paired.Some? then {f.events[RowIndex(f.events, paired.value)].at} else {};
      var days := ChangedEventDays(Signatures(f.events), Signatures(Without(f.events, ids)), stamps);
      && (AnyLocked(s.attendanceLocks, MonthsFor(days)) <==>
            exists e :: e in s.facts.events && e.id in ids && MonthLockedAt(s, e.at))
      && Deleted(f, f.(events := Without(f.events, ids)), ids)
  {
    hide DayOf, Distinct, Signatures, ChangedEventDays, MonthLockedAt, AnyLocked, MonthsFor, CacheExact, Exclusive, Contained,
      HasRow, RowIndex, Deleted, Without;
    var f, ids := s.facts, Ids(id, paired);
    var stamps := {f.events[RowIndex(f.events, id)].at}
      + if paired.Some? then {f.events[RowIndex(f.events, paired.value)].at} else {};
    forall t ensures t in stamps <==> exists e :: e in f.events && e.id in ids && e.at == t {
      StampsOfIds(f.events, id, paired, t);
    }
    DeletedDays(s, ids, stamps);
    RowsDeleted(f, ids);
  }

  /** A deletion commits exactly when it is allowed, and then removes the named rows and nothing else. */
  lemma {:induction false} DeleteExactly(s: State, env: Env, id: nat, paired: Option<nat>)
    requires Inv(s)
    ensures var o := DeleteEvent(s, env, id, paired);
      && (o.Commit? <==> Deletable(s, env, id, paired))
      && (o.Commit? ==> Deleted(s.facts, o.facts, Ids(id, paired)) && o.nextId == s.nextId)
  {
    hide DayOf, Signatures, ChangedEventDays, MonthLockedAt, AnyLocked, MonthsFor, Inv, HasRow, RowIndex, Active, Employed, IsRow, Deleted,
      Without;
    var f := s.facts;
    EmployedIsActive(f, env);
    assert forall x :: x in Ids(id, paired) <==> x == id || paired == Some(x);
    forall x ensures HasRow(f.events, x) <==> exists e :: IsRow(f.events, e, x) { NoRow(f.events, x); }
    if HasRow(f.events, id) && (paired.Some? ==> HasRow(f.events, paired.value)) {
      DeletionGuards(s, id, paired);
    }
  }

  // ---- creating punches ----

  /** The day's stored times before a minute. */
  ghost function Earlier(events: seq<Event>, at: nat): set<nat> {
    set u | u in DayTimes(events, DayOf(at)) && u < at
  }

  /** The stored punch that a new one ends an interval with: the latest of an odd number before it. */
  ghost predicate Closes(events: seq<Event>, at: nat, prev: nat) {
    |Earlier(events, at)| % 2 == 1 && prev in Earlier(events, at) && forall u :: u in Earlier(events, at) ==> u <= prev
  }

  lemma {:induction false} EarlierInOrder(ts: seq<nat>, at: nat, p: nat)
    requires Increasing(ts) && p < |ts| && ts[p] == at
    ensures |(set u | u in ts && u < at)| == p
    ensures forall u :: u in ts && u < at <==> exists i :: 0 <= i < p && ts[i] == u
  {
    RankSplits(ts, at);
    RankCounts(ts, at);
    assert p + 1 < |ts| ==> at < ts[p + 1];
    assert Rank(ts, at) == p + 1;
    var earlier := set u | u in ts && u < at;
    assert TimesUpTo(ts, at) == earlier + {at};
    forall u ensures u in ts && u < at <==> exists i :: 0 <= i < p && ts[i] == u {
      if u in ts && u < at {
        var i :| 0 <= i < |ts| && ts[i] == u;
        assert i < p;
      }
    }
  }

  /** The place of a new punch among its day's is the number of earlier ones. */
  lemma {:induction false} PlaceIsRank(events: seq<Event>, at: nat)
    requires Distinct(events + [Fresh(at)])
    ensures Position(events, at) == |Earlier(events, at)|
    ensures Position(events, at) % 2 == 1 ==> Closes(events, at, Previous(events, at))
  {
    hide Distinct, DayOf, DayTimes, Increasing, OfDay, Ordered, Position, Previous;
    var rows, ts, p := DayWith(events, at), Times(DayWith(events, at)), Position(events, at);
    DayWithTimes(events, at);
    assert ts[p] == at;
    EarlierInOrder(ts, at, p);
    assert Earlier(events, at) == set u | u in ts && u < at;
    if p % 2 == 1 {
      PreviousIsLast(events, at, ts, p);
    }
  }

  lemma {:induction false} PreviousIsLast(events: seq<Event>, at: nat, ts: seq<nat>, p: nat)
    requires p == Position(events, at) && p % 2 == 1 && ts == Times(DayWith(events, at)) && Increasing(ts)
    ensures Previous(events, at) in ts && Previous(events, at) < at
    ensures forall u :: u in ts && u < at ==> u <= Previous(events, at)
  {
    hide Position;
    assert ts[p - 1] == Previous(events, at) && ts[p] == at;
    forall u | u in ts && u < at ensures u <= ts[p - 1] {
      var i :| 0 <= i < |ts| && ts[i] == u;
    }
  }

  /** The breaks that come with a new punch or pair: none unless the profile has automatic breaks, those of
      a pair, and those of the interval that a single punch closes. */
  ghost function BreaksWith(f: Facts, at: nat, paired: Option<nat>): set<nat>
    requires paired.Some? ==> at <= paired.value
  {
    if !f.profile.automaticBreaks then {}
    else if paired.Some? then set t | t in AutomaticBreaks(at, paired.value)
    else if prev :| Closes(f.events, at, prev) then set t | t in AutomaticBreaks(prev, at) else {}
  }

  ghost predicate Free(events: seq<Event>, t: nat) {
    forall e :: e in events ==> e.at != t
  }

  /** A punch, or a pair within one day, may be created while the employment is active and the day in its
      period, without a status and not locked, at minutes no punch has; the breaks of a pair may not meet
      a punch either. */
  ghost predicate Creatable(s: State, env: Env, at: nat, paired: Option<nat>) {
    && Employed(s.facts, env) && InPeriod(s.facts, DayOf(at))
    && !HasStatus(s.facts, DayOf(at)) && !MonthLockedAt(s, at)
    && Free(s.facts.events, at)
    && (paired.Some? ==>
          && DayOf(paired.value) == DayOf(at) && at < paired.value && Free(s.facts.events, paired.value)
          && forall t :: t in BreaksWith(s.facts, at, paired) ==> Free(s.facts.events, t))
  }

  /** The old rows, and after them rows under the next identifiers at the punch, its pair and the breaks,
      each minute once. */
  ghost predicate Created(s: State, g: Facts, nextId: nat, at: nat, paired: Option<nat>)
    requires paired.Some? ==> at <= paired.value
  {
    && g == s.facts.(events := g.events) && s.facts.events <= g.events
    && var rows := g.events[|s.facts.events|..];
       && nextId == s.nextId + |rows| && (forall i :: 0 <= i < |rows| ==> rows[i].id == s.nextId + i)
       && (forall i, j :: 0 <= i < j < |rows| ==> rows[i].at != rows[j].at)
       && (forall t :: t in Times(rows) <==> t == at || paired == Some(t) || t in BreaksWith(s.facts, at, paired))
  }

  lemma {:induction false} ClosedBoundaries(start: nat, end: nat)
    requires start < end && DayOf(start) == DayOf(end)
    ensures var breaks := AutomaticBreaks(start, end);
      && DistinctTimes(breaks) && forall t :: t in breaks ==> start < t < end && DayOf(t) == DayOf(end)
  {
    hide DayOf, AutomaticBreaks;
    ClosedPairs(start, end);
    BreaksOnDay(start, end);
    var w, breaks := ClosedAdditions(true, start, end), AutomaticBreaks(start, end);
    assert w == [start] + breaks + [end];
    forall i | 0 <= i < |breaks| ensures w[i + 1] == breaks[i] && start < breaks[i] < end {
      assert w[0] < w[i + 1] < w[|w| - 1];
    }
  }

  lemma {:induction false} AcceptedTimes(events: seq<Event>, times: seq<nat>)
    ensures Insertable(events, times) <==> DistinctTimes(times) && forall t :: t in times ==> Free(events, t)
  {
    if DistinctTimes(times) && forall t :: t in times ==> Free(events, t) {
      forall i, k | 0 <= i < |times| && 0 <= k < |events| ensures events[k].at != times[i] {
        assert times[i] in times && events[k] in events;
      }
    }
    if Insertable(events, times) {
      forall t | t in times ensures Free(events, t) {
        var i :| 0 <= i < |times| && times[i] == t;
        forall e | e in events ensures e.at != t {
          var k :| 0 <= k < |events| && events[k] == e;
          assert events[k].at != times[i];
        }
      }
    }
  }

  lemma {:induction false} PairAdditions(f: Facts, at: nat, end: nat)
    requires at < end && DayOf(at) == DayOf(end)
    ensures var times := CreatedTimes(f, at, Some(end));
      && DistinctTimes(times)
      && forall t :: t in times <==> t == at || t == end || t in BreaksWith(f, at, Some(end))
  {
    hide DayOf, AutomaticBreaks;
    ClosedBoundaries(at, end);
    var breaks := if f.profile.automaticBreaks then AutomaticBreaks(at, end) else [];
    var times := CreatedTimes(f, at, Some(end));
    assert times == [at] + breaks + [end];
    forall i | 0 < i < |times| - 1 ensures times[i] == breaks[i - 1] && times[i] in breaks { }
    forall t ensures t in times <==> t == at || t == end || t in breaks {
      if t in breaks { assert t in [at] + breaks; }
    }
  }

  lemma {:induction false} FreshDistinct(s: State, at: nat)
    requires RowsOk(s) && Free(s.facts.events, at)
    ensures Distinct(s.facts.events + [Fresh(at)])
  {
    var events := s.facts.events;
    forall i | 0 <= i < |events| ensures events[i].at != at && events[i].id != 0 {
      assert events[i] in events;
    }
  }

  lemma {:induction false} PunchAdditions(s: State, at: nat)
    requires RowsOk(s) && Free(s.facts.events, at)
    ensures var f := s.facts;
      var times := CreatedTimes(f, at, None);
      && DistinctTimes(times) && (forall t :: t in times ==> Free(f.events, t))
      && forall t :: t in times <==> t == at || t in BreaksWith(f, at, None)
  {
    hide DayOf, AutomaticBreaks, Position, Previous, DayTimes, Distinct;
    var f := s.facts;
    FreshDistinct(s, at);
    PlaceIsRank(f.events, at);
    if f.profile.automaticBreaks && Position(f.events, at) % 2 == 1 {
      var prev := Previous(f.events, at);
      var breaks := AutomaticBreaks(prev, at);
      SameDayEarlier(f.events, at, prev);
      ClosedBoundaries(prev, at);
      forall p | Closes(f.events, at, p) ensures p == prev { }
      assert BreaksWith(f, at, None) == set t | t in breaks;
      var times := [at] + breaks;
      assert CreatedTimes(f, at, None) == times;
      forall i | 0 < i < |times| ensures times[i] == breaks[i - 1] && times[i] in breaks { }
      forall t | t in breaks ensures Free(f.events, t) {
        BetweenIsFree(f.events, at, prev, t);
      }
    } else {
      assert CreatedTimes(f, at, None) == [at];
      assert BreaksWith(f, at, None) == {};
    }
  }

  lemma {:induction false} SameDayEarlier(events: seq<Event>, at: nat, prev: nat)
    requires Closes(events, at, prev)
    ensures prev < at && DayOf(prev) == DayOf(at)
  {
  }

  /** Between a new punch and the one it closes with nothing is stored. */
  lemma {:induction false} BetweenIsFree(events: seq<Event>, at: nat, prev: nat, t: nat)
    requires Closes(events, at, prev) && prev < t < at && DayOf(t) == DayOf(at)
    ensures Free(events, t)
  {
    hide DayOf;
    assert t !in Earlier(events, at);
    forall e | e in events ensures e.at != t {
      assert DayOf(e.at) == DayOf(at) && e.at < at ==> e.at in Earlier(events, at);
    }
  }

  lemma {:induction false} CreationAccepted(s: State, at: nat, paired: Option<nat>)
    requires RowsOk(s) && (paired.Some? ==> at < paired.value && DayOf(paired.value) == DayOf(at))
    ensures var f, times := s.facts, CreatedTimes(s.facts, at, paired);
      && (Insertable(f.events, times) <==>
            && Free(f.events, at)
            && (paired.Some? ==> Free(f.events, paired.value) && forall t :: t in BreaksWith(f, at, paired) ==> Free(f.events, t)))
      && (Insertable(f.events, times) ==>
            && DistinctTimes(times)
            && forall t :: t in times <==> t == at || paired == Some(t) || t in BreaksWith(f, at, paired))
  {
    hide DayOf, CreatedTimes, BreaksWith, DistinctTimes, Insertable, RowsOk, Free;
    var f, times := s.facts, CreatedTimes(s.facts, at, paired);
    AcceptedTimes(f.events, times);
    if paired.Some? {
      PairAdditions(f, at, paired.value);
    } else {
      PunchIsAdded(f, at);
      if Free(f.events, at) {
        PunchAdditions(s, at);
      }
    }
  }

  lemma {:induction false} PunchIsAdded(f: Facts, at: nat)
    ensures at in CreatedTimes(f, at, None)
  {
    hide Position, Previous, AutomaticBreaks, DayOf;
    assert CreatedTimes(f, at, None)[0] == at;
  }

  lemma {:induction false} CreatedGuards(s: State, at: nat, paired: Option<nat>)
    requires RowsOk(s) && (paired.Some? ==> at < paired.value && DayOf(paired.value) == DayOf(at))
    requires Insertable(s.facts.events, CreatedTimes(s.facts, at, paired))
    ensures var f := s.facts;
      var events := f.events + NewRows(s.nextId, CreatedTimes(f, at, paired));
      var stamps := {at} + if paired.Some? then {paired.value} else {};
      var days := ChangedEventDays(Signatures(f.events), Signatures(events), stamps);
      && (AnyStatus(f, days) <==> HasStatus(f, DayOf(at)))
      && (AnyLocked(s.attendanceLocks, MonthsFor(days)) <==> MonthLockedAt(s, at))
  {
    hide DayOf, Distinct, Signatures, DayTimes, ChangedEventDays, HasStatus, Insertable, AnyStatus, AnyLocked, MonthsFor,
      CreatedTimes, MonthOf, NewRows;
    var f, times := s.facts, CreatedTimes(s.facts, at, paired);
    var events := f.events + NewRows(s.nextId, times);
    var stamps := {at} + if paired.Some? then {paired.value} else {};
    CreatedOnOneDay(f, at, paired);
    InsertedRows(f.events, s.nextId, times);
    assert at in stamps && forall t :: t in stamps ==> DayOf(t) == DayOf(at);
    forall day | DayTimes(f.events, day) != DayTimes(events, day) ensures day == DayOf(at) {
      assert AddedOn(times, day) != {};
      var t :| t in AddedOn(times, day);
    }
    StampedDays(f.events, events, stamps);
    StampedGuards(s, stamps);
  }

  lemma {:induction false} RowsCreated(s: State, at: nat, paired: Option<nat>)
    requires paired.Some? ==> at <= paired.value
    requires var times := CreatedTimes(s.facts, at, paired);
      DistinctTimes(times) && forall t :: t in times <==> t == at || paired == Some(t) || t in BreaksWith(s.facts, at, paired)
    ensures var times := CreatedTimes(s.facts, at, paired);
      Created(s, s.facts.(events := s.facts.events + NewRows(s.nextId, times)), s.nextId + |times|, at, paired)
  {
    hide CreatedTimes, BreaksWith;
    var times := CreatedTimes(s.facts, at, paired);
    var rows := NewRows(s.nextId, times);
    NewRowsIds(s.nextId, times);
    assert (s.facts.events + rows)[|s.facts.events|..] == rows;
    assert Times(rows) == times;
  }

  /** A creation commits exactly when it is allowed, and then stores the punch or the pair with its breaks. */
  lemma {:induction false} CreateExactly(s: State, env: Env, at: nat, paired: Option<nat>)
    requires Inv(s)
    ensures var o := CreateEvent(s, env, at, paired);
      && (o.Commit? <==> Creatable(s, env, at, paired))
      && (o.Commit? ==> Created(s, o.facts, o.nextId, at, paired))
  {
    hide DayOf, Signatures, ChangedEventDays, HasStatus, Insertable, AnyStatus, AnyLocked, MonthsFor, RowsOk, CacheExact,
      Exclusive, Contained, InPeriod, NewRows, MonthLockedAt, BreaksWith, Created, EventAdditions, ClosedAdditions, Free,
      DistinctTimes, Active, Employed;
    EmployedIsActive(s.facts, env);
    if paired.Some? ==> at < paired.value && DayOf(paired.value) == DayOf(at) {
      CreationAccepted(s, at, paired);
      if Insertable(s.facts.events, CreatedTimes(s.facts, at, paired)) {
        CreatedGuards(s, at, paired);
        RowsCreated(s, at, paired);
      }
    }
  }

  // ---- adding missing breaks ----

  /** Breaks may be added, once confirmed, to an active employment whose requested month is not locked,
      when no proposed break falls into a locked month and no session's proposal names a minute twice. */
  ghost predicate BreaksAddable(s: State, env: Env, m: nat, confirmed: bool) {
    && confirmed && Employed(s.facts, env) && m !in s.attendanceLocks
    && (forall t :: t in Flat(ProposedGroups(s.facts, m)) ==> !MonthLockedAt(s, t))
    && EachDistinct(SheetOf(s.facts), MonthFirst(m), MonthFirst(m + 1))
  }

  /** The old rows, and after them every proposed boundary in order. */
  ghost predicate BreaksStored(s: State, g: Facts, nextId: nat, m: nat) {
    && g == s.facts.(events := g.events) && s.facts.events <= g.events
    && var rows := g.events[|s.facts.events|..];
       && nextId == s.nextId + |rows| && (forall i :: 0 <= i < |rows| ==> rows[i].id == s.nextId + i)
       && Times(rows) == Flat(ProposedGroups(s.facts, m))
  }

  lemma {:induction false} BreakGuards(s: State, m: nat)
    requires Inv(s) && Insertable(s.facts.events, BreakInsertions(s.facts, m))
    ensures var f, times := s.facts, BreakInsertions(s.facts, m);
      var days := ChangedEventDays(Signatures(f.events), Signatures(f.events + NewRows(s.nextId, times)), {});
      && !AnyStatus(f, days)
      && (AnyLocked(s.attendanceLocks, MonthsFor(days)) ==> exists t :: t in times && MonthLockedAt(s, t))
  {
    hide DayOf, Distinct, Signatures, DayTimes, ChangedEventDays, HasStatus, Insertable, BreakInsertions, MonthOf, NewRows,
      CacheExact, Exclusive, Contained;
    var f, times := s.facts, BreakInsertions(s.facts, m);
    var events := f.events + NewRows(s.nextId, times);
    var days := ChangedEventDays(Signatures(f.events), Signatures(events), {});
    InsertedRows(f.events, s.nextId, times);
    forall day | day in days ensures !HasStatus(f, day) && exists t :: t in times && DayOf(t) == day {
      BreakDay(s, m, events, day);
    }
    if AnyLocked(s.attendanceLocks, MonthsFor(days)) {
      var month :| month in MonthsFor(days) && month in s.attendanceLocks;
      var day :| day in days && MonthOf(day) == month;
      var t :| t in times && DayOf(t) == day;
      assert MonthLockedAt(s, t);
    }
  }

  lemma {:induction false} BreakDay(s: State, m: nat, events: seq<Event>, day: nat)
    requires Inv(s) && Insertable(s.facts.events, BreakInsertions(s.facts, m))
    requires events == s.facts.events + NewRows(s.nextId, BreakInsertions(s.facts, m))
    requires day in ChangedEventDays(Signatures(s.facts.events), Signatures(events), {})
    ensures !HasStatus(s.facts, day) && exists t :: t in BreakInsertions(s.facts, m) && DayOf(t) == day
  {
    hide DayOf, Distinct, Signatures, DayTimes, ChangedEventDays, HasStatus, Insertable, BreakInsertions, NewRows, CacheExact,
      Contained, DaysOf, OfDay, InsideRecorded;
    var f, times := s.facts, BreakInsertions(s.facts, m);
    InsertedRows(f.events, s.nextId, times);
    forall t | Differs(f.events, events, t) ensures Covered(f.events, events, {}, t) {
      assert t in AddedOn(times, DayOf(t));
      InsertionsInside(f, m, t);
    }
    FootprintExact(f.events, events, {}, day);
    assert AddedOn(times, day) != {};
    var t :| t in AddedOn(times, day);
    InsertionsInside(f, m, t);
    BreakDayPunched(f, t);
  }

  lemma {:induction false} BreakDayPunched(f: Facts, t: nat)
    requires Exclusive(f) && InsideRecorded(f.events, t)
    ensures !HasStatus(f, DayOf(t))
  {
    hide DayOf, Signatures, HasStatus, DaysOf, DayTimes;
    var x :| x in Signatures(f.events) && x.start < t < x.end;
    SignatureEnds(f.events, x);
    DayMonotone(x.start, t); DayMonotone(t, x.end);
    NoTimesNoRows(f.events, DayOf(t));
  }

  lemma {:induction false} LockedInsertions(s: State, times: seq<nat>)
    ensures AnyLocked(s.attendanceLocks, set t | t in times :: MonthOf(DayOf(t))) <==> exists t :: t in times && MonthLockedAt(s, t)
  {
    hide DayOf, MonthOf;
    if t :| t in times && MonthLockedAt(s, t) {
      assert MonthOf(DayOf(t)) in set t | t in times :: MonthOf(DayOf(t));
    }
  }

  lemma {:induction false} BreakRows(s: State, m: nat)
    requires BreakInsertions(s.facts, m) == Flat(ProposedGroups(s.facts, m))
    ensures var times := BreakInsertions(s.facts, m);
      BreaksStored(s, s.facts.(events := s.facts.events + NewRows(s.nextId, times)), s.nextId + |times|, m)
  {
    hide BreakInsertions, ProposedGroups;
    var times := BreakInsertions(s.facts, m);
    var rows := NewRows(s.nextId, times);
    NewRowsIds(s.nextId, times);
    assert (s.facts.events + rows)[|s.facts.events|..] == rows;
    assert Times(rows) == times;
  }

  /** The action commits exactly when breaks may be added, and then stores what was proposed. */
  lemma {:induction false} BreaksExactly(s: State, env: Env, m: nat, confirmed: bool)
    requires Inv(s)
    ensures var o := AddBreaks(s, env, m, confirmed);
      && (o.Commit? <==> BreaksAddable(s, env, m, confirmed))
      && (o.Commit? ==> BreaksStored(s, o.facts, o.nextId, m))
  {
    hide DayOf, Signatures, ChangedEventDays, Insertable, AnyStatus, AnyLocked, MonthsFor, CacheExact, Distinct, MonthOf,
      Exclusive, Contained, InPeriod, NewRows, MonthLockedAt, BreaksStored, EachDistinct, Inserted, MissingBreakGroups, PairEvents,
      MonthStart, SheetOf, Flat, Active, Employed;
    var f, times := s.facts, BreakInsertions(s.facts, m);
    EmployedIsActive(f, env);
    AcceptedIffDistinct(f, m);
    LockedInsertions(s, times);
    BreakRows(s, m);
    if Insertable(f.events, times) {
      BreakGuards(s, m);
    }
  }
}
