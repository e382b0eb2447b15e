/** Which days a change of punches can affect, and that `changed_event_days` finds all of them. */
module Footprint {
  import opened Calendar
  import opened Intervals
  import opened Breaks
  import opened Metrics
  import opened Punches
  import opened Summary
  import opened Ledger

  // ---- times of edited row lists ----

  lemma {:induction false} NewRowsIds(nextId: nat, times: seq<nat>)
    ensures |NewRows(nextId, times)| == |times|
    ensures forall i :: 0 <= i < |times| ==> NewRows(nextId, times)[i] == Event(nextId + i, times[i])
    decreases |times|
  {
    if times != [] {
      NewRowsIds(nextId + 1, times[1..]);
    }
  }

  lemma {:induction false} InsertedRows(events: seq<Event>, nextId: nat, times: seq<nat>)
    requires Distinct(events) && Insertable(events, times)
    requires forall i :: 0 <= i < |events| ==> events[i].id < nextId
    ensures Distinct(events + NewRows(nextId, times))
    ensures forall day :: DayTimes(events + NewRows(nextId, times), day) == DayTimes(events, day) + AddedOn(times, day)
  {
    hide DayOf;
    NewRowsIds(nextId, times);
    var rows := NewRows(nextId, times);
    var all := events + rows;
    forall day ensures DayTimes(all, day) == DayTimes(events, day) + AddedOn(times, day) {
      forall t ensures t in DayTimes(all, day) <==> t in DayTimes(events, day) + AddedOn(times, day) {
        if t in DayTimes(all, day) {
          var e :| e in all && e.at == t;
          if e !in events {
            var i :| 0 <= i < |rows| && rows[i] == e;
            assert times[i] == t;
          }
        }
        if t in DayTimes(events, day) {
          var e :| e in events && e.at == t;
          assert e in all;
        }
        if t in AddedOn(times, day) {
          var i :| 0 <= i < |times| && times[i] == t;
          assert all[|events| + i] == rows[i];
        }
      }
    }
  }

  // ---- detection ----

  lemma {:induction false} SignatureEnds(events: seq<Event>, x: WorkInterval)
    requires x in Signatures(events)
    ensures x.start < x.end && DayOf(x.start) == DayOf(x.end)
    ensures x.start in DayTimes(events, DayOf(x.start)) && x.end in DayTimes(events, DayOf(x.start))
    ensures DaysOf(x) == {DayOf(x.start)}
  {
    hide DayOf;
    OrderedSorted(events); OrderedElements(events);
    PairsDisjoint(Ordered(events));
    var pairs := PairEvents(events);
    var k :| 0 <= k < |pairs| && pairs[k] == x;
    var p := PairRows(Ordered(events))[k];
    assert p.0 in events && p.1 in events;
    SameDaySplit(x);
    var parts := SplitByDay(x);
    assert parts[0].day == DayOf(x.start);
  }

  lemma {:induction false} DayIntervalIsSignature(events: seq<Event>, day: nat, x: WorkInterval)
    requires x in DayIntervals(events, day)
    ensures x in Signatures(events)
  {
    var pairs := PairRows(Ordered(events));
    PairsOfDayElements(pairs, day);
    var k :| 0 <= k < |DayIntervals(events, day)| && DayIntervals(events, day)[k] == x;
    var p := PairsOfDay(pairs, day)[k];
    assert p in pairs;
    var l :| 0 <= l < |pairs| && pairs[l] == p;
    assert PairEvents(events)[l] == x;
  }

  lemma {:induction false} IntervalOfDay(events: seq<Event>, i: nat)
    requires i < |PairEvents(events)|
    ensures PairEvents(events)[i] in DayIntervals(events, DayOf(PairEvents(events)[i].start))
  {
    hide DayOf, Ordered, PairRows;
    var pairs := PairRows(Ordered(events));
    var day := DayOf(pairs[i].0.at);
    PairsOfDayElements(pairs, day);
    assert pairs[i] in pairs && pairs[i] in PairsOfDay(pairs, day);
    var k :| 0 <= k < |PairsOfDay(pairs, day)| && PairsOfDay(pairs, day)[k] == pairs[i];
    assert DayIntervals(events, day)[k] == PairEvents(events)[i];
  }

  /** Every time of a day but its last is an end of one of the day's intervals. */
  lemma {:induction false} EarlierTimeIsPaired(events: seq<Event>, t: nat, later: nat) returns (x: WorkInterval)
    requires Distinct(events) && t < later && DayOf(t) == DayOf(later)
    requires t in DayTimes(events, DayOf(t)) && later in DayTimes(events, DayOf(t))
    ensures x in Signatures(events) && (x.start == t || x.end == t) && DayOf(x.start) == DayOf(t)
  {
    hide DayOf, DayIntervals, OfDay, Ordered, Distinct, Signatures, DaysOf;
    var day := DayOf(t);
    var ts := Times(OfDay(Ordered(events), day));
    DayIntervalsByIndex(events, day);
    DayRowsTimes(events, day);
    assert t in ts && later in ts;
    var i :| 0 <= i < |ts| && ts[i] == t;
    var j :| 0 <= j < |ts| && ts[j] == later;
    assert i < j;
    x := DayIntervals(events, day)[i / 2];
    assert i == 2 * (i / 2) || i == 2 * (i / 2) + 1;
    DayIntervalIsSignature(events, day, x);
    SignatureEnds(events, x);
  }

  /** Where the rows of a day gained times strictly inside recorded intervals, the interval sets
      themselves differ on that day. */
  lemma {:induction false} InsideInsertionDetected(before: seq<Event>, after: seq<Event>, t: nat, later: nat, stamps: set<nat>)
    requires Distinct(after) && t < later && DayOf(t) == DayOf(later)
    requires t in DayTimes(after, DayOf(t)) && later in DayTimes(after, DayOf(t))
    requires t !in DayTimes(before, DayOf(t))
    ensures DayOf(t) in ChangedEventDays(Signatures(before), Signatures(after), stamps)
  {
    hide DayOf, Signatures, DaysOf, DayTimes;
    var x := EarlierTimeIsPaired(after, t, later);
    SignatureEnds(after, x);
    if x in Signatures(before) {
      SignatureEnds(before, x);
    }
    assert DayOf(t) in DaysOf(x);
  }

  /** A stored time that the change added or removed. */
  ghost predicate Differs(before: seq<Event>, after: seq<Event>, t: nat) {
    (t in DayTimes(before, DayOf(t))) != (t in DayTimes(after, DayOf(t)))
  }

  ghost predicate InsideRecorded(events: seq<Event>, t: nat) {
    exists x :: x in Signatures(events) && x.start < t < x.end
  }

  /** A changed time is covered by a passed timestamp of its day, or was added strictly inside an
      interval recorded before on a day that lost no time, or was removed from strictly inside an
      interval recorded after on a day that gained none. */
  ghost predicate Covered(before: seq<Event>, after: seq<Event>, stamps: set<nat>, t: nat) {
    || (exists stamp :: stamp in stamps && DayOf(stamp) == DayOf(t))
    || (InsideRecorded(before, t) && DayTimes(before, DayOf(t)) <= DayTimes(after, DayOf(t)))
    || (InsideRecorded(after, t) && DayTimes(after, DayOf(t)) <= DayTimes(before, DayOf(t)))
  }

  lemma {:induction false} ChangedEitherWay(before: seq<Event>, after: seq<Event>, stamps: set<nat>)
    ensures ChangedEventDays(Signatures(before), Signatures(after), stamps)
         == ChangedEventDays(Signatures(after), Signatures(before), stamps)
  {
    hide Signatures;
    var a, b := Signatures(before), Signatures(after);
    assert (a - b) + (b - a) == (b - a) + (a - b);
  }

  /** A time strictly inside an interval recorded in `small` and stored in `large` only. */
  lemma {:induction false} InsideDifferenceDetected(small: seq<Event>, large: seq<Event>, stamps: set<nat>, t: nat)
    requires Distinct(large) && InsideRecorded(small, t)
    requires DayTimes(small, DayOf(t)) <= DayTimes(large, DayOf(t))
    requires t in DayTimes(large, DayOf(t)) && t !in DayTimes(small, DayOf(t))
    ensures DayOf(t) in ChangedEventDays(Signatures(small), Signatures(large), stamps)
  {
    hide DayOf, Signatures, DaysOf, ChangedEventDays;
    var x :| x in Signatures(small) && x.start < t < x.end;
    SignatureEnds(small, x);
    DayMonotone(x.start, t); DayMonotone(t, x.end);
    InsideInsertionDetected(small, large, t, x.end, stamps);
  }

  lemma {:induction false} CoveredIsChanged(before: seq<Event>, after: seq<Event>, stamps: set<nat>, t: nat)
    requires Distinct(before) && Distinct(after)
    requires Differs(before, after, t) && Covered(before, after, stamps, t)
    ensures DayOf(t) in ChangedEventDays(Signatures(before), Signatures(after), stamps)
  {
    hide DayOf, Signatures, DaysOf, InsideRecorded;
    if !(exists stamp :: stamp in stamps && DayOf(stamp) == DayOf(t)) {
      if InsideRecorded(before, t) && DayTimes(before, DayOf(t)) <= DayTimes(after, DayOf(t)) {
        InsideDifferenceDetected(before, after, stamps, t);
      } else {
        InsideDifferenceDetected(after, before, stamps, t);
        ChangedEitherWay(before, after, stamps);
      }
    }
  }

  /** `changed_event_days` misses no day whose punches, intervals or completeness changed. */
  lemma {:induction false} FootprintSound(before: seq<Event>, after: seq<Event>, stamps: set<nat>, day: nat)
    requires Distinct(before) && Distinct(after)
    requires forall t :: Differs(before, after, t) ==> Covered(before, after, stamps, t)
    requires day !in ChangedEventDays(Signatures(before), Signatures(after), stamps)
    ensures DayTimes(before, day) == DayTimes(after, day)
    ensures DayIntervals(before, day) == DayIntervals(after, day) && DayState(before, day) == DayState(after, day)
  {
    hide DayOf, ChangedEventDays, DayIntervals, DayState, Covered;
    forall t: nat ensures t in DayTimes(before, day) <==> t in DayTimes(after, day) {
      if DayOf(t) == day && Differs(before, after, t) {
        CoveredIsChanged(before, after, stamps, t);
      }
    }
    DayIntervalsLocal(before, after, day);
    DayStateLocal(before, after, day);
  }

  lemma {:induction false} SignatureOfDay(events: seq<Event>, x: WorkInterval)
    requires x in Signatures(events)
    ensures x in DayIntervals(events, DayOf(x.start))
  {
    hide DayOf, PairEvents, DayIntervals;
    var k :| 0 <= k < |PairEvents(events)| && PairEvents(events)[k] == x;
    IntervalOfDay(events, k);
  }

  /** A day that keeps its times has no interval among those that appeared or disappeared. */
  lemma {:induction false} UnchangedDay(before: seq<Event>, after: seq<Event>, day: nat, x: WorkInterval)
    requires Distinct(before) && Distinct(after) && DayTimes(before, day) == DayTimes(after, day)
    requires x in Signatures(before) && x !in Signatures(after)
    ensures day !in DaysOf(x)
  {
    hide DayOf, Signatures, DaysOf, DayTimes, DayIntervals, Distinct;
    SignatureEnds(before, x);
    if DayOf(x.start) == day {
      SignatureOfDay(before, x);
      DayIntervalsLocal(before, after, day);
      DayIntervalIsSignature(after, day, x);
    }
  }

  /** `changed_event_days` reports the days of the passed timestamps and the days whose punches changed, and
      no others. */
  lemma {:induction false} FootprintExact(before: seq<Event>, after: seq<Event>, stamps: set<nat>, day: nat)
    requires Distinct(before) && Distinct(after)
    requires forall t :: Differs(before, after, t) ==> Covered(before, after, stamps, t)
    ensures day in ChangedEventDays(Signatures(before), Signatures(after), stamps)
       <==> (exists stamp :: stamp in stamps && DayOf(stamp) == day) || DayTimes(before, day) != DayTimes(after, day)
  {
    hide DayOf, DayTimes, Distinct, Signatures, DaysOf, Covered;
    var a, b := Signatures(before), Signatures(after);
    if day !in ChangedEventDays(a, b, stamps) {
      FootprintSound(before, after, stamps, day);
    } else if DayTimes(before, day) == DayTimes(after, day) {
      if x :| x in (a - b) + (b - a) && day in DaysOf(x) {
        if x in a { UnchangedDay(before, after, day, x); } else { UnchangedDay(after, before, day, x); }
      }
    }
  }
}
