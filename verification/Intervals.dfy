/** Pairing of stored punch times and cutting of intervals (app/services/time_intervals.py). */
module Intervals {
  import opened Calendar

  datatype Event = Event(id: nat, at: nat)

  datatype WorkInterval = WorkInterval(start: nat, end: nat) {
    function Minutes(): int { end - start }
  }

  // ---- ordered_events ----

  predicate Before(e: Event, f: Event) {
    e.at < f.at || (e.at == f.at && e.id <= f.id)
  }

  predicate Sorted(s: seq<Event>) {
    forall i, j :: 0 <= i < j < |s| ==> Before(s[i], s[j])
  }

  function Insert(e: Event, s: seq<Event>): (r: seq<Event>)
    ensures multiset(r) == multiset(s) + multiset{e}
  {
    if s == [] || Before(e, s[0]) then [e] + s
    else
      assert s == [s[0]] + s[1..];
      [s[0]] + Insert(e, s[1..])
  }

  /** Events by time, ties by id. */
  function Ordered(events: seq<Event>): (r: seq<Event>)
    ensures multiset(r) == multiset(events)
  {
    if events == [] then []
    else
      assert events == [events[0]] + events[1..];
      Insert(events[0], Ordered(events[1..]))
  }

  lemma {:induction false} InsertSorted(e: Event, s: seq<Event>)
    requires Sorted(s)
    ensures Sorted(Insert(e, s))
  {
    if s != [] && !Before(e, s[0]) {
      InsertSorted(e, s[1..]);
      var r := Insert(e, s[1..]);
      forall i | 0 <= i < |r| ensures Before(s[0], r[i]) {
        assert r[i] in multiset(r);
        assert r[i] == e || r[i] in s[1..];
      }
    }
  }

  lemma {:induction false} OrderedSorted(events: seq<Event>)
    ensures Sorted(Ordered(events))
  {
    if events != [] {
      OrderedSorted(events[1..]);
      InsertSorted(events[0], Ordered(events[1..]));
    }
  }

  function Times(s: seq<Event>): (ts: seq<nat>)
    ensures |ts| == |s| && forall i :: 0 <= i < |s| ==> ts[i] == s[i].at
  {
    seq(|s|, i requires 0 <= i < |s| => s[i].at)
  }

  /** The stored times of one employment are distinct (`uq_attendance_event_employment_timestamp`),
      and so are the row ids. */
  ghost predicate Distinct(events: seq<Event>) {
    forall i, j :: 0 <= i < j < |events| ==> events[i].at != events[j].at && events[i].id != events[j].id
  }

  predicate Increasing(ts: seq<nat>) {
    forall i, j :: 0 <= i < j < |ts| ==> ts[i] < ts[j]
  }

  predicate StrictRows(s: seq<Event>) {
    forall i, j :: 0 <= i < j < |s| ==> s[i].at < s[j].at
  }

  // ---- pair_event_rows ----

  function PairRows(s: seq<Event>): seq<(Event, Event)> {
    if |s| < 2 then []
    else if DayOf(s[0].at) != DayOf(s[1].at) then PairRows(s[1..])
    else (if 0 < s[1].at - s[0].at < MINUTES_PER_DAY then [(s[0], s[1])] else []) + PairRows(s[2..])
  }

  function PairTimes(ts: seq<nat>): seq<WorkInterval> {
    if |ts| < 2 then []
    else if DayOf(ts[0]) != DayOf(ts[1]) then PairTimes(ts[1..])
    else (if 0 < ts[1] - ts[0] < MINUTES_PER_DAY then [WorkInterval(ts[0], ts[1])] else []) + PairTimes(ts[2..])
  }

  function IntervalsOf(pairs: seq<(Event, Event)>): (r: seq<WorkInterval>)
    ensures |r| == |pairs|
  {
    seq(|pairs|, i requires 0 <= i < |pairs| => WorkInterval(pairs[i].0.at, pairs[i].1.at))
  }

  function PairEvents(events: seq<Event>): seq<WorkInterval> {
    IntervalsOf(PairRows(Ordered(events)))
  }

  function PairedIds(events: seq<Event>): set<nat> {
    var pairs := PairRows(Ordered(events));
    (set k | 0 <= k < |pairs| :: pairs[k].0.id) + (set k | 0 <= k < |pairs| :: pairs[k].1.id)
  }

  // ---- one day at a time ----

  function OfDay(s: seq<Event>, day: nat): (r: seq<Event>)
  {
    if s == [] then []
    else if DayOf(s[0].at) == day then [s[0]] + OfDay(s[1..], day)
    else OfDay(s[1..], day)
  }

  function PairsOfDay(pairs: seq<(Event, Event)>, day: nat): seq<(Event, Event)> {
    if pairs == [] then []
    else (if DayOf(pairs[0].0.at) == day then [pairs[0]] else []) + PairsOfDay(pairs[1..], day)
  }

  lemma {:induction false} OfDayElements(s: seq<Event>, day: nat)
    ensures forall e :: e in OfDay(s, day) <==> e in s && DayOf(e.at) == day
  {
    if s != [] {
      OfDayElements(s[1..], day);
    }
  }

  lemma {:induction false} OfDayConcat(s: seq<Event>, t: seq<Event>, day: nat)
    ensures OfDay(s + t, day) == OfDay(s, day) + OfDay(t, day)
  {
    if s == [] {
      assert s + t == t;
    } else {
      assert (s + t)[1..] == s[1..] + t;
      OfDayConcat(s[1..], t, day);
    }
  }

  lemma {:induction false} OfDayEmpty(s: seq<Event>, day: nat)
    requires forall e :: e in s ==> DayOf(e.at) != day
    ensures OfDay(s, day) == []
  {
    if s != [] {
      OfDayEmpty(s[1..], day);
    }
  }

  lemma {:induction false} InsertOfDay(e: Event, s: seq<Event>, day: nat)
    requires Sorted(s)
    ensures OfDay(Insert(e, s), day) == if DayOf(e.at) == day then Insert(e, OfDay(s, day)) else OfDay(s, day)
  {
    if s == [] || Before(e, s[0]) {
      assert ([e] + s)[1..] == s;
      var t := OfDay(s, day);
      if t != [] {
        OfDayElements(s, day);
        assert t[0] in t;
        assert Before(e, t[0]);
      }
    } else {
      InsertOfDay(e, s[1..], day);
      var r := [s[0]] + Insert(e, s[1..]);
      assert r[1..] == Insert(e, s[1..]);
    }
  }

  /** Sorting and selecting a day commute. */
  lemma {:induction false} OrderedOfDay(events: seq<Event>, day: nat)
    ensures OfDay(Ordered(events), day) == Ordered(OfDay(events, day))
  {
    if events != [] {
      OrderedOfDay(events[1..], day);
      OrderedSorted(events[1..]);
      InsertOfDay(events[0], Ordered(events[1..]), day);
      if DayOf(events[0].at) == day {
        var t := OfDay(events[1..], day);
        assert ([events[0]] + t)[1..] == t;
      }
    }
  }

  /** Pairing starts afresh where the day changes. */
  lemma {:induction false} PairRowsSplit(t: seq<Event>, rest: seq<Event>, day: nat)
    requires forall e :: e in t ==> DayOf(e.at) == day
    requires forall e :: e in rest ==> DayOf(e.at) != day
    ensures PairRows(t + rest) == PairRows(t) + PairRows(rest)
    decreases |t|
  {
    if |t| == 0 {
      assert t + rest == rest;
    } else if |t| == 1 {
      assert (t + rest)[1..] == rest;
    } else {
      assert (t + rest)[2..] == t[2..] + rest;
      PairRowsSplit(t[2..], rest, day);
    }
  }

  /** The events of the first day of a sorted list are a prefix of it. */
  lemma {:induction false} FirstDayPrefix(s: seq<Event>, day: nat)
    requires Sorted(s) && s != [] && DayOf(s[0].at) == day
    ensures exists n :: 0 <= n <= |s| && IsDayPrefix(s, day, n)
  {
    if |s| == 1 || DayOf(s[1].at) != day {
      forall e | e in s[1..] ensures DayOf(e.at) != day {
        var i :| 1 <= i < |s| && s[i] == e;
        assert Before(s[0], s[1]);
        DayMonotone(s[0].at, s[1].at); DayMonotone(s[1].at, e.at);
      }
      OfDayEmpty(s[1..], day);
      assert IsDayPrefix(s, day, 1);
    } else {
      FirstDayPrefix(s[1..], day);
      var n :| 0 <= n <= |s[1..]| && IsDayPrefix(s[1..], day, n);
      assert s[1..][..n] == s[1..n + 1] && s[1..][n..] == s[n + 1..];
      assert s[..n + 1] == [s[0]] + s[1..n + 1];
      assert IsDayPrefix(s, day, n + 1);
    }
  }

  ghost predicate IsDayPrefix(s: seq<Event>, day: nat, n: nat)
    requires n <= |s|
  {
    OfDay(s, day) == s[..n] && forall e :: e in s[n..] ==> DayOf(e.at) != day
  }

  lemma {:induction false} DayMonotone(a: nat, b: nat)
    requires a <= b
    ensures DayOf(a) <= DayOf(b)
  {
  }

  /** The first event stands alone: it does not affect the pairing of its day. */
  lemma {:induction false} LoneFirst(s: seq<Event>, day: nat)
    requires Sorted(s) && |s| >= 2 && DayOf(s[0].at) != DayOf(s[1].at)
    ensures PairRows(OfDay(s, day)) == PairRows(OfDay(s[1..], day))
  {
    hide DayOf;
    if DayOf(s[0].at) == day {
      forall e | e in s[1..] ensures DayOf(e.at) != day {
        var i :| 1 <= i < |s| && s[i] == e;
        DayMonotone(s[1].at, e.at); DayMonotone(s[0].at, s[1].at);
      }
      OfDayEmpty(s[1..], day);
      assert OfDay(s, day) == [s[0]];
    }
  }

  lemma {:induction false} FirstTwo(s: seq<Event>, day: nat)
    requires |s| >= 2 && DayOf(s[0].at) == DayOf(s[1].at)
    ensures OfDay(s, day) == (if DayOf(s[0].at) == day then [s[0], s[1]] else []) + OfDay(s[2..], day)
  {
    hide DayOf;
    assert s[1..][1..] == s[2..];
  }

  /** Pairing every event and keeping one day is pairing that day's events alone. */
  lemma {:induction false} PairRowsOfDay(s: seq<Event>, day: nat)
    requires Sorted(s)
    ensures PairsOfDay(PairRows(s), day) == PairRows(OfDay(s, day))
    decreases |s|
  {
    hide DayOf, OfDay;
    if |s| < 2 {
      FewRows(s, day);
    } else if DayOf(s[0].at) != DayOf(s[1].at) {
      PairRowsOfDay(s[1..], day);
      LoneFirst(s, day);
    } else {
      PairRowsOfDay(s[2..], day);
      FirstTwo(s, day);
      var t := OfDay(s[2..], day);
      assert ([s[0], s[1]] + t)[2..] == t;
      assert [] + t == t;
      var head := if 0 < s[1].at - s[0].at < MINUTES_PER_DAY then [(s[0], s[1])] else [];
      assert (head + PairRows(s[2..]))[|head|..] == PairRows(s[2..]);
    }
  }

  lemma {:induction false} FewRows(s: seq<Event>, day: nat)
    requires |s| < 2
    ensures PairRows(OfDay(s, day)) == []
  {
    if s != [] {
      assert s[1..] == [];
    }
  }

  // ---- what the pairs look like ----

  lemma {:induction false} SortedDistinct(s: seq<Event>)
    requires Sorted(s) && Distinct(s)
    ensures StrictRows(s)
  {
    forall i, j | 0 <= i < j < |s| ensures s[i].at < s[j].at {
      assert Before(s[i], s[j]);
    }
  }

  lemma {:induction false} StrictSorted(s: seq<Event>)
    requires StrictRows(s)
    ensures Sorted(s) && Increasing(Times(s))
  {
  }

  lemma {:induction false} OfDayStrict(s: seq<Event>, day: nat)
    requires StrictRows(s)
    ensures StrictRows(OfDay(s, day))
  {
    hide DayOf;
    if s != [] {
      OfDayStrict(s[1..], day);
      var t := OfDay(s[1..], day);
      forall i | 0 <= i < |t| ensures s[0].at < t[i].at {
        OfDayElements(s[1..], day);
        assert t[i] in t;
        var j :| 0 <= j < |s[1..]| && s[1..][j] == t[i];
        assert s[j + 1] == t[i];
      }
    }
  }

  lemma {:induction false} DayTimesIncreasing(events: seq<Event>, day: nat)
    requires Distinct(events)
    ensures var rows := OfDay(Ordered(events), day);
      StrictRows(rows) && Sorted(rows) && Increasing(Times(rows))
  {
    OrderedDistinct(events);
    OrderedSorted(events);
    SortedDistinct(Ordered(events));
    OfDayStrict(Ordered(events), day);
    StrictSorted(OfDay(Ordered(events), day));
  }

  lemma {:induction false} InsertElements(e: Event, s: seq<Event>)
    ensures forall x :: x in Insert(e, s) <==> x == e || x in s
  {
    forall x ensures x in Insert(e, s) <==> x == e || x in s {
      assert x in Insert(e, s) <==> x in multiset(Insert(e, s));
      assert x in s <==> x in multiset(s);
    }
  }

  lemma {:induction false} OrderedElements(events: seq<Event>)
    ensures forall x :: x in Ordered(events) <==> x in events
  {
    forall x ensures x in Ordered(events) <==> x in events {
      assert x in Ordered(events) <==> x in multiset(Ordered(events));
      assert x in events <==> x in multiset(events);
    }
  }

  lemma {:induction false} InsertDistinct(e: Event, s: seq<Event>)
    requires Distinct(s) && forall x :: x in s ==> x.at != e.at && x.id != e.id
    ensures Distinct(Insert(e, s))
  {
    if s != [] && !Before(e, s[0]) {
      InsertDistinct(e, s[1..]);
      InsertElements(e, s[1..]);
      var r := Insert(e, s[1..]);
      forall i | 0 <= i < |r| ensures r[i].at != s[0].at && r[i].id != s[0].id {
        assert r[i] in r;
      }
    }
  }

  lemma {:induction false} OrderedDistinct(events: seq<Event>)
    requires Distinct(events)
    ensures Distinct(Ordered(events))
  {
    if events != [] {
      OrderedDistinct(events[1..]);
      OrderedElements(events[1..]);
      InsertDistinct(events[0], Ordered(events[1..]));
    }
  }

  /** On one day with distinct times, the k-th pair is the (2k)-th and (2k+1)-th time; only an
      odd last time stays unpaired. */
  lemma {:induction false} PairRowsByIndex(s: seq<Event>, day: nat)
    requires StrictRows(s) && forall e :: e in s ==> DayOf(e.at) == day
    ensures |PairRows(s)| == |s| / 2
    ensures forall k :: 0 <= k < |s| / 2 ==> PairRows(s)[k] == (s[2 * k], s[2 * k + 1])
    decreases |s|
  {
    hide DayOf;
    if |s| >= 2 {
      assert s[0].at < s[1].at;
      assert s[0] in s && s[1] in s;
      DayLength(s[0].at, s[1].at);
      PairRowsByIndex(s[2..], day);
      var rest := PairRows(s[2..]);
      assert PairRows(s) == [(s[0], s[1])] + rest;
      forall k | 0 < k < |s| / 2 ensures PairRows(s)[k] == (s[2 * k], s[2 * k + 1]) {
        assert PairRows(s)[k] == rest[k - 1];
      }
    }
  }

  ghost predicate PairsIn(p: seq<(Event, Event)>, s: seq<Event>) {
    && (forall k :: 0 <= k < |p| ==>
          && p[k].0 in s && p[k].1 in s
          && p[k].0.at < p[k].1.at && DayOf(p[k].0.at) == DayOf(p[k].1.at))
    && (forall k, l :: 0 <= k < l < |p| ==> p[k].1.at <= p[l].0.at)
  }

  /** For every list of rows: each pair runs forward inside one day, both its ends are stored rows,
      and the pairs follow each other without overlap. */
  lemma {:induction false} PairsDisjoint(s: seq<Event>)
    requires Sorted(s)
    ensures PairsIn(PairRows(s), s)
    decreases |s|
  {
    hide DayOf;
    if |s| >= 2 {
      if DayOf(s[0].at) != DayOf(s[1].at) {
        PairsDisjoint(s[1..]);
      } else {
        PairsDisjoint(s[2..]);
        forall e | e in s[2..] ensures s[1].at <= e.at {
          var i :| 2 <= i < |s| && s[i] == e;
          assert Before(s[1], s[i]);
        }
      }
    }
  }

  /** With distinct times the pairs do not even touch, so no row belongs to two of them. */
  lemma {:induction false} PairsApart(s: seq<Event>, k: nat, l: nat)
    requires Sorted(s) && Distinct(s) && k < l < |PairRows(s)|
    ensures PairRows(s)[k].1.at < PairRows(s)[l].0.at
    decreases |s|
  {
    hide DayOf;
    if DayOf(s[0].at) != DayOf(s[1].at) {
      PairsApart(s[1..], k, l);
    } else {
      DayLength(s[0].at, s[1].at);
      assert Before(s[0], s[1]);
      var rest := PairRows(s[2..]);
      assert PairRows(s) == [(s[0], s[1])] + rest;
      if k > 0 {
        PairsApart(s[2..], k - 1, l - 1);
      } else {
        PairsDisjoint(s[2..]);
        var i :| 2 <= i < |s| && s[i] == rest[l - 1].0;
        assert Before(s[1], s[i]);
      }
    }
  }

  lemma {:induction false} DayLength(a: nat, b: nat)
    requires DayOf(a) == DayOf(b)
    ensures b - a < MINUTES_PER_DAY
  {
  }

  // ---- a day's pairing depends only on that day's set of times ----

  function DayTimes(events: seq<Event>, day: nat): (ts: set<nat>)
    ensures forall t :: t in ts <==> DayOf(t) == day && exists e :: e in events && e.at == t
  {
    set e | e in events && DayOf(e.at) == day :: e.at
  }

  lemma {:induction false} SameElementsSameOrder(a: seq<nat>, b: seq<nat>)
    requires Increasing(a) && Increasing(b)
    requires forall t :: t in a <==> t in b
    ensures a == b
  {
    assert a != [] ==> a[0] in b;
    assert b != [] ==> b[0] in a;
    if a != [] && b != [] {
      assert a[0] == b[0];
      forall t ensures t in a[1..] <==> t in b[1..] {
        assert t in a[1..] ==> t in a && t != a[0];
        assert t in b[1..] ==> t in b && t != b[0];
        assert t in a && t != a[0] ==> t in a[1..];
        assert t in b && t != b[0] ==> t in b[1..];
      }
      SameElementsSameOrder(a[1..], b[1..]);
    }
  }

  lemma {:induction false} DayRowsTimes(events: seq<Event>, day: nat)
    ensures forall t :: t in Times(OfDay(Ordered(events), day)) <==> t in DayTimes(events, day)
  {
    OrderedElements(events);
    OfDayElements(Ordered(events), day);
    var rows := OfDay(Ordered(events), day);
    forall t ensures t in Times(rows) <==> t in DayTimes(events, day) {
      if t in Times(rows) {
        var i :| 0 <= i < |rows| && Times(rows)[i] == t;
        assert rows[i] in rows;
      }
      if t in DayTimes(events, day) {
        var e :| e in events && e.at == t;
        assert e in rows;
        var i :| 0 <= i < |rows| && rows[i] == e;
        assert Times(rows)[i] == t;
      }
    }
  }

  lemma {:induction false} SameTimesSameRows(a: seq<Event>, b: seq<Event>, day: nat)
    requires Distinct(a) && Distinct(b) && DayTimes(a, day) == DayTimes(b, day)
    ensures Times(OfDay(Ordered(a), day)) == Times(OfDay(Ordered(b), day))
  {
    DayTimesIncreasing(a, day);
    DayTimesIncreasing(b, day);
    DayRowsTimes(a, day);
    DayRowsTimes(b, day);
    SameElementsSameOrder(Times(OfDay(Ordered(a), day)), Times(OfDay(Ordered(b), day)));
  }

  /** The intervals of one day, and how they are found from that day's rows. */
  function DayIntervals(events: seq<Event>, day: nat): seq<WorkInterval> {
    IntervalsOf(PairsOfDay(PairRows(Ordered(events)), day))
  }

  lemma {:induction false} DayIntervalsByIndex(events: seq<Event>, day: nat)
    requires Distinct(events)
    ensures var ts := Times(OfDay(Ordered(events), day));
      && Increasing(ts)
      && |DayIntervals(events, day)| == |ts| / 2
      && forall k :: 0 <= k < |ts| / 2 ==> DayIntervals(events, day)[k] == WorkInterval(ts[2 * k], ts[2 * k + 1])
  {
    var rows := OfDay(Ordered(events), day);
    OrderedSorted(events);
    DayTimesIncreasing(events, day);
    PairRowsOfDay(Ordered(events), day);
    OfDayElements(Ordered(events), day);
    PairRowsByIndex(rows, day);
  }

  /** Two lists of rows with the same times on a day have the same intervals on it. */
  lemma {:induction false} DayIntervalsLocal(a: seq<Event>, b: seq<Event>, day: nat)
    requires Distinct(a) && Distinct(b) && DayTimes(a, day) == DayTimes(b, day)
    ensures DayIntervals(a, day) == DayIntervals(b, day)
  {
    DayIntervalsByIndex(a, day);
    DayIntervalsByIndex(b, day);
    SameTimesSameRows(a, b, day);
  }

  datatype WorkedState = Empty | Incomplete | Complete

  /** The completeness flag of `build_month_summaries`: complete when every row of the day belongs
      to a closed interval. */
  function DayState(events: seq<Event>, day: nat): WorkedState {
    var dayEvents := OfDay(events, day);
    if dayEvents == [] then Empty
    else if forall e | e in dayEvents :: e.id in PairedIds(events) then Complete
    else Incomplete
  }

  lemma {:induction false} PairsOfDayElements(pairs: seq<(Event, Event)>, day: nat)
    ensures forall p :: p in PairsOfDay(pairs, day) <==> p in pairs && DayOf(p.0.at) == day
  {
    if pairs != [] {
      PairsOfDayElements(pairs[1..], day);
    }
  }

  lemma {:induction false} PairIdsArePaired(events: seq<Event>, p: (Event, Event))
    requires p in PairRows(Ordered(events))
    ensures p.0.id in PairedIds(events) && p.1.id in PairedIds(events)
  {
    var pairs := PairRows(Ordered(events));
    var k :| 0 <= k < |pairs| && pairs[k] == p;
  }

  lemma {:induction false} EarlierRowsArePaired(events: seq<Event>, day: nat, i: nat)
    requires Distinct(events) && i < 2 * (|OfDay(Ordered(events), day)| / 2)
    ensures OfDay(Ordered(events), day)[i].id in PairedIds(events)
  {
    hide PairedIds, DayOf;
    var rows, pairs := OfDay(Ordered(events), day), PairRows(Ordered(events));
    OrderedSorted(events);
    DayTimesIncreasing(events, day);
    PairRowsOfDay(Ordered(events), day);
    OfDayElements(Ordered(events), day);
    PairRowsByIndex(rows, day);
    PairsOfDayElements(pairs, day);
    var p := PairRows(rows)[i / 2];
    assert p in PairsOfDay(pairs, day);
    PairIdsArePaired(events, p);
    assert i == 2 * (i / 2) || i == 2 * (i / 2) + 1;
  }

  /** The pair that a paired id comes from holds the row itself. */
  lemma {:induction false} PairOfId(events: seq<Event>, e: Event) returns (p: (Event, Event))
    requires Distinct(events) && e in Ordered(events) && e.id in PairedIds(events)
    ensures p in PairRows(Ordered(events)) && (p.0 == e || p.1 == e)
    ensures DayOf(p.0.at) == DayOf(e.at)
  {
    var all, pairs := Ordered(events), PairRows(Ordered(events));
    OrderedSorted(events); OrderedDistinct(events);
    PairsDisjoint(all);
    var k :| 0 <= k < |pairs| && (pairs[k].0.id == e.id || pairs[k].1.id == e.id);
    p := pairs[k];
    SameIdSameRow(all, e, if p.0.id == e.id then p.0 else p.1);
  }

  lemma {:induction false} PairedRowIsEarlier(events: seq<Event>, day: nat, i: nat)
    requires Distinct(events) && i < |OfDay(Ordered(events), day)|
    requires OfDay(Ordered(events), day)[i].id in PairedIds(events)
    ensures i < 2 * (|OfDay(Ordered(events), day)| / 2)
  {
    var rows := OfDay(Ordered(events), day);
    OfDayElements(Ordered(events), day);
    assert rows[i] in rows;
    var p := PairOfId(events, rows[i]);
    OrderedSorted(events);
    DayTimesIncreasing(events, day);
    PairsOfDayElements(PairRows(Ordered(events)), day);
    PairRowsOfDay(Ordered(events), day);
    PairOfRow(rows, p, day, i);
  }

  lemma {:induction false} PairOfRow(rows: seq<Event>, p: (Event, Event), day: nat, i: nat)
    requires StrictRows(rows) && forall e :: e in rows ==> DayOf(e.at) == day
    requires i < |rows| && p in PairRows(rows) && (p.0 == rows[i] || p.1 == rows[i])
    ensures i < 2 * (|rows| / 2)
  {
    PairRowsByIndex(rows, day);
    var l :| 0 <= l < |PairRows(rows)| && PairRows(rows)[l] == p;
    var j := if p.0 == rows[i] then 2 * l else 2 * l + 1;
    assert rows[j].at == rows[i].at;
  }

  /** A row is in a closed interval exactly when it is not its day's odd last one. */
  lemma {:induction false} PairedByPosition(events: seq<Event>, day: nat, i: nat)
    requires Distinct(events) && i < |OfDay(Ordered(events), day)|
    ensures var rows := OfDay(Ordered(events), day);
      rows[i].id in PairedIds(events) <==> i < 2 * (|rows| / 2)
  {
    if i < 2 * (|OfDay(Ordered(events), day)| / 2) {
      EarlierRowsArePaired(events, day, i);
    }
    if OfDay(Ordered(events), day)[i].id in PairedIds(events) {
      PairedRowIsEarlier(events, day, i);
    }
  }

  lemma {:induction false} SameIdSameRow(s: seq<Event>, e: Event, f: Event)
    requires Distinct(s) && e in s && f in s && e.id == f.id
    ensures e == f
  {
  }

  /** A day is complete exactly when it holds a positive even number of times. */
  lemma {:induction false} DayStateByParity(events: seq<Event>, day: nat)
    requires Distinct(events)
    ensures var n := |OfDay(Ordered(events), day)|;
      DayState(events, day) == if n == 0 then Empty else if n % 2 == 0 then Complete else Incomplete
  {
    hide DayOf;
    var rows := OfDay(Ordered(events), day);
    OrderedElements(events);
    OfDayElements(events, day);
    OfDayElements(Ordered(events), day);
    assert rows != [] ==> rows[0] in rows && rows[|rows| - 1] in rows;
    assert OfDay(events, day) != [] ==> OfDay(events, day)[0] in OfDay(events, day);
    assert OfDay(events, day) != [] ==> OfDay(events, day)[0] in rows;
    if rows != [] {
      assert rows[0] in OfDay(events, day);
      if |rows| % 2 == 0 {
        forall e | e in OfDay(events, day) ensures e.id in PairedIds(events) {
          var i :| 0 <= i < |rows| && rows[i] == e;
          PairedByPosition(events, day, i);
        }
      } else {
        PairedByPosition(events, day, |rows| - 1);
        assert rows[|rows| - 1] in OfDay(events, day);
      }
    }
  }

  lemma {:induction false} DayStateLocal(a: seq<Event>, b: seq<Event>, day: nat)
    requires Distinct(a) && Distinct(b) && DayTimes(a, day) == DayTimes(b, day)
    ensures DayState(a, day) == DayState(b, day)
  {
    DayStateByParity(a, day);
    DayStateByParity(b, day);
    SameTimesSameRows(a, b, day);
  }

  // ---- pairing seen on the times alone ----

  lemma {:induction false} PairRowsAreTimes(s: seq<Event>)
    ensures IntervalsOf(PairRows(s)) == PairTimes(Times(s))
    decreases |s|
  {
    hide DayOf;
    if |s| >= 2 {
      if DayOf(s[0].at) != DayOf(s[1].at) {
        assert Times(s)[1..] == Times(s[1..]);
        PairRowsAreTimes(s[1..]);
      } else {
        assert Times(s)[2..] == Times(s[2..]);
        PairRowsAreTimes(s[2..]);
      }
    }
  }

  /** An even block of increasing times inside one day pairs on its own. */
  lemma {:induction false} PairTimesBlock(block: seq<nat>, rest: seq<nat>, day: nat)
    requires |block| % 2 == 0 && forall i :: 0 <= i < |block| ==> DayOf(block[i]) == day
    ensures PairTimes(block + rest) == PairTimes(block) + PairTimes(rest)
    decreases |block|
  {
    hide DayOf;
    if block == [] {
      assert block + rest == rest;
    } else {
      assert |block| >= 2;
      assert (block + rest)[2..] == block[2..] + rest;
      PairTimesBlock(block[2..], rest, day);
    }
  }

  // ---- the loop that groups by day and pairs ----

  /** The pairs of the listed days, one day after another. */
  function PairsByDay(s: seq<Event>, days: seq<nat>): seq<(Event, Event)> {
    if days == [] then [] else PairRows(OfDay(s, days[0])) + PairsByDay(s, days[1..])
  }

  lemma {:induction false} PairsByDaySkip(t: seq<Event>, rest: seq<Event>, days: seq<nat>)
    requires forall k :: 0 <= k < |days| ==> OfDay(t, days[k]) == []
    ensures PairsByDay(t + rest, days) == PairsByDay(rest, days)
  {
    if days != [] {
      OfDayConcat(t, rest, days[0]);
      assert OfDay(t + rest, days[0]) == OfDay(rest, days[0]);
      PairsByDaySkip(t, rest, days[1..]);
    }
  }

  lemma {:induction false} NothingBefore(s: seq<Event>, day: nat)
    requires Sorted(s) && (s == [] || day < DayOf(s[0].at))
    ensures OfDay(s, day) == []
  {
    forall e | e in s ensures DayOf(e.at) != day {
      var i :| 0 <= i < |s| && s[i] == e;
      assert i == 0 || Before(s[0], s[i]);
      DayMonotone(s[0].at, e.at);
    }
    OfDayEmpty(s, day);
  }

  /** Grouping by day and pairing inside each group is pairing along the sorted list. */
  lemma {:induction false} GroupedPairing(s: seq<Event>, days: seq<nat>)
    requires Sorted(s) && Increasing(days)
    requires forall d :: d in days <==> OfDay(s, d) != []
    ensures PairsByDay(s, days) == PairRows(s)
    decreases |days|
  {
    hide DayOf, PairRows, OfDay;
    if days == [] {
      if s != [] {
        FirstHasDay(s);
      }
      ShortRowsHaveNoPair(s);
    } else {
      assert days[0] in days;
      var d := days[0];
      FirstDay(s, days);
      FirstDayPrefix(s, d);
      var n :| 0 <= n <= |s| && IsDayPrefix(s, d, n);
      var t, rest := s[..n], s[n..];
      assert s == t + rest;
      DaysOfRest(s, t, rest, days);
      GroupedPairing(rest, days[1..]);
      PairsByDaySkip(t, rest, days[1..]);
      OfDayElements(s, d);
      PairRowsSplit(t, rest, d);
    }
  }

  lemma {:induction false} FirstHasDay(s: seq<Event>)
    requires s != []
    ensures OfDay(s, DayOf(s[0].at)) != []
  {
    hide DayOf;
  }

  lemma {:induction false} FirstDay(s: seq<Event>, days: seq<nat>)
    requires Sorted(s) && Increasing(days) && days != []
    requires forall d :: d in days <==> OfDay(s, d) != []
    ensures s != [] && DayOf(s[0].at) == days[0]
  {
    hide DayOf;
    assert days[0] in days;
    assert OfDay(s, days[0]) != [];
    if days[0] < DayOf(s[0].at) {
      NothingBefore(s, days[0]);
    }
    assert OfDay(s, DayOf(s[0].at)) != [];
    assert DayOf(s[0].at) in days;
  }

  lemma {:induction false} DaysOfRest(s: seq<Event>, t: seq<Event>, rest: seq<Event>, days: seq<nat>)
    requires Increasing(days) && days != [] && s == t + rest && t == OfDay(s, days[0])
    requires forall e :: e in rest ==> DayOf(e.at) != days[0]
    requires forall d :: d in days <==> OfDay(s, d) != []
    ensures forall d :: d in days[1..] <==> OfDay(rest, d) != []
    ensures forall k :: 0 <= k < |days[1..]| ==> OfDay(t, days[1..][k]) == []
  {
    hide DayOf;
    OfDayEmpty(rest, days[0]);
    forall d ensures d in days[1..] <==> OfDay(rest, d) != []
      ensures d != days[0] ==> OfDay(t, d) == []
    {
      OfDayConcat(t, rest, d);
      assert d in days[1..] <==> d in days && d != days[0];
      if d != days[0] {
        OfDayElements(s, days[0]);
        OfDayEmpty(t, d);
      }
    }
  }

  lemma {:induction false} Assoc<T>(a: seq<T>, b: seq<T>, c: seq<T>)
    ensures a + (b + c) == (a + b) + c
  {
  }

  lemma {:induction false} NextGroup(s: seq<Event>, days: seq<nat>, byDay: map<nat, seq<Event>>, k: nat)
    requires DaysSeen(s, days, byDay) && k < |days|
    ensures days[k] in byDay && byDay[days[k]] == OfDay(s, days[k])
    ensures forall i :: 0 <= i < |OfDay(s, days[k])| ==> DayOf(OfDay(s, days[k])[i].at) == days[k]
    ensures PairsByDay(s, days[k..]) == PairRows(OfDay(s, days[k])) + PairsByDay(s, days[k + 1..])
  {
    hide DayOf, PairRows;
    assert days[k] in days;
    OfDayElements(s, days[k]);
    assert forall i :: 0 <= i < |OfDay(s, days[k])| ==> OfDay(s, days[k])[i] in OfDay(s, days[k]);
    assert days[k..][1..] == days[k + 1..];
  }

  /** `pair_event_rows`: group the sorted rows by day in a dictionary, then pair inside each group. */
  method PairEventRows(events: seq<Event>) returns (pairs: seq<(Event, Event)>)
    ensures pairs == PairRows(Ordered(events))
  {
    var ordered := Ordered(events);
    OrderedSorted(events);
    var days, byDay := GroupByDay(ordered);
    GroupedPairing(ordered, days);
    hide *;
    pairs := [];
    assert days[0..] == days;
    for k := 0 to |days|
      invariant pairs + PairsByDay(ordered, days[k..]) == PairRows(ordered)
    {
      NextGroup(ordered, days, byDay, k);
      var group := PairGroup(byDay[days[k]], days[k]);
      Assoc(pairs, group, PairsByDay(ordered, days[k + 1..]));
      pairs := pairs + group;
    }
    assert days[|days|..] == [];
    PairsOfNoDay(ordered);
  }

  lemma {:induction false} PairsOfNoDay(s: seq<Event>)
    ensures PairsByDay(s, []) == []
  {
  }

  method GroupByDay(ordered: seq<Event>) returns (days: seq<nat>, byDay: map<nat, seq<Event>>)
    requires Sorted(ordered)
    ensures DaysSeen(ordered, days, byDay)
  {
    hide DayOf;
    days, byDay := [], map[];
    for i := 0 to |ordered|
      invariant DaysSeen(ordered[..i], days, byDay)
    {
      hide DaysSeen, Sorted;
      var day := DayOf(ordered[i].at);
      ghost var knownDays, known := days, byDay;
      if day in byDay {
        byDay := byDay[day := byDay[day] + [ordered[i]]];
      } else {
        days := days + [day];
        byDay := byDay[day := [ordered[i]]];
      }
      NextDaySeen(ordered, i, knownDays, known, days, byDay);
    }
    assert ordered[..|ordered|] == ordered;
  }

  lemma {:induction false} PairRowsStep(s: seq<Event>, index: nat)
    requires index + 1 < |s| && DayOf(s[index].at) == DayOf(s[index + 1].at)
    ensures var start, end := s[index], s[index + 1];
      PairRows(s[index..])
        == (if 0 < end.at - start.at < MINUTES_PER_DAY then [(start, end)] else []) + PairRows(s[index + 2..])
  {
    assert s[index..][2..] == s[index + 2..];
  }

  method PairGroup(dayEvents: seq<Event>, ghost day: nat) returns (pairs: seq<(Event, Event)>)
    requires forall i :: 0 <= i < |dayEvents| ==> DayOf(dayEvents[i].at) == day
    ensures pairs == PairRows(dayEvents)
  {
    hide DayOf, PairRows;
    pairs := [];
    var closedCount := |dayEvents| - |dayEvents| % 2;
    var index := 0;
    ghost var k, half := 0, |dayEvents| / 2;
    assert closedCount == 2 * half;
    assert dayEvents[0..] == dayEvents;
    while index < closedCount
      invariant index == 2 * k && k <= half
      invariant pairs + PairRows(dayEvents[index..]) == PairRows(dayEvents)
    {
      var start, end := dayEvents[index], dayEvents[index + 1];
      PairRowsStep(dayEvents, index);
      if 0 < end.at - start.at < MINUTES_PER_DAY {
        pairs := pairs + [(start, end)];
      }
      index := index + 2;
      k := k + 1;
    }
    ShortRowsHaveNoPair(dayEvents[index..]);
  }

  lemma {:induction false} ShortRowsHaveNoPair(s: seq<Event>)
    requires |s| < 2
    ensures PairRows(s) == []
  {
  }

  /** What the grouping loop knows: the dictionary's keys in insertion order, and its groups. */
  ghost predicate DaysSeen(seen: seq<Event>, days: seq<nat>, byDay: map<nat, seq<Event>>) {
    && Increasing(days)
    && (forall d :: d in days <==> d in byDay)
    && (forall d :: d in byDay <==> OfDay(seen, d) != [])
    && (forall d :: d in byDay ==> byDay[d] == OfDay(seen, d))
  }

  lemma {:induction false} OfDayOne(e: Event, d: nat)
    ensures OfDay([e], d) == if DayOf(e.at) == d then [e] else []
  {
    hide DayOf;
    assert [e][1..] == [];
  }

  lemma {:induction false} NextDaySeen(s: seq<Event>, i: nat, days: seq<nat>, byDay: map<nat, seq<Event>>,
                                       days': seq<nat>, byDay': map<nat, seq<Event>>)
    requires Sorted(s) && i < |s| && DaysSeen(s[..i], days, byDay)
    requires var day := DayOf(s[i].at);
      && days' == (if day in byDay then days else days + [day])
      && byDay' == byDay[day := if day in byDay then byDay[day] + [s[i]] else [s[i]]]
    ensures DaysSeen(s[..i + 1], days', byDay')
  {
    hide DayOf, OfDay;
    var day := DayOf(s[i].at);
    assert s[..i + 1] == s[..i] + [s[i]];
    forall d ensures OfDay(s[..i + 1], d) == OfDay(s[..i], d) + if d == day then [s[i]] else [] {
      OfDayConcat(s[..i], [s[i]], d);
      OfDayOne(s[i], d);
    }
    if day !in byDay {
      forall k | 0 <= k < |days| ensures days[k] < day {
        assert days[k] in days;
        DaysBefore(s, i, days[k]);
      }
      assert Increasing(days');
    }
  }

  lemma {:induction false} DaysBefore(s: seq<Event>, i: nat, d: nat)
    requires Sorted(s) && i < |s| && OfDay(s[..i], d) != []
    ensures d <= DayOf(s[i].at)
  {
    OfDayElements(s[..i], d);
    var e := OfDay(s[..i], d)[0];
    assert e in OfDay(s[..i], d);
    var j :| 0 <= j < i && s[j] == e;
    assert Before(s[j], s[i]);
    DayMonotone(e.at, s[i].at);
  }
}
