/** Attendance sheets as the break action sees them: the recorded intervals of an employment and the
    sessions they form (app/services/time_intervals.py). */
module Sheets {
  import opened Options
  import opened Calendar
  import opened Intervals
  import opened Breaks
  import opened Backfill
  import opened Metrics
  import opened Minutes

  /** Intervals in time order, apart from each other, each inside one day. */
  ghost predicate Chain(s: seq<WorkInterval>) {
    && (forall i :: 0 <= i < |s| ==> s[i].start < s[i].end && DayOf(s[i].start) == DayOf(s[i].end))
    && (forall i, j :: 0 <= i < j < |s| ==> s[i].end < s[j].start)
  }

  predicate Inside(x: WorkInterval, t: nat) {
    x.start < t < x.end
  }

  ghost predicate InsideSome(s: seq<WorkInterval>, t: nat) {
    exists i :: 0 <= i < |s| && Inside(s[i], t)
  }

  /** The recorded intervals of stored punches are such a chain. */
  lemma {:induction false} SheetChain(events: seq<Event>)
    requires Distinct(events)
    ensures Chain(PairEvents(events))
  {
    hide DayOf, PairRows, Ordered, Distinct;
    OrderedSorted(events); OrderedDistinct(events);
    var rows := Ordered(events);
    PairsDisjoint(rows);
    forall k, l | 0 <= k < l < |PairRows(rows)| ensures PairRows(rows)[k].1.at < PairRows(rows)[l].0.at {
      PairsApart(rows, k, l);
    }
  }

  lemma {:induction false} SheetDisjoint(events: seq<Event>)
    requires Distinct(events)
    ensures Disjoint(PairEvents(events))
  {
    hide DayOf, PairEvents, Distinct;
    SheetChain(events);
  }

  lemma {:induction false} ChainSorted(s: seq<WorkInterval>)
    requires Chain(s)
    ensures SortedIntervals(s) == s
  {
    hide DayOf;
    if s != [] {
      ChainSorted(s[1..]);
    }
  }

  lemma {:induction false} ChainSplit(a: seq<WorkInterval>, b: seq<WorkInterval>)
    requires Chain(a + b)
    ensures Chain(a) && Chain(b)
    ensures forall i, j :: 0 <= i < |a| && 0 <= j < |b| ==> a[i].end < b[j].start
  {
    hide DayOf;
    var s := a + b;
    assert forall i :: 0 <= i < |a| ==> a[i] == s[i];
    assert forall j :: 0 <= j < |b| ==> b[j] == s[|a| + j];
  }

  lemma {:induction false} ChainJoin(a: seq<WorkInterval>, b: seq<WorkInterval>)
    requires Chain(a) && Chain(b) && (a != [] && b != [] ==> Last(a).end < b[0].start)
    ensures Chain(a + b)
  {
    hide DayOf;
    forall i, j | 0 <= i < |a| && 0 <= j < |b| ensures a[i].end < b[j].start {
      assert i < |a| - 1 ==> a[i].end < Last(a).start;
      assert 0 < j ==> b[0].end < b[j].start;
    }
  }

  // ---- sessions ----

  lemma {:induction false} JoinedCons(r: seq<seq<WorkInterval>>)
    requires r != []
    ensures Joined(r) == r[0] + Joined(r[1..])
  {
    if |r| == 1 {
      assert r[..0] == [] && r[1..] == [];
    } else {
      var n := |r| - 1;
      JoinedCons(r[..n]);
      assert r[..n][1..] == r[1..][..n - 1];
      Assoc(r[0], Joined(r[1..][..n - 1]), Last(r));
    }
  }

  lemma {:induction false} JoinedConcat(a: seq<seq<WorkInterval>>, b: seq<seq<WorkInterval>>)
    ensures Joined(a + b) == Joined(a) + Joined(b)
    decreases |b|
  {
    if b == [] {
      assert a + b == a;
    } else {
      var n := |b| - 1;
      assert (a + b)[..|a + b| - 1] == a + b[..n] && Last(a + b) == Last(b);
      JoinedConcat(a, b[..n]);
      Assoc(Joined(a), Joined(b[..n]), Last(b));
    }
  }

  lemma {:induction false} JoinedSingle(session: seq<WorkInterval>)
    ensures Joined([session]) == session
  {
    assert [session][..0] == [];
  }

  lemma {:induction false} SplitPrefix(r: seq<seq<WorkInterval>>, n: nat)
    requires SplitAtPauses(r) && n <= |r|
    ensures SplitAtPauses(r[..n])
  {
  }

  lemma {:induction false} SplitTail(r: seq<seq<WorkInterval>>)
    requires SplitAtPauses(r) && r != []
    ensures SplitAtPauses(r[1..]) && r[0] != []
  {
    assert forall k :: 0 <= k < |r[1..]| ==> r[1..][k] == r[k + 1];
  }

  lemma {:induction false} SplitJoin(a: seq<seq<WorkInterval>>, b: seq<seq<WorkInterval>>)
    requires SplitAtPauses(a) && SplitAtPauses(b)
    requires a != [] && b != [] ==> b[0] != [] && Last(a) != [] && b[0][0].start - Last(Last(a)).end >= 30
    ensures SplitAtPauses(a + b)
  {
    var r: seq<seq<WorkInterval>> := a + b;
    forall k | 0 <= k < |r|
      ensures r[k] != [] && forall i :: 0 < i < |r[k]| ==> r[k][i].start - r[k][i - 1].end < 30
    {
      assert r[k] == if k < |a| then a[k] else b[k - |a|];
    }
    forall k | 0 < k < |r| ensures r[k][0].start - Last(r[k - 1]).end >= 30 {
      if k < |a| {
        assert r[k] == a[k] && r[k - 1] == a[k - 1];
      } else if k == |a| {
        assert r[k] == b[0] && r[k - 1] == Last(a);
      } else {
        assert r[k] == b[k - |a|] && r[k - 1] == b[k - |a| - 1];
      }
    }
  }

  lemma {:induction false} SessionsStep(s: seq<WorkInterval>, x: WorkInterval)
    ensures var before := Sessions(s);
      Sessions(s + [x]) == if before == [] || x.start - Last(Last(before)).end >= 30 then before + [[x]]
                           else before[..|before| - 1] + [Last(before) + [x]]
  {
    assert (s + [x])[..|s|] == s && Last(s + [x]) == x;
  }

  lemma {:induction false} JoinedOne(r: seq<seq<WorkInterval>>)
    requires r != [] && |Last(r)| == 1
    ensures var n, x := |r| - 1, Last(r)[0];
      Joined(r) == Joined(r[..n]) + [x] && r == r[..n] + [[x]] && Last(Last(r)) == x
  {
    assert Last(r) == [Last(r)[0]];
  }

  lemma {:induction false} JoinedShorter(r: seq<seq<WorkInterval>>)
    requires r != [] && |Last(r)| > 1
    ensures var last := Last(r);
      Joined(r) == Joined(r[..|r| - 1] + [last[..|last| - 1]]) + [Last(last)]
  {
    var n, last := |r| - 1, Last(r);
    var shorter := r[..n] + [last[..|last| - 1]];
    assert shorter[..n] == r[..n] && Last(shorter) == last[..|last| - 1];
    assert last == last[..|last| - 1] + [Last(last)];
    Assoc(Joined(r[..n]), last[..|last| - 1], [Last(last)]);
  }

  /** There is only one way to cut a list of intervals at its long pauses. */
  lemma {:induction false} SessionsUnique(r: seq<seq<WorkInterval>>)
    requires SplitAtPauses(r)
    ensures Sessions(Joined(r)) == r
    decreases |Joined(r)|
  {
    hide SplitAtPauses, Sessions, Joined;
    if r == [] {
      NoneJoined();
    } else {
      var n, last := |r| - 1, Last(r);
      SplitLast(r);
      var x := Last(last);
      if |last| == 1 {
        SplitPrefix(r, n);
        JoinedOne(r);
        SessionsUnique(r[..n]);
        SessionsStep(Joined(r[..n]), x);
      } else {
        var shorter := r[..n] + [last[..|last| - 1]];
        JoinedShorter(r);
        ShorterSplits(r);
        SessionsUnique(shorter);
        SessionsStep(Joined(shorter), x);
        Lengthened(r);
      }
    }
  }

  lemma {:induction false} NoneJoined()
    ensures Sessions(Joined([])) == []
  {
  }

  lemma {:induction false} Lengthened(r: seq<seq<WorkInterval>>)
    requires r != [] && |Last(r)| > 1
    ensures var n, last := |r| - 1, Last(r);
      var shorter := r[..n] + [last[..|last| - 1]];
      && Last(shorter) == last[..|last| - 1] && Last(Last(shorter)) == last[|last| - 2]
      && shorter[..|shorter| - 1] + [Last(shorter) + [Last(last)]] == r
  {
    var n, last := |r| - 1, Last(r);
    assert last == last[..|last| - 1] + [Last(last)];
  }

  lemma {:induction false} SplitLast(r: seq<seq<WorkInterval>>)
    requires SplitAtPauses(r) && r != []
    ensures Last(r) != []
    ensures |Last(r)| == 1 && |r| > 1 ==> r[|r| - 2] != [] && Last(r)[0].start - Last(r[|r| - 2]).end >= 30
    ensures |Last(r)| > 1 ==> Last(Last(r)).start - Last(r)[|Last(r)| - 2].end < 30
  {
  }

  lemma {:induction false} ShorterSplits(r: seq<seq<WorkInterval>>)
    requires SplitAtPauses(r) && r != [] && |Last(r)| > 1
    ensures SplitAtPauses(r[..|r| - 1] + [Last(r)[..|Last(r)| - 1]])
  {
    var n := |r| - 1;
    var shorter := r[..n] + [Last(r)[..|Last(r)| - 1]];
    assert forall k :: 0 <= k < n ==> shorter[k] == r[k];
    assert forall i :: 0 <= i < |shorter[n]| ==> shorter[n][i] == r[n][i];
  }

  /** What the break action works on: the sessions of a sheet. */
  lemma {:induction false} SheetSessions(events: seq<Event>, lo: nat, hi: nat)
    requires Distinct(events)
    ensures var r := Sessions(PairEvents(events));
      && MissingBreakGroups(PairEvents(events), lo, hi) == AdditionsOf(r, lo, hi)
      && Joined(r) == PairEvents(events) && SplitAtPauses(r) && Chain(Joined(r))
  {
    hide Chain, SplitAtPauses, PairEvents, Distinct;
    SheetChain(events);
    ChainSorted(PairEvents(events));
    SessionsSplitAtPauses(PairEvents(events));
  }

  /** Work and pause together make up a session. */
  lemma {:induction false} PauseIsRest(session: seq<WorkInterval>)
    requires Chain(session) && session != []
    ensures RecordedPause(session) + TotalMinutes(session) == Gross(session)
  {
    hide DayOf;
    if |session| > 1 {
      var rest := session[1..];
      PauseIsRest(rest);
      assert Last(rest) == Last(session);
    } else {
      assert session[1..] == [];
    }
  }

  lemma {:induction false} JoinedEnds(r: seq<seq<WorkInterval>>)
    requires SplitAtPauses(r) && r != []
    ensures r[0] != [] && Last(r) != [] && Joined(r) != []
    ensures Joined(r)[0] == r[0][0] && Last(Joined(r)) == Last(Last(r))
  {
    hide SplitAtPauses;
    SplitTail(r); SplitLast(r);
    JoinedCons(r);
  }

  lemma {:induction false} AdditionsConcat(a: seq<seq<WorkInterval>>, b: seq<seq<WorkInterval>>, lo: nat, hi: nat)
    requires forall k :: 0 <= k < |a| ==> a[k] != []
    requires forall k :: 0 <= k < |b| ==> b[k] != []
    ensures forall k :: 0 <= k < |a + b| ==> (a + b)[k] != []
    ensures AdditionsOf(a + b, lo, hi) == AdditionsOf(a, lo, hi) + AdditionsOf(b, lo, hi)
  {
    hide SessionAdditions;
    if a == [] {
      assert a + b == b;
    } else {
      assert (a + b)[1..] == a[1..] + b;
      AdditionsConcat(a[1..], b, lo, hi);
      Assoc(SessionAdditions(a[0], lo, hi), AdditionsOf(a[1..], lo, hi), AdditionsOf(b, lo, hi));
    }
  }

  // ---- what a session is proposed ----

  /** The breaks proposed for a session, or none. */
  function Proposal(session: seq<WorkInterval>, lo: nat, hi: nat): seq<nat>
    requires session != []
  {
    var groups := SessionAdditions(session, lo, hi);
    if groups == [] then [] else groups[0]
  }

  lemma {:induction false} ProposalShape(session: seq<WorkInterval>, lo: nat, hi: nat)
    requires session != []
    ensures var g := Proposal(session, lo, hi);
      && SessionAdditions(session, lo, hi) == (if g == [] then [] else [g])
      && BreaksInside(g, session)
      && (g != [] ==> BreakMinutes(g) == MissingMinutes(session))
  {
    AllOrNothing(session, lo, hi);
    var groups := SessionAdditions(session, lo, hi);
    hide BreaksInside, BreakMinutes, MissingMinutes, SessionAdditions;
    if groups != [] {
      assert groups[0] in groups;
      assert groups == [groups[0]];
    } else {
      NoBreaksInside(session);
    }
  }

  lemma {:induction false} NoBreaksInside(session: seq<WorkInterval>)
    ensures BreaksInside([], session)
  {
  }
}
