/** The whole "add breaks" action on stored rows (app/api/v1/admin_attendance.py): when the database
    accepts what the break algorithm proposes, what repeating the action does, and how much recorded work
    it takes away. */
module BreakAction {
  import opened Options
  import opened Calendar
  import opened Intervals
  import opened Breaks
  import opened Backfill
  import opened Metrics
  import opened Minutes
  import opened Summary
  import opened Sheets
  import opened Weaving
  import opened Idempotence
  import opened BreakEffect
  import opened Ledger
  import opened Footprint
  import opened Invariants

  function MonthFirst(m: nat): nat {
    MonthStart(m) * MINUTES_PER_DAY
  }

  /** The sessions of an employment's sheet. */
  function SheetOf(f: Facts): seq<seq<WorkInterval>> {
    Sessions(PairEvents(f.events))
  }

  function ProposedGroups(f: Facts, m: nat): seq<seq<nat>> {
    MissingBreakGroups(PairEvents(f.events), MonthFirst(m), MonthFirst(m + 1))
  }

  // ---- nothing is filtered out ----

  ghost predicate NoneInside(times: set<nat>, s: seq<WorkInterval>) {
    forall t :: t in times ==> !InsideSome(s, t)
  }

  lemma {:induction false} NewPairsAll(additions: seq<nat>, existing: set<nat>)
    requires |additions| % 2 == 0 && forall t :: t in additions ==> t !in existing
    ensures NewPairs(additions, existing) == additions
    decreases |additions|
  {
    if additions != [] {
      NewPairsAll(additions[2..], existing);
      assert additions == [additions[0], additions[1]] + additions[2..];
    }
  }

  lemma {:induction false} BoundariesInside(g: seq<nat>, session: seq<WorkInterval>)
    requires BreaksInside(g, session)
    ensures |g| % 2 == 0 && forall t :: t in g ==> InsideSome(session, t)
  {
    forall t | t in g ensures InsideSome(session, t) {
      BoundaryInside(g, session, t);
      var x :| x in session && x.start < t < x.end;
      var i :| 0 <= i < |session| && session[i] == x;
      assert Inside(session[i], t);
    }
  }

  lemma {:induction false} InsideOneOf(a: seq<WorkInterval>, b: seq<WorkInterval>, t: nat)
    ensures InsideSome(a + b, t) <==> InsideSome(a, t) || InsideSome(b, t)
  {
    var s := a + b;
    if i :| 0 <= i < |a| && Inside(a[i], t) { assert Inside(s[i], t); }
    if i :| 0 <= i < |b| && Inside(b[i], t) { assert Inside(s[|a| + i], t); }
    if i :| 0 <= i < |s| && Inside(s[i], t) {
      if i < |a| { assert Inside(a[i], t); } else { assert Inside(b[i - |a|], t); }
    }
  }

  /** A time inside an earlier interval comes before every time inside a later one. */
  lemma {:induction false} InsideInOrder(a: seq<WorkInterval>, b: seq<WorkInterval>, t: nat, u: nat)
    requires Chain(a + b) && InsideSome(a, t) && InsideSome(b, u)
    ensures t < u
  {
    hide DayOf;
    ChainSplit(a, b);
    var i :| 0 <= i < |a| && Inside(a[i], t);
    var j :| 0 <= j < |b| && Inside(b[j], u);
    assert a[i].end < b[j].start;
  }

  /** Every proposed break of a sheet is inserted: no boundary is stored yet, and the sessions do not get
      in each other's way. */
  lemma {:induction false} InsertedAll(r: seq<seq<WorkInterval>>, lo: nat, hi: nat, existing: set<nat>)
    requires SplitAtPauses(r) && Chain(Joined(r)) && NoneInside(existing, Joined(r))
    ensures forall k :: 0 <= k < |r| ==> r[k] != []
    ensures Inserted(AdditionsOf(r, lo, hi), existing) == Flat(AdditionsOf(r, lo, hi))
    ensures forall t :: t in Flat(AdditionsOf(r, lo, hi)) ==> InsideSome(Joined(r), t)
  {
    hide SplitAtPauses, Chain, Joined, SessionAdditions, InsideSome, Proposal, NewPairs, BreaksInside, MissingMinutes;
    if r != [] {
      var rest := Joined(r[1..]);
      SplitTail(r);
      JoinedCons(r);
      ChainSplit(r[0], rest);
      ProposalShape(r[0], lo, hi);
      var g := Proposal(r[0], lo, hi);
      BoundariesInside(g, r[0]);
      forall t ensures InsideSome(Joined(r), t) <==> InsideSome(r[0], t) || InsideSome(rest, t) {
        InsideOneOf(r[0], rest, t);
      }
      forall t | t in g ensures t !in existing && !InsideSome(rest, t) {
        if InsideSome(rest, t) {
          InsideInOrder(r[0], rest, t, t);
        }
      }
      if g == [] {
        assert SessionAdditions(r[0], lo, hi) + AdditionsOf(r[1..], lo, hi) == AdditionsOf(r[1..], lo, hi);
        InsertedAll(r[1..], lo, hi, existing);
      } else {
        NewPairsAll(g, existing);
        InsertedAll(r[1..], lo, hi, existing + set t | t in g);
        var groups := AdditionsOf(r, lo, hi);
        assert groups[0] == g && groups[1..] == AdditionsOf(r[1..], lo, hi);
      }
    } else {
      NoSessions();
    }
  }

  /** Every proposal counts as an affected interval. */
  lemma {:induction false} AffectedAll(r: seq<seq<WorkInterval>>, lo: nat, hi: nat, existing: set<nat>)
    requires SplitAtPauses(r) && Chain(Joined(r)) && NoneInside(existing, Joined(r))
    ensures Affected(AdditionsOf(r, lo, hi), existing) == |AdditionsOf(r, lo, hi)|
  {
    hide SplitAtPauses, Chain, Joined, SessionAdditions, InsideSome, Proposal, NewPairs, BreaksInside, MissingMinutes;
    if r != [] {
      var rest := Joined(r[1..]);
      SplitTail(r);
      JoinedCons(r);
      ChainSplit(r[0], rest);
      ProposalShape(r[0], lo, hi);
      var g := Proposal(r[0], lo, hi);
      BoundariesInside(g, r[0]);
      forall t ensures InsideSome(Joined(r), t) <==> InsideSome(r[0], t) || InsideSome(rest, t) {
        InsideOneOf(r[0], rest, t);
      }
      forall t | t in g ensures t !in existing && !InsideSome(rest, t) {
        if InsideSome(rest, t) {
          InsideInOrder(r[0], rest, t, t);
        }
      }
      if g == [] {
        assert SessionAdditions(r[0], lo, hi) + AdditionsOf(r[1..], lo, hi) == AdditionsOf(r[1..], lo, hi);
        AffectedAll(r[1..], lo, hi, existing);
      } else {
        NewPairsAll(g, existing);
        AffectedAll(r[1..], lo, hi, existing + set t | t in g);
        var groups := AdditionsOf(r, lo, hi);
        assert groups[0] == g && groups[1..] == AdditionsOf(r[1..], lo, hi);
      }
    } else {
      NoSessions();
    }
  }

  lemma {:induction false} StoredOutside(events: seq<Event>)
    requires Distinct(events)
    ensures NoneInside(TimeSet(events), PairEvents(events))
  {
    hide PairEvents, Distinct;
    forall t | t in TimeSet(events) ensures !InsideSome(PairEvents(events), t) {
      var e :| e in events && e.at == t;
      var i :| 0 <= i < |events| && events[i] == e;
      assert Times(events)[i] == t;
      StoredApart(events, t);
    }
  }

  // ---- when the database accepts the action ----

  lemma {:induction false} DistinctConcat(a: seq<nat>, b: seq<nat>)
    requires forall t :: t in a ==> t !in b
    ensures DistinctTimes(a + b) <==> DistinctTimes(a) && DistinctTimes(b)
  {
    var s := a + b;
    forall i | 0 <= i < |a| ensures s[i] == a[i] && a[i] in a { }
    forall i | 0 <= i < |b| ensures s[|a| + i] == b[i] && b[i] in b { }
    if DistinctTimes(s) {
      forall i, j | 0 <= i < j < |b| ensures b[i] != b[j] { assert s[|a| + i] != s[|a| + j]; }
    }
    if DistinctTimes(a) && DistinctTimes(b) {
      forall i, j | 0 <= i < j < |s| ensures s[i] != s[j] {
        if i < |a| <= j { assert s[j] == b[j - |a|]; }
        if |a| <= i { assert s[i] == b[i - |a|] && s[j] == b[j - |a|]; }
      }
    }
  }

  ghost predicate EachDistinct(r: seq<seq<WorkInterval>>, lo: nat, hi: nat) {
    forall k :: 0 <= k < |r| ==> r[k] != [] && DistinctTimes(Proposal(r[k], lo, hi))
  }

  lemma {:induction false} EachDistinctCons(r: seq<seq<WorkInterval>>, lo: nat, hi: nat)
    requires r != [] && r[0] != []
    ensures EachDistinct(r, lo, hi) <==> DistinctTimes(Proposal(r[0], lo, hi)) && EachDistinct(r[1..], lo, hi)
  {
    hide Proposal, DistinctTimes;
    if EachDistinct(r, lo, hi) {
      assert forall k :: 0 <= k < |r[1..]| ==> r[1..][k] == r[k + 1];
    }
    if DistinctTimes(Proposal(r[0], lo, hi)) && EachDistinct(r[1..], lo, hi) {
      forall k | 0 <= k < |r| ensures r[k] != [] && DistinctTimes(Proposal(r[k], lo, hi)) {
        if k > 0 { assert r[1..][k - 1] == r[k]; }
      }
    }
  }

  /** Boundaries of different sessions never coincide. */
  lemma {:induction false} FlatDistinct(r: seq<seq<WorkInterval>>, lo: nat, hi: nat)
    requires SplitAtPauses(r) && Chain(Joined(r))
    ensures forall k :: 0 <= k < |r| ==> r[k] != []
    ensures DistinctTimes(Flat(AdditionsOf(r, lo, hi))) <==> EachDistinct(r, lo, hi)
  {
    hide SplitAtPauses, Chain, Joined, SessionAdditions, InsideSome, Proposal, DistinctTimes, EachDistinct, BreaksInside;
    if r == [] {
      NoneDistinct(lo, hi);
    } else {
      var rest := Joined(r[1..]);
      SplitTail(r);
      JoinedCons(r);
      ChainSplit(r[0], rest);
      FlatDistinct(r[1..], lo, hi);
      InsertedAll(r[1..], lo, hi, {});
      ProposalShape(r[0], lo, hi);
      var g := Proposal(r[0], lo, hi);
      BoundariesInside(g, r[0]);
      FlatProposal(r[0], AdditionsOf(r[1..], lo, hi), lo, hi);
      forall t | t in g ensures t !in Flat(AdditionsOf(r[1..], lo, hi)) {
        if t in Flat(AdditionsOf(r[1..], lo, hi)) {
          InsideInOrder(r[0], rest, t, t);
        }
      }
      DistinctConcat(g, Flat(AdditionsOf(r[1..], lo, hi)));
      EachDistinctCons(r, lo, hi);
    }
  }

  lemma {:induction false} NoneDistinct(lo: nat, hi: nat)
    ensures AdditionsOf([], lo, hi) == [] && DistinctTimes(Flat([])) && EachDistinct([], lo, hi)
  {
  }

  /** The action inserts every proposed break; the database accepts them if and only if no session's
      proposal names the same minute twice. */
  lemma {:induction false} AcceptedIffDistinct(f: Facts, m: nat)
    requires Distinct(f.events)
    ensures BreakInsertions(f, m) == Flat(ProposedGroups(f, m))
    ensures Insertable(f.events, BreakInsertions(f, m)) <==> EachDistinct(SheetOf(f), MonthFirst(m), MonthFirst(m + 1))
  {
    hide PairEvents, Distinct, MonthStart, Inserted, MissingBreakGroups, Sessions, Joined, SplitAtPauses, Chain, InsideSome,
      EachDistinct;
    var lo, hi := MonthFirst(m), MonthFirst(m + 1);
    SheetSessions(f.events, lo, hi);
    StoredOutside(f.events);
    InsertedAll(SheetOf(f), lo, hi, TimeSet(f.events));
    FlatDistinct(SheetOf(f), lo, hi);
    var times := BreakInsertions(f, m);
    forall i, k | 0 <= i < |times| && 0 <= k < |f.events| ensures f.events[k].at != times[i] {
      assert times[i] in times && InsideSome(PairEvents(f.events), times[i]);
      assert f.events[k] in f.events;
      assert f.events[k].at in TimeSet(f.events);
    }
  }

  /** The action reports as affected exactly the intervals it proposes breaks for. */
  lemma {:induction false} AffectedAreProposed(f: Facts, m: nat)
    requires Distinct(f.events)
    ensures Affected(ProposedGroups(f, m), TimeSet(f.events)) == |ProposedGroups(f, m)|
  {
    hide PairEvents, Distinct, MonthStart, Affected, MissingBreakGroups, Sessions, Joined, SplitAtPauses, Chain, InsideSome;
    var lo, hi := MonthFirst(m), MonthFirst(m + 1);
    SheetSessions(f.events, lo, hi);
    StoredOutside(f.events);
    AffectedAll(SheetOf(f), lo, hi, TimeSet(f.events));
  }

  // ---- the same condition read on the sheet ----

  /** Length of the i-th break of a session, and where it goes. */
  function BreakLength(session: seq<WorkInterval>, i: nat): nat
    requires session != []
  {
    Max(0, Min(30, MissingMinutes(session) - 30 * i))
  }

  function BreakStart(session: seq<WorkInterval>, i: nat): Option<nat>
    requires session != []
  {
    Placement(session, session[0].start + 360 * (i + 1), BreakLength(session, i), None)
  }

  function BreaksFor(missing: nat): nat {
    (missing + 29) / 30
  }

  /** The session reaches into the month, misses pause, and has an interval that can hold the first break. */
  ghost predicate Served(session: seq<WorkInterval>, lo: nat, hi: nat)
    requires session != []
  {
    && Last(session).end > lo && session[0].start < hi
    && MissingMinutes(session) > 0 && Holds(session, Min(30, MissingMinutes(session)))
  }

  lemma {:induction false} FillByPlacement(session: seq<WorkInterval>, required: nat, k: nat, remaining: nat, i: nat)
    requires session != [] && k <= required && Fill(session, required, k, remaining).1 == 0
    ensures var g := Fill(session, required, k, remaining).0;
      && |g| == 2 * BreaksFor(remaining)
      && (i < BreaksFor(remaining) ==>
            var length := Min(30, remaining - 30 * i);
            var at := Placement(session, session[0].start + 360 * (k + i + 1), length, None);
            && 0 <= 30 * i < remaining && at.Some? && g[2 * i] == at.value && g[2 * i + 1] == at.value + length)
    decreases required - k
  {
    hide Placement, Fill;
    FillStep(session, required, k, remaining);
    var duration := Min(30, remaining);
    if k < required && duration > 0 {
      var at := Placement(session, session[0].start + 360 * (k + 1), duration, None);
      var rest := Fill(session, required, k + 1, remaining - duration);
      FillByPlacement(session, required, k + 1, remaining - duration, if i > 0 then i - 1 else 0);
      OneMoreBreak(remaining);
      var g := [at.value, at.value + duration] + rest.0;
      assert Fill(session, required, k, remaining).0 == g;
      if i > 0 {
        assert 2 * i - 2 == 2 * (i - 1);
        assert 2 * i < |g| ==> g[2 * i] == rest.0[2 * (i - 1)] && g[2 * i + 1] == rest.0[2 * (i - 1) + 1];
      }
    }
  }

  lemma {:induction false} OneMoreBreak(remaining: nat)
    requires remaining > 0
    ensures BreaksFor(remaining) == 1 + BreaksFor(remaining - Min(30, remaining))
  {
  }

  /** A proposal, break by break. */
  lemma {:induction false} ProposalByPlacement(session: seq<WorkInterval>, lo: nat, hi: nat)
    requires session != []
    ensures Proposal(session, lo, hi) != [] <==> Served(session, lo, hi)
    ensures var g, n := Proposal(session, lo, hi), BreaksFor(MissingMinutes(session));
      g != [] ==>
        && |g| == 2 * n
        && forall i :: 0 <= i < n ==>
             && BreakStart(session, i).Some? && BreakLength(session, i) > 0
             && g[2 * i] == BreakStart(session, i).value
             && g[2 * i + 1] == BreakStart(session, i).value + BreakLength(session, i)
  {
    hide Placement, Fill, RequiredBreaks, RecordedPause, Holds, BreaksInside;
    AllOrNothing(session, lo, hi);
    ProposalShape(session, lo, hi);
    var g, n, missing := Proposal(session, lo, hi), BreaksFor(MissingMinutes(session)), MissingMinutes(session);
    if g != [] {
      var required := RequiredBreaks(Gross(session));
      assert g == Fill(session, required, 0, missing).0;
      FillByPlacement(session, required, 0, missing, 0);
      forall i | 0 <= i < n
        ensures BreakStart(session, i).Some? && BreakLength(session, i) > 0
        ensures g[2 * i] == BreakStart(session, i).value
        ensures g[2 * i + 1] == BreakStart(session, i).value + BreakLength(session, i)
      {
        FillByPlacement(session, required, 0, missing, i);
      }
    }
  }

  /** Two breaks of a session share a boundary. */
  predicate Clash(session: seq<WorkInterval>, i: nat, j: nat)
    requires session != []
  {
    && BreakStart(session, i).Some? && BreakStart(session, j).Some?
    && var p, q := BreakStart(session, i).value, BreakStart(session, j).value;
       var a, b := p + BreakLength(session, i), q + BreakLength(session, j);
       p == q || a == b || p == b || a == q
  }

  /** No two breaks of the session share a boundary. */
  ghost predicate ClashFree(session: seq<WorkInterval>)
    requires session != []
  {
    forall i, j :: 0 <= i < j < BreaksFor(MissingMinutes(session)) ==> !Clash(session, i, j)
  }

  lemma {:induction false} DistinctPairs(g: seq<nat>)
    requires |g| % 2 == 0 && forall k :: 0 <= k < |g| / 2 ==> g[2 * k] < g[2 * k + 1]
    ensures DistinctTimes(g) <==> forall k, l :: 0 <= k < l < |g| / 2 ==>
      g[2 * k] != g[2 * l] && g[2 * k + 1] != g[2 * l + 1] && g[2 * k] != g[2 * l + 1] && g[2 * k + 1] != g[2 * l]
  {
    if forall k, l :: 0 <= k < l < |g| / 2 ==>
      g[2 * k] != g[2 * l] && g[2 * k + 1] != g[2 * l + 1] && g[2 * k] != g[2 * l + 1] && g[2 * k + 1] != g[2 * l]
    {
      forall i, j | 0 <= i < j < |g| ensures g[i] != g[j] {
        var k, l := i / 2, j / 2;
        assert i == 2 * k || i == 2 * k + 1;
        assert j == 2 * l || j == 2 * l + 1;
        assert k < l || (k == l && g[2 * k] < g[2 * k + 1]);
      }
    }
  }

  lemma {:induction false} ProposalForward(session: seq<WorkInterval>, lo: nat, hi: nat)
    requires session != []
    ensures var g := Proposal(session, lo, hi);
      |g| % 2 == 0 && forall k :: 0 <= k < |g| / 2 ==> g[2 * k] < g[2 * k + 1]
  {
    hide Proposal;
    ProposalShape(session, lo, hi);
    var g := Proposal(session, lo, hi);
    forall k | 0 <= k < |g| / 2 ensures g[2 * k] < g[2 * k + 1] {
      assert BreakInside(g[2 * k], g[2 * k + 1], session);
    }
  }

  lemma {:induction false} DistinctIffClashFree(session: seq<WorkInterval>, lo: nat, hi: nat)
    requires session != []
    ensures DistinctTimes(Proposal(session, lo, hi)) <==> (Served(session, lo, hi) ==> ClashFree(session))
  {
    hide Proposal, Served, MissingMinutes, Placement, DistinctTimes, BreakStart, BreakLength, BreaksFor;
    ProposalByPlacement(session, lo, hi);
    ProposalForward(session, lo, hi);
    var g, n := Proposal(session, lo, hi), BreaksFor(MissingMinutes(session));
    DistinctPairs(g);
    if g != [] {
      assert |g| / 2 == n;
      if ClashFree(session) {
        forall k, l | 0 <= k < l < n
          ensures g[2 * k] != g[2 * l] && g[2 * k + 1] != g[2 * l + 1] && g[2 * k] != g[2 * l + 1] && g[2 * k + 1] != g[2 * l]
        {
          assert !Clash(session, k, l);
        }
      }
      if DistinctTimes(g) {
        forall i, j | 0 <= i < j < n ensures !Clash(session, i, j) {
          assert g[2 * i] == BreakStart(session, i).value && g[2 * j] == BreakStart(session, j).value;
        }
      }
    }
  }

  /** The database accepts the action if and only if, in every session of the month that gets breaks, the
      places found for them from the targets after every 360 minutes share no boundary. */
  lemma {:induction false} AcceptedIffClashFree(f: Facts, m: nat)
    requires Distinct(f.events)
    ensures Insertable(f.events, BreakInsertions(f, m)) <==>
      forall session :: session in SheetOf(f) && session != [] && Served(session, MonthFirst(m), MonthFirst(m + 1)) ==>
        ClashFree(session)
  {
    hide PairEvents, Distinct, MonthFirst, Inserted, MissingBreakGroups, Sessions, Insertable, Served, ClashFree, DistinctTimes,
      Proposal, BreakInsertions;
    var r, lo, hi := SheetOf(f), MonthFirst(m), MonthFirst(m + 1);
    AcceptedIffDistinct(f, m);
    NonemptySessions(PairEvents(f.events));
    forall session | session in r && session != []
      ensures DistinctTimes(Proposal(session, lo, hi)) <==> (Served(session, lo, hi) ==> ClashFree(session))
    {
      DistinctIffClashFree(session, lo, hi);
    }
    if forall session :: session in r && session != [] && Served(session, lo, hi) ==> ClashFree(session) {
      forall k | 0 <= k < |r| ensures r[k] != [] && DistinctTimes(Proposal(r[k], lo, hi)) {
        assert r[k] in r;
      }
    }
    if EachDistinct(r, lo, hi) {
      forall session | session in r && session != [] && Served(session, lo, hi) ensures ClashFree(session) {
        var k :| 0 <= k < |r| && r[k] == session;
        assert DistinctTimes(Proposal(r[k], lo, hi));
      }
    }
  }

  lemma {:induction false} NonemptySessions(s: seq<WorkInterval>)
    ensures forall k :: 0 <= k < |Sessions(s)| ==> Sessions(s)[k] != []
  {
  }

  /** A sheet none of whose sessions misses more than 30 minutes is always accepted. */
  lemma {:induction false} OneBreakIsAccepted(f: Facts, m: nat)
    requires Distinct(f.events) && forall session :: session in SheetOf(f) && session != [] ==> MissingMinutes(session) <= 30
    ensures Insertable(f.events, BreakInsertions(f, m))
  {
    hide PairEvents, Distinct, MonthFirst, Sessions, Insertable, Served, MissingMinutes, BreakInsertions, BreakStart;
    AcceptedIffClashFree(f, m);
  }

  // ---- committed actions ----

  /** A committed run of the action for one month. */
  ghost predicate CommitsBreaks(s: State, env: Env, m: nat, t: State) {
    AddBreaks(s, env, m, true).Commit? && Applies(s, AddBreaks(s, env, m, true), t)
  }

  lemma {:induction false} CommittedBreaks(s: State, env: Env, m: nat, t: State)
    requires CommitsBreaks(s, env, m, t)
    ensures var times := BreakInsertions(s.facts, m);
      && Insertable(s.facts.events, times)
      && t.facts == s.facts.(events := s.facts.events + NewRows(s.nextId, times)) && t.nextId == s.nextId + |times|
  {
    hide Synced, Active, AnyLocked, AnyStatus, ChangedEventDays, Signatures, MonthsFor, Insertable, Inserted, NewRows,
      MissingBreakGroups, MonthStart, MonthOf;
  }

  lemma {:induction false} TimesAdded(events: seq<Event>, nextId: nat, times: seq<nat>)
    ensures forall t :: t in Times(events + NewRows(nextId, times)) <==> t in Times(events) || t in times
  {
    NewRowsIds(nextId, times);
    var rows := NewRows(nextId, times);
    assert Times(events + rows) == Times(events) + times;
  }

  /** What a committed run stores: every proposed boundary, no two of them at the same minute. */
  lemma {:induction false} CommitStores(s: State, env: Env, m: nat, t: State)
    requires RowsOk(s) && CommitsBreaks(s, env, m, t)
    ensures RowsOk(t) && BreakInsertions(s.facts, m) == Flat(ProposedGroups(s.facts, m))
    ensures AppliesBreaks(s.facts.events, t.facts.events, MonthFirst(m), MonthFirst(m + 1))
    ensures EachDistinct(SheetOf(s.facts), MonthFirst(m), MonthFirst(m + 1))
  {
    hide PairEvents, Distinct, MonthStart, BreakInsertions, Insertable, NewRows, CommitsBreaks, EachDistinct;
    var times := BreakInsertions(s.facts, m);
    CommittedBreaks(s, env, m, t);
    AcceptedIffDistinct(s.facts, m);
    InsertedRows(s.facts.events, s.nextId, times);
    RowIds(s, times);
    NewRowsIds(s.nextId, times);
    TimesAdded(s.facts.events, s.nextId, times);
  }

  lemma {:induction false} MonthMidnights(m: nat)
    ensures Midnights(MonthFirst(m), MonthFirst(m + 1))
  {
    hide MonthStart;
  }

  lemma {:induction false} NoneProposed(r: seq<seq<WorkInterval>>, lo: nat, hi: nat)
    requires forall k :: 0 <= k < |r| ==> r[k] != []
    ensures Flat(AdditionsOf(r, lo, hi)) == [] <==> AdditionsOf(r, lo, hi) == []
  {
    hide SessionAdditions, Proposal;
    if r != [] {
      NoneProposed(r[1..], lo, hi);
      FlatProposal(r[0], AdditionsOf(r[1..], lo, hi), lo, hi);
      ProposalShape(r[0], lo, hi);
    }
  }

  lemma {:induction false} NothingInserted(f: Facts, m: nat)
    requires Distinct(f.events)
    ensures BreakInsertions(f, m) == [] <==> ProposedGroups(f, m) == []
  {
    hide PairEvents, Distinct, MonthStart, Inserted, MissingBreakGroups, Sessions;
    AcceptedIffDistinct(f, m);
    SheetSessions(f.events, MonthFirst(m), MonthFirst(m + 1));
    NonemptySessions(PairEvents(f.events));
    NoneProposed(SheetOf(f), MonthFirst(m), MonthFirst(m + 1));
  }

  /** Committing the action again, on a sheet whose sessions are single intervals, miss less than 30
      minutes or get no break: the second run stores nothing exactly when no session is one interval of
      1111 to 1140 minutes in the month; the third run never stores anything. */
  lemma {:induction false} RepeatedAction(s: State, first: Env, t: State, second: Env, u: State, m: nat)
    requires RowsOk(s) && SimpleSheet(SheetOf(s.facts), MonthFirst(m), MonthFirst(m + 1))
    requires CommitsBreaks(s, first, m, t) && CommitsBreaks(t, second, m, u)
    ensures u.facts == t.facts <==> !SomeLong(SheetOf(s.facts), MonthFirst(m), MonthFirst(m + 1))
    ensures BreakInsertions(u.facts, m) == []
  {
    hide PairEvents, Distinct, MonthFirst, SimpleSheet, SomeLong, BreakInsertions, MissingBreakGroups, CommitsBreaks,
      AppliesBreaks, Sessions, EachDistinct, NewRows, Insertable;
    var lo, hi := MonthFirst(m), MonthFirst(m + 1);
    MonthMidnights(m);
    CommitStores(s, first, m, t);
    CommitStores(t, second, m, u);
    AddBreaksIdempotence(s.facts.events, t.facts.events, u.facts.events, lo, hi);
    NothingInserted(t.facts, m);
    NothingInserted(u.facts, m);
    CommittedBreaks(t, second, m, u);
    NewRowsIds(t.nextId, BreakInsertions(t.facts, m));
    SameOnlyIfEmpty(t.facts.events, NewRows(t.nextId, BreakInsertions(t.facts, m)));
  }

  lemma {:induction false} SameOnlyIfEmpty(events: seq<Event>, rows: seq<Event>)
    ensures events + rows == events <==> rows == []
  {
    if rows != [] {
      assert |events + rows| > |events|;
    }
  }

  // ---- how much work a committed action takes away ----

  lemma {:induction false} SessionInSheet(r: seq<seq<WorkInterval>>, k: nat, x: WorkInterval)
    requires k < |r| && x in r[k]
    ensures x in Joined(r)
  {
    JoinedCons(r);
    if k > 0 {
      SessionInSheet(r[1..], k - 1, x);
    }
  }

  lemma {:induction false} RecordedInSheet(r: seq<seq<WorkInterval>>, s: seq<WorkInterval>, lo: nat, hi: nat)
    requires (forall k :: 0 <= k < |r| ==> r[k] != []) && forall k, x :: 0 <= k < |r| && x in r[k] ==> x in s
    ensures var g := Flat(AdditionsOf(r, lo, hi));
      |g| % 2 == 0 && forall k :: 0 <= k < |g| / 2 ==> Recorded(s, g, k)
  {
    hide SessionAdditions, Proposal, Recorded, BreaksInside;
    if r != [] {
      forall k, x | 0 <= k < |r[1..]| && x in r[1..][k] ensures x in s { assert r[1..][k] == r[k + 1]; }
      RecordedInSheet(r[1..], s, lo, hi);
      ProposalShape(r[0], lo, hi);
      FlatProposal(r[0], AdditionsOf(r[1..], lo, hi), lo, hi);
      assert forall x :: x in r[0] ==> x in s;
      ProposalRecorded(Proposal(r[0], lo, hi), r[0], s);
      RecordedConcat(s, Proposal(r[0], lo, hi), Flat(AdditionsOf(r[1..], lo, hi)));
    }
  }

  lemma {:induction false} ProposalRecorded(g: seq<nat>, session: seq<WorkInterval>, s: seq<WorkInterval>)
    requires BreaksInside(g, session) && forall x :: x in session ==> x in s
    ensures |g| % 2 == 0 && forall k :: 0 <= k < |g| / 2 ==> Recorded(s, g, k)
  {
    forall k | 0 <= k < |g| / 2 ensures Recorded(s, g, k) {
      assert BreakInside(g[2 * k], g[2 * k + 1], session);
    }
  }

  lemma {:induction false} RecordedConcat(s: seq<WorkInterval>, a: seq<nat>, b: seq<nat>)
    requires |a| % 2 == 0 && forall k :: 0 <= k < |a| / 2 ==> Recorded(s, a, k)
    requires |b| % 2 == 0 && forall k :: 0 <= k < |b| / 2 ==> Recorded(s, b, k)
    ensures |a + b| % 2 == 0 && forall k :: 0 <= k < |a + b| / 2 ==> Recorded(s, a + b, k)
  {
    var g := a + b;
    forall k | 0 <= k < |g| / 2 ensures Recorded(s, g, k) {
      if 2 * k < |a| {
        assert g[2 * k] == a[2 * k] && g[2 * k + 1] == a[2 * k + 1];
        assert Recorded(s, a, k);
      } else {
        var l := k - |a| / 2;
        assert 2 * l == 2 * k - |a|;
        assert g[2 * k] == b[2 * l] && g[2 * k + 1] == b[2 * l + 1];
        assert Recorded(s, b, l);
      }
    }
  }

  /** A committed run inserts breaks strictly inside recorded intervals. */
  lemma {:induction false} CommitInserts(s: State, env: Env, m: nat, t: State)
    requires RowsOk(s) && CommitsBreaks(s, env, m, t)
    ensures InsertsBreaks(s.facts.events, t.facts.events, Flat(ProposedGroups(s.facts, m)))
  {
    hide PairEvents, Distinct, MonthFirst, MissingBreakGroups, Sessions, CommitsBreaks, SplitAtPauses, Chain, Joined, Recorded,
      EachDistinct, DistinctTimes, RowsOk;
    RowsDistinct(s);
    var r, lo, hi := SheetOf(s.facts), MonthFirst(m), MonthFirst(m + 1);
    CommitStores(s, env, m, t);
    SheetSessions(s.facts.events, lo, hi);
    NonemptySessions(PairEvents(s.facts.events));
    FlatDistinct(r, lo, hi);
    forall k, x | 0 <= k < |r| && x in r[k] ensures x in PairEvents(s.facts.events) {
      SessionInSheet(r, k, x);
    }
    RecordedInSheet(r, PairEvents(s.facts.events), lo, hi);
  }

  lemma {:induction false} RowsDistinct(s: State)
    requires RowsOk(s)
    ensures Distinct(s.facts.events)
  {
  }

  lemma {:induction false} CoverageConcat(a: seq<nat>, b: seq<nat>, t: nat)
    requires |a| % 2 == 0
    ensures Coverage(a + b, t) == Coverage(a, t) + Coverage(b, t)
  {
    if a == [] {
      assert a + b == b;
    } else {
      assert (a + b)[2..] == a[2..] + b;
      CoverageConcat(a[2..], b, t);
    }
  }

  /** The breaks of a session lie between its start and its end. */
  lemma {:induction false} ProposalInSpan(session: seq<WorkInterval>, lo: nat, hi: nat)
    requires session != [] && Chain(session)
    ensures BreakList(Proposal(session, lo, hi), session[0].start, Last(session).end)
  {
    hide DayOf, Proposal;
    ProposalShape(session, lo, hi);
    var g := Proposal(session, lo, hi);
    forall k | 0 <= k < |g| / 2 ensures session[0].start <= g[2 * k] < g[2 * k + 1] <= Last(session).end {
      assert BreakInside(g[2 * k], g[2 * k + 1], session);
      var x :| x in session && x.start < g[2 * k] && g[2 * k + 1] < x.end;
      var i :| 0 <= i < |session| && session[i] == x;
      assert i == 0 || session[0].end < x.start;
      assert i == |session| - 1 || x.end < Last(session).start;
    }
  }

  /** Minutes from `t` on are covered only by sessions that reach them. */
  lemma {:induction false} LaterUncovered(r: seq<seq<WorkInterval>>, lo: nat, hi: nat, t: nat)
    requires SplitAtPauses(r) && Chain(Joined(r)) && forall i :: 0 <= i < |Joined(r)| ==> t < Joined(r)[i].start
    ensures forall k :: 0 <= k < |r| ==> r[k] != []
    ensures Coverage(Flat(AdditionsOf(r, lo, hi)), t) == 0
  {
    hide SplitAtPauses, Chain, Joined, SessionAdditions, Proposal, Coverage, BreakList, BreaksInside;
    if r == [] {
      NoSessions();
      NoneCovered(lo, hi, t);
    } else {
      SplitTail(r);
      JoinedCons(r);
      var rest := Joined(r[1..]);
      ChainSplit(r[0], rest);
      forall i | 0 <= i < |rest| ensures t < rest[i].start { assert Joined(r)[|r[0]| + i] == rest[i]; }
      assert Joined(r)[0] == r[0][0];
      LaterUncovered(r[1..], lo, hi, t);
      FirstUncovered(r, lo, hi, t);
    }
  }

  lemma {:induction false} NoneCovered(lo: nat, hi: nat, t: nat)
    ensures Coverage(Flat(AdditionsOf([], lo, hi)), t) == 0
  {
  }

  lemma {:induction false} FirstUncovered(r: seq<seq<WorkInterval>>, lo: nat, hi: nat, t: nat)
    requires (forall k :: 0 <= k < |r| ==> r[k] != []) && r != [] && Chain(r[0])
    requires !(r[0][0].start <= t < Last(r[0]).end)
    ensures Coverage(Flat(AdditionsOf(r, lo, hi)), t) == Coverage(Flat(AdditionsOf(r[1..], lo, hi)), t)
  {
    hide Chain, SessionAdditions, Proposal, Coverage, BreakList, BreaksInside;
    var g, rest := Proposal(r[0], lo, hi), AdditionsOf(r[1..], lo, hi);
    ProposalShape(r[0], lo, hi);
    ProposalForward(r[0], lo, hi);
    FlatProposal(r[0], rest, lo, hi);
    CoverageConcat(g, Flat(rest), t);
    ProposalInSpan(r[0], lo, hi);
    OutsideUncovered(g, r[0][0].start, Last(r[0]).end, t);
  }

  /** Inside a session's span only that session's breaks count. */
  lemma {:induction false} SessionCoverage(r: seq<seq<WorkInterval>>, k: nat, lo: nat, hi: nat, t: nat)
    requires SplitAtPauses(r) && Chain(Joined(r)) && k < |r|
    ensures forall j :: 0 <= j < |r| ==> r[j] != []
    ensures r[k][0].start <= t < Last(r[k]).end ==>
      Coverage(Flat(AdditionsOf(r, lo, hi)), t) == Coverage(Proposal(r[k], lo, hi), t)
  {
    hide SplitAtPauses, Chain, Joined, SessionAdditions, Proposal, Coverage, BreakList, BreaksInside;
    SplitTail(r);
    JoinedCons(r);
    var rest := Joined(r[1..]);
    ChainSplit(r[0], rest);
    if k == 0 {
      AllNonempty(r);
      if r[0][0].start <= t < Last(r[0]).end {
        forall i | 0 <= i < |rest| ensures t < rest[i].start { assert Last(r[0]).end < rest[i].start; }
        LaterUncovered(r[1..], lo, hi, t);
        ProposalShape(r[0], lo, hi);
        ProposalForward(r[0], lo, hi);
        FlatProposal(r[0], AdditionsOf(r[1..], lo, hi), lo, hi);
        CoverageConcat(Proposal(r[0], lo, hi), Flat(AdditionsOf(r[1..], lo, hi)), t);
      }
    } else {
      SessionCoverage(r[1..], k - 1, lo, hi, t);
      AllNonempty(r);
      if r[k][0].start <= t < Last(r[k]).end {
        SessionInSheet(r[1..], k - 1, r[k][0]);
        var i :| 0 <= i < |rest| && rest[i] == r[k][0];
        assert Last(r[0]).end < rest[i].start;
        FirstUncovered(r, lo, hi, t);
      }
    }
  }

  lemma {:induction false} AllNonempty(r: seq<seq<WorkInterval>>)
    requires SplitAtPauses(r)
    ensures forall k :: 0 <= k < |r| ==> r[k] != []
  {
  }

  lemma {:induction false} ChainOfSession(r: seq<seq<WorkInterval>>, k: nat)
    requires Chain(Joined(r)) && k < |r|
    ensures Chain(r[k])
  {
    hide Chain;
    JoinedCons(r);
    ChainSplit(r[0], Joined(r[1..]));
    if k > 0 {
      ChainOfSession(r[1..], k - 1);
    }
  }

  lemma {:induction false} SessionSpan(session: seq<WorkInterval>)
    requires Chain(session) && session != []
    ensures session[0].start < Last(session).end
  {
    assert |session| == 1 || session[0].end < Last(session).start;
  }

  /** What a committed run takes from a session: never more than the length of its breaks, which is the
      pause it missed, and exactly that if and only if no two of its breaks overlap. */
  lemma {:induction false} SessionLosesItsBreaks(s: State, env: Env, m: nat, t: State, k: nat)
    requires RowsOk(s) && CommitsBreaks(s, env, m, t) && k < |SheetOf(s.facts)|
    ensures SheetOf(s.facts)[k] != []
    ensures var session := SheetOf(s.facts)[k];
      var g := Proposal(session, MonthFirst(m), MonthFirst(m + 1));
      var from, to := session[0].start, Last(session).end;
      var worked, left := MinutesIn(PairEvents(s.facts.events), from, to), MinutesIn(PairEvents(t.facts.events), from, to);
      && (g != [] ==> BreakMinutes(g) == MissingMinutes(session))
      && worked - BreakMinutes(g) <= left <= worked
      && (left == worked - BreakMinutes(g) <==> DisjointBreaks(g))
  {
    hide PairEvents, Distinct, MonthFirst, MissingBreakGroups, Sessions, CommitsBreaks, SplitAtPauses, Chain, Joined,
      DisjointBreaks, BreakList, Coverage, MinutesIn, BreakMinutes, Proposal, InsertsBreaks, RowsOk, MissingMinutes, BreaksInside;
    RowsDistinct(s);
    var r, lo, hi := SheetOf(s.facts), MonthFirst(m), MonthFirst(m + 1);
    SheetSessions(s.facts.events, lo, hi);
    NonemptySessions(PairEvents(s.facts.events));
    CommitInserts(s, env, m, t);
    var session, g := r[k], Proposal(r[k], lo, hi);
    ChainOfSession(r, k);
    SessionSpan(session);
    ProposalInSpan(session, lo, hi);
    ProposalShape(session, lo, hi);
    var from, to := session[0].start, Last(session).end;
    forall u: nat | from <= u < to ensures Coverage(Flat(ProposedGroups(s.facts, m)), u) == Coverage(g, u) {
      SessionCoverage(r, k, lo, hi, u);
    }
    WorkDrop(s.facts.events, t.facts.events, Flat(ProposedGroups(s.facts, m)), g, from, to);
  }

  /** On the sessions on which the action is understood completely its breaks never overlap. */
  lemma {:induction false} SimpleIsDisjoint(session: seq<WorkInterval>, lo: nat, hi: nat)
    requires session != [] && Chain(session) && Simple(session, lo, hi)
    ensures DisjointBreaks(Proposal(session, lo, hi))
  {
    hide DayOf, BreaksOf, MissingMinutes, SessionAdditions, Proposal, InRange, RequiredBreaks;
    ProposalShape(session, lo, hi);
    var g := Proposal(session, lo, hi);
    if g == [] {
    } else if |session| == 1 {
      var x := session[0];
      assert session == [x];
      DayLength(x.start, x.end);
      SingleSession(x, lo, hi);
      BreaksOfCut(x);
      IncreasingDisjoint(g);
    } else {
      var at := ShortProposal(session, lo, hi);
    }
  }

  lemma {:induction false} IncreasingDisjoint(g: seq<nat>)
    requires Increasing(g)
    ensures DisjointBreaks(g)
  {
    forall k, l | 0 <= k < l < |g| / 2 ensures BreakEffect.Apart(g, k, l) {
      assert 2 * k + 1 < 2 * l;
      assert g[2 * k + 1] < g[2 * l];
    }
  }

  /** So a committed run takes exactly the missing pause from every session that is a single interval,
      misses less than 30 minutes or gets nothing; in particular on every sheet with pauses of at least
      30 minutes. */
  lemma {:induction false} SimpleLosesWhatItMisses(s: State, env: Env, m: nat, t: State, k: nat)
    requires RowsOk(s) && CommitsBreaks(s, env, m, t) && k < |SheetOf(s.facts)|
    requires SheetOf(s.facts)[k] != [] && Simple(SheetOf(s.facts)[k], MonthFirst(m), MonthFirst(m + 1))
    ensures var session := SheetOf(s.facts)[k];
      var from, to := session[0].start, Last(session).end;
      MinutesIn(PairEvents(t.facts.events), from, to)
        == MinutesIn(PairEvents(s.facts.events), from, to)
           - if Proposal(session, MonthFirst(m), MonthFirst(m + 1)) == [] then 0 else MissingMinutes(session)
  {
    hide PairEvents, Distinct, MonthFirst, Sessions, CommitsBreaks, Chain, Joined, DisjointBreaks, MinutesIn, Proposal, RowsOk,
      MissingMinutes, Simple, SplitAtPauses;
    RowsDistinct(s);
    SheetSessions(s.facts.events, MonthFirst(m), MonthFirst(m + 1));
    ChainOfSession(SheetOf(s.facts), k);
    SimpleIsDisjoint(SheetOf(s.facts)[k], MonthFirst(m), MonthFirst(m + 1));
    SessionLosesItsBreaks(s, env, m, t, k);
  }
}
