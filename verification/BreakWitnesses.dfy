/** Concrete sheets on which the "add breaks" action is not idempotent, is refused by the database, or
    adds less pause than is missing. All of them are sheets of one day in the first month. */
module BreakWitnesses {
  import opened Options
  import opened Calendar
  import opened Intervals
  import opened Breaks
  import opened Backfill
  import opened Metrics
  import opened Summary
  import opened Sheets
  import opened Weaving
  import opened Idempotence
  import opened BreakEffect
  import opened BreakAction
  import opened Ledger
  import opened Footprint
  import opened Invariants

  // ---- sheets from times ----

  /** Stored rows with the given times. */
  function Rows(ts: seq<nat>): (r: seq<Event>)
    ensures |r| == |ts| && forall i :: 0 <= i < |ts| ==> r[i] == Event(i + 1, ts[i])
  {
    seq(|ts|, i requires 0 <= i < |ts| => Event(i + 1, ts[i]))
  }

  function TwoByTwo(ts: seq<nat>): seq<WorkInterval> {
    if |ts| < 2 then [] else [WorkInterval(ts[0], ts[1])] + TwoByTwo(ts[2..])
  }

  lemma {:induction false} DayZero(t: nat)
    requires t < 1440
    ensures DayOf(t) == 0
  {
  }

  lemma {:induction false} DayZeroPairs(ts: seq<nat>)
    requires Increasing(ts) && forall i :: 0 <= i < |ts| ==> ts[i] < 1440
    ensures PairTimes(ts) == TwoByTwo(ts)
    decreases |ts|
  {
    hide DayOf, PairTimes;
    if |ts| < 2 {
      NoPairs(ts);
    } else {
      DayZero(ts[0]); DayZero(ts[1]);
      PairTimesStep(ts);
      DayZeroPairs(ts[2..]);
    }
  }

  /** A sheet with the times of one day. */
  lemma {:induction false} SheetOfTimes(events: seq<Event>, ts: seq<nat>)
    requires Distinct(events) && Increasing(ts) && (forall i :: 0 <= i < |ts| ==> ts[i] < 1440)
    requires forall t :: t in ts <==> t in Times(events)
    ensures PairEvents(events) == TwoByTwo(ts)
  {
    hide PairEvents, PairTimes, Distinct;
    SameTimesSameIntervals(events, ts);
    DayZeroPairs(ts);
  }

  lemma {:induction false} RowsSheet(ts: seq<nat>)
    requires Increasing(ts) && forall i :: 0 <= i < |ts| ==> ts[i] < 1440
    ensures Distinct(Rows(ts)) && Times(Rows(ts)) == ts && PairEvents(Rows(ts)) == TwoByTwo(ts)
  {
    hide PairEvents, TwoByTwo;
    SheetOfTimes(Rows(ts), ts);
  }

  lemma {:induction false} FirstMonthBounds()
    ensures MonthFirst(0) == 0 && MonthFirst(1) == 44640
  {
    hide MonthStart;
    FirstMonth();
  }

  lemma {:induction false} OneSession(s: seq<WorkInterval>)
    requires s != [] && ShortPauses(s)
    ensures Sessions(s) == [s]
  {
    JoinedSingle(s);
    SessionsUnique([s]);
  }

  lemma {:induction false} OneProposal(events: seq<Event>, s: seq<WorkInterval>, lo: nat, hi: nat)
    requires Distinct(events) && PairEvents(events) == s && s != [] && ShortPauses(s)
    ensures MissingBreakGroups(s, lo, hi) == SessionAdditions(s, lo, hi)
  {
    hide *;
    SheetSessions(events, lo, hi);
    OneSession(s);
    OneAddition(s, lo, hi);
  }

  lemma {:induction false} OneAddition(s: seq<WorkInterval>, lo: nat, hi: nat)
    requires s != []
    ensures AdditionsOf([s], lo, hi) == SessionAdditions(s, lo, hi)
  {
    hide SessionAdditions;
    assert [s][1..] == [];
  }

  lemma {:induction false} SomethingLeft(r: seq<seq<WorkInterval>>, lo: nat, hi: nat, k: nat)
    requires (forall j :: 0 <= j < |r| ==> r[j] != []) && k < |r| && SessionAdditions(r[k], lo, hi) != []
    ensures AdditionsOf(r, lo, hi) != []
  {
    hide SessionAdditions;
    if k > 0 {
      SomethingLeft(r[1..], lo, hi, k - 1);
    }
  }

  lemma {:induction false} AppliedRows(ts: seq<nat>, us: seq<nat>, g: seq<nat>, lo: nat, hi: nat)
    requires Increasing(ts) && Increasing(us)
    requires (forall i :: 0 <= i < |ts| ==> ts[i] < 1440) && (forall i :: 0 <= i < |us| ==> us[i] < 1440)
    requires MissingBreakGroups(TwoByTwo(ts), lo, hi) == [g] && forall t :: t in us <==> t in ts || t in g
    ensures AppliesBreaks(Rows(ts), Rows(us), lo, hi)
  {
    hide PairEvents, MissingBreakGroups, TwoByTwo, Distinct;
    RowsSheet(ts); RowsSheet(us);
    assert Flat([g]) == g + Flat([]) by { assert [g][1..] == []; }
    assert g + [] == g;
  }

  // ---- not idempotent on a long shift ----

  function LongShift(): seq<nat> {
    [0, 1120]
  }

  function LongShiftNext(): seq<nat> {
    [0, 360, 390, 720, 750, 1120]
  }

  lemma {:induction false} LongShiftSheets()
    ensures TwoByTwo(LongShift()) == [WorkInterval(0, 1120)]
    ensures TwoByTwo(LongShiftNext()) == [WorkInterval(0, 360), WorkInterval(390, 720), WorkInterval(750, 1120)]
  {
    assert LongShift()[2..] == [];
    var ts := LongShiftNext();
    assert ts[2..] == [390, 720, 750, 1120] && ts[2..][2..] == [750, 1120] && ts[2..][2..][2..] == [];
  }

  /** A shift of 1120 minutes: one application leaves a last piece of 370 minutes, so a second one adds
      another break. */
  lemma {:induction false} NotIdempotentOnLongShift()
    ensures AppliesBreaks(Rows(LongShift()), Rows(LongShiftNext()), MonthFirst(0), MonthFirst(1))
    ensures MissingBreakGroups(PairEvents(Rows(LongShiftNext())), MonthFirst(0), MonthFirst(1)) != []
  {
    hide MissingBreakGroups, PairEvents, Sessions, AppliesBreaks, MonthFirst, SessionAdditions, Distinct;
    var lo, hi, x, y := MonthFirst(0), MonthFirst(1), WorkInterval(0, 1120), WorkInterval(750, 1120);
    FirstMonthBounds();
    LongShiftSheets();
    RowsSheet(LongShift()); RowsSheet(LongShiftNext());
    OneProposal(Rows(LongShift()), [x], lo, hi);
    SingleSession(x, lo, hi);
    assert BreaksOf(x) == [360, 390, 720, 750];
    AppliedRows(LongShift(), LongShiftNext(), BreaksOf(x), lo, hi);
    var r := [[WorkInterval(0, 360)], [WorkInterval(390, 720)], [y]];
    SingleSession(y, lo, hi);
    SheetSessions(Rows(LongShiftNext()), lo, hi);
    ThreeSessions(r[0][0], r[1][0], y);
    SomethingLeft(r, lo, hi, 2);
  }

  lemma {:induction false} ThreeSessions(a: WorkInterval, b: WorkInterval, c: WorkInterval)
    requires a.end + 30 <= b.start && b.end + 30 <= c.start
    ensures Sessions([a, b, c]) == [[a], [b], [c]]
  {
    var r := [[a], [b], [c]];
    assert Singles([a, b, c]) == r;
    JoinedSingles([a, b, c]);
    SessionsUnique(r);
  }

  // ---- not idempotent with a short pause ----

  function ShortPause(): seq<nat> {
    [0, 380, 400, 800]
  }

  function ShortPauseNext(): seq<nat> {
    [0, 380, 400, 401, 431, 720, 730, 800]
  }

  lemma {:induction false} ShortPauseSheets()
    ensures TwoByTwo(ShortPause()) == [WorkInterval(0, 380), WorkInterval(400, 800)]
    ensures TwoByTwo(ShortPauseNext())
         == [WorkInterval(0, 380), WorkInterval(400, 401), WorkInterval(431, 720), WorkInterval(730, 800)]
  {
    assert ShortPause()[2..] == [400, 800] && ShortPause()[2..][2..] == [];
    var ts := ShortPauseNext();
    assert ts[2..] == [400, 401, 431, 720, 730, 800] && ts[2..][2..] == [431, 720, 730, 800];
    assert ts[2..][2..][2..] == [730, 800] && ts[2..][2..][2..][2..] == [];
  }

  lemma {:induction false} ShortPauseProposal(lo: nat, hi: nat)
    requires lo == 0 && hi >= 800
    ensures SessionAdditions([WorkInterval(0, 380), WorkInterval(400, 800)], lo, hi) == [[401, 431, 720, 730]]
  {
    var a, b := WorkInterval(0, 380), WorkInterval(400, 800);
    var session := [a, b];
    assert session[1..] == [b] && [b][1..] == [];
    assert RecordedPause(session) == 20;
    assert Placement([b], 360, 30, Some(349)) == Some(401) && Placement(session, 360, 30, None) == Some(401);
    assert Placement([b], 720, 10, Some(369)) == Some(720) && Placement(session, 720, 10, None) == Some(720);
    assert Fill(session, 2, 2, 0) == ([], 0);
    assert Fill(session, 2, 1, 10).0 == [720, 730] && Fill(session, 2, 1, 10).1 == 0;
    assert Fill(session, 2, 0, 40).0 == [401, 431, 720, 730];
  }

  /** With a pause of 20 minutes the breaks of 30 and 10 minutes cut the session in two, and the first
      part is short of pause again. */
  lemma {:induction false} NotIdempotentOnShortPause()
    ensures AppliesBreaks(Rows(ShortPause()), Rows(ShortPauseNext()), MonthFirst(0), MonthFirst(1))
    ensures MissingBreakGroups(PairEvents(Rows(ShortPauseNext())), MonthFirst(0), MonthFirst(1)) != []
  {
    hide MissingBreakGroups, PairEvents, Sessions, AppliesBreaks, MonthFirst, SessionAdditions, Distinct;
    var lo, hi := MonthFirst(0), MonthFirst(1);
    var a, b, c, d := WorkInterval(0, 380), WorkInterval(400, 401), WorkInterval(431, 720), WorkInterval(730, 800);
    FirstMonthBounds();
    ShortPauseSheets();
    RowsSheet(ShortPause()); RowsSheet(ShortPauseNext());
    OneProposal(Rows(ShortPause()), [a, WorkInterval(400, 800)], lo, hi);
    ShortPauseProposal(lo, hi);
    AppliedRows(ShortPause(), ShortPauseNext(), [401, 431, 720, 730], lo, hi);
    SheetSessions(Rows(ShortPauseNext()), lo, hi);
    TwoSessions(a, b, c, d);
    FirstPartShort(lo, hi);
    SomethingLeft([[a, b], [c, d]], lo, hi, 0);
  }

  lemma {:induction false} TwoSessions(a: WorkInterval, b: WorkInterval, c: WorkInterval, d: WorkInterval)
    requires b.start - a.end < 30 && c.start - b.end >= 30 && d.start - c.end < 30
    ensures Sessions([a, b, c, d]) == [[a, b], [c, d]]
  {
    var r := [[a, b], [c, d]];
    JoinedCons(r);
    assert r[1..] == [[c, d]];
    JoinedSingle([c, d]);
    assert Joined(r) == [a, b, c, d];
    SessionsUnique(r);
  }

  lemma {:induction false} FirstPartShort(lo: nat, hi: nat)
    requires lo == 0 && hi >= 401
    ensures SessionAdditions([WorkInterval(0, 380), WorkInterval(400, 401)], lo, hi) != []
  {
    var a, b := WorkInterval(0, 380), WorkInterval(400, 401);
    assert RecordedPause([a, b]) == 20 by { assert [a, b][1..] == [b]; }
    assert MissingMinutes([a, b]) == 10;
    assert Holds([a, b], 10) by { assert a in [a, b]; }
    AllOrNothing([a, b], lo, hi);
  }

  // ---- two breaks on the same minute ----

  /** A state in which the administrator may change the first month. */
  ghost predicate Open(s: State, env: Env) {
    RowsOk(s) && Active(s.facts, env) && s.attendanceLocks == {} && forall day :: !HasStatus(s.facts, day)
  }

  lemma {:induction false} NothingLocked(months: set<nat>)
    ensures !AnyLocked({}, months)
  {
  }

  /** In a state open to changes the action commits exactly when the database accepts its rows. */
  lemma {:induction false} OpenOutcome(s: State, env: Env, m: nat)
    requires Open(s, env)
    ensures if Insertable(s.facts.events, BreakInsertions(s.facts, m)) then AddBreaks(s, env, m, true).Commit?
            else AddBreaks(s, env, m, true) == Abort(UniqueViolation)
  {
    hide MissingBreakGroups, PairEvents, Inserted, Insertable, Signatures, ChangedEventDays, NewRows, MonthsFor, MonthStart,
      MonthOf, DayOf, RowsOk, HasStatus, AnyLocked;
    forall months: set<nat> ensures !AnyLocked({}, months) {
      NothingLocked(months);
    }
  }

  function Colliding(): seq<nat> {
    [0, 380, 381, 740, 741, 800]
  }

  lemma {:induction false} CollidingSheet()
    ensures TwoByTwo(Colliding()) == [WorkInterval(0, 380), WorkInterval(381, 740), WorkInterval(741, 800)]
  {
    var ts := Colliding();
    assert ts[2..] == [381, 740, 741, 800] && ts[2..][2..] == [741, 800] && ts[2..][2..][2..] == [];
  }

  lemma {:induction false} CollidingProposal(lo: nat, hi: nat)
    requires lo == 0 && hi >= 800
    ensures SessionAdditions([WorkInterval(0, 380), WorkInterval(381, 740), WorkInterval(741, 800)], lo, hi)
         == [[742, 772, 742, 770]]
  {
    var a, b, c := WorkInterval(0, 380), WorkInterval(381, 740), WorkInterval(741, 800);
    var s := [a, b, c];
    assert s[1..] == [b, c] && [b, c][1..] == [c] && [c][1..] == [];
    assert RecordedPause([c]) == 0 && RecordedPause([b, c]) == 1 && RecordedPause(s) == 2;
    assert Placement([c], 360, 30, Some(382)) == Some(742) && Placement([b, c], 360, 30, Some(349)) == Some(742);
    assert Placement(s, 360, 30, None) == Some(742);
    assert Placement([c], 720, 28, Some(711)) == Some(742) && Placement([b, c], 720, 28, Some(351)) == Some(742);
    assert Placement(s, 720, 28, None) == Some(742);
    assert Fill(s, 2, 2, 0) == ([], 0);
    assert Fill(s, 2, 1, 28).0 == [742, 770] && Fill(s, 2, 1, 28).1 == 0;
    assert Fill(s, 2, 0, 58).0 == [742, 772, 742, 770];
  }

  lemma {:induction false} CollidingSession(f: Facts)
    requires f.events == Rows(Colliding())
    ensures Distinct(f.events) && SheetOf(f) == [TwoByTwo(Colliding())]
  {
    hide PairEvents, Sessions, Distinct;
    CollidingSheet();
    RowsSheet(Colliding());
    OneSession(TwoByTwo(Colliding()));
  }

  lemma {:induction false} CollidingRefused(f: Facts)
    requires f.events == Rows(Colliding())
    ensures !Insertable(f.events, BreakInsertions(f, 0))
  {
    hide *;
    var session, lo, hi := TwoByTwo(Colliding()), MonthFirst(0), MonthFirst(1);
    CollidingSession(f);
    CollidingSheet();
    FirstMonthBounds();
    CollidingProposal(lo, hi);
    ProposalIs(session, lo, hi, [742, 772, 742, 770]);
    RepeatedMinute(session, lo, hi);
    AcceptedIffDistinct(f, 0);
  }

  lemma {:induction false} RepeatedMinute(session: seq<WorkInterval>, lo: nat, hi: nat)
    requires session != [] && Proposal(session, lo, hi) == [742, 772, 742, 770]
    ensures !EachDistinct([session], lo, hi)
  {
    hide Proposal;
    var g := Proposal(session, lo, hi);
    assert g[0] == g[2];
    assert [session][0] == session;
  }

  /** With pauses of a minute both breaks are pushed to the start of the last interval; the confirmed
      action fails on the unique constraint. */
  lemma {:induction false} BreaksCanCollide(s: State, env: Env)
    requires Open(s, env) && s.facts.events == Rows(Colliding())
    ensures AddBreaks(s, env, 0, true) == Abort(UniqueViolation)
  {
    hide *;
    CollidingRefused(s.facts);
    OpenOutcome(s, env, 0);
  }

  lemma {:induction false} ProposalIs(session: seq<WorkInterval>, lo: nat, hi: nat, g: seq<nat>)
    requires session != [] && SessionAdditions(session, lo, hi) == [g]
    ensures Proposal(session, lo, hi) == g
  {
  }

  // ---- two breaks overlapping ----

  function Overlapping(): seq<nat> {
    [0, 380, 381, 699, 700, 1100]
  }

  function OverlappingNext(): seq<nat> {
    [0, 380, 381, 699, 700, 701, 720, 731, 748, 1100]
  }

  lemma {:induction false} OverlappingSheets()
    ensures TwoByTwo(Overlapping()) == [WorkInterval(0, 380), WorkInterval(381, 699), WorkInterval(700, 1100)]
    ensures TwoByTwo(OverlappingNext())
         == [WorkInterval(0, 380), WorkInterval(381, 699), WorkInterval(700, 701), WorkInterval(720, 731), WorkInterval(748, 1100)]
  {
    var ts := Overlapping();
    assert ts[2..] == [381, 699, 700, 1100] && ts[2..][2..] == [700, 1100] && ts[2..][2..][2..] == [];
    var us := OverlappingNext();
    assert us[2..] == [381, 699, 700, 701, 720, 731, 748, 1100] && us[2..][2..] == [700, 701, 720, 731, 748, 1100];
    assert us[2..][2..][2..] == [720, 731, 748, 1100] && us[2..][2..][2..][2..] == [748, 1100];
    assert us[2..][2..][2..][2..][2..] == [];
  }

  lemma {:induction false} OverlappingProposal(lo: nat, hi: nat)
    requires lo == 0 && hi >= 1100
    ensures SessionAdditions([WorkInterval(0, 380), WorkInterval(381, 699), WorkInterval(700, 1100)], lo, hi)
         == [[701, 731, 720, 748]]
  {
    var a, b, c := WorkInterval(0, 380), WorkInterval(381, 699), WorkInterval(700, 1100);
    var s := [a, b, c];
    assert s[1..] == [b, c] && [b, c][1..] == [c] && [c][1..] == [];
    assert RecordedPause([c]) == 0 && RecordedPause([b, c]) == 1 && RecordedPause(s) == 2;
    assert Placement([c], 360, 30, Some(382)) == Some(701) && Placement([b, c], 360, 30, Some(349)) == Some(701);
    assert Placement(s, 360, 30, None) == Some(701);
    assert Placement([c], 720, 28, Some(670)) == Some(720) && Placement([b, c], 720, 28, Some(351)) == Some(720);
    assert Placement(s, 720, 28, None) == Some(720);
    assert Fill(s, 2, 2, 0) == ([], 0);
    assert Fill(s, 2, 1, 28).0 == [720, 748] && Fill(s, 2, 1, 28).1 == 0;
    assert Fill(s, 2, 0, 58).0 == [701, 731, 720, 748];
  }

  lemma {:induction false} OverlappingSession(f: Facts)
    requires f.events == Rows(Overlapping())
    ensures Distinct(f.events) && Times(f.events) == Overlapping() && PairEvents(f.events) == TwoByTwo(Overlapping())
    ensures SheetOf(f) == [TwoByTwo(Overlapping())] && ShortPauses(TwoByTwo(Overlapping()))
  {
    hide PairEvents, Sessions, Distinct;
    OverlappingSheets();
    RowsSheet(Overlapping());
    OneSession(TwoByTwo(Overlapping()));
  }

  lemma {:induction false} OverlappingGroups(f: Facts)
    requires f.events == Rows(Overlapping())
    ensures Distinct(f.events) && ProposedGroups(f, 0) == [[701, 731, 720, 748]]
    ensures Insertable(f.events, BreakInsertions(f, 0))
  {
    var session, g := TwoByTwo(Overlapping()), [701, 731, 720, 748];
    var lo, hi := MonthFirst(0), MonthFirst(1);
    assert ProposedGroups(f, 0) == MissingBreakGroups(PairEvents(f.events), lo, hi);
    hide *;
    OverlappingSession(f);
    OverlappingSheets();
    FirstMonthBounds();
    OverlappingProposal(lo, hi);
    ProposalIs(session, lo, hi, g);
    AllMinutesDistinct(session, lo, hi);
    OneProposal(f.events, session, lo, hi);
    AcceptedIffDistinct(f, 0);
  }

  lemma {:induction false} AllMinutesDistinct(session: seq<WorkInterval>, lo: nat, hi: nat)
    requires session != [] && Proposal(session, lo, hi) == [701, 731, 720, 748]
    ensures EachDistinct([session], lo, hi)
  {
    hide Proposal;
  }

  /** All four boundaries differ, so the action commits; but the breaks from 701 to 731 and from 720 to 748
      overlap, and re-pairing leaves 38 minutes of pause where 60 are required and 58 were missing. */
  lemma {:induction false} BreaksCanOverlap(s: State, env: Env, t: State)
    requires Open(s, env) && s.facts.events == Rows(Overlapping())
    ensures AddBreaks(s, env, 0, true).Commit? && ProposedGroups(s.facts, 0) == [[701, 731, 720, 748]]
    ensures CommitsBreaks(s, env, 0, t) ==>
      PairEvents(t.facts.events) == TwoByTwo(OverlappingNext()) && RecordedPause(TwoByTwo(OverlappingNext())) == 38
    ensures MissingMinutes(TwoByTwo(Overlapping())) == 58 && 30 * RequiredBreaks(Gross(TwoByTwo(Overlapping()))) == 60
  {
    OverlappingGroups(s.facts);
    OpenOutcome(s, env, 0);
    OverlappingPauses();
    if CommitsBreaks(s, env, 0, t) {
      hide *;
      OverlappingStored(s, env, t);
    }
  }

  lemma {:induction false} OverlappingPauses()
    ensures RecordedPause(TwoByTwo(OverlappingNext())) == 38
    ensures MissingMinutes(TwoByTwo(Overlapping())) == 58 && 30 * RequiredBreaks(Gross(TwoByTwo(Overlapping()))) == 60
  {
    OverlappingSheets();
    var a, b, c := WorkInterval(0, 380), WorkInterval(381, 699), WorkInterval(700, 1100);
    var s := [a, b, c];
    assert s[1..] == [b, c] && [b, c][1..] == [c];
    assert RecordedPause([c]) == 0 && RecordedPause([b, c]) == 1 && RecordedPause(s) == 2;
    var d, e, g := WorkInterval(700, 701), WorkInterval(720, 731), WorkInterval(748, 1100);
    assert [a, b, d, e, g][1..] == [b, d, e, g] && [b, d, e, g][1..] == [d, e, g] && [d, e, g][1..] == [e, g];
    assert [e, g][1..] == [g] && RecordedPause([g]) == 0;
    assert RecordedPause([e, g]) == 17 && RecordedPause([d, e, g]) == 36 && RecordedPause([b, d, e, g]) == 37;
  }

  /** Re-pairing after one proposal was stored. */
  lemma {:induction false} AppliedSheet(before: seq<Event>, after: seq<Event>, us: seq<nat>, g: seq<nat>, lo: nat, hi: nat)
    requires AppliesBreaks(before, after, lo, hi) && MissingBreakGroups(PairEvents(before), lo, hi) == [g]
    requires Increasing(us) && (forall i :: 0 <= i < |us| ==> us[i] < 1440)
    requires forall t :: t in us <==> t in Times(before) || t in g
    ensures PairEvents(after) == TwoByTwo(us)
  {
    hide PairEvents, MissingBreakGroups, TwoByTwo, Distinct;
    assert Flat([g]) == g + Flat([]) by { assert [g][1..] == []; }
    assert g + [] == g;
    SheetOfTimes(after, us);
  }

  lemma {:induction false} OverlappingTimes()
    ensures Increasing(OverlappingNext()) && forall i :: 0 <= i < |OverlappingNext()| ==> OverlappingNext()[i] < 1440
    ensures forall u :: u in OverlappingNext() <==> u in Overlapping() || u in [701, 731, 720, 748]
  {
  }

  lemma {:induction false} OpenRows(s: State, env: Env)
    requires Open(s, env)
    ensures RowsOk(s)
  {
  }

  lemma {:induction false} OverlappingStored(s: State, env: Env, t: State)
    requires Open(s, env) && s.facts.events == Rows(Overlapping()) && CommitsBreaks(s, env, 0, t)
    ensures PairEvents(t.facts.events) == TwoByTwo(OverlappingNext())
  {
    assert ProposedGroups(s.facts, 0) == MissingBreakGroups(PairEvents(s.facts.events), MonthFirst(0), MonthFirst(1));
    hide *;
    OpenRows(s, env);
    OverlappingGroups(s.facts);
    OverlappingSession(s.facts);
    OverlappingTimes();
    CommitStores(s, env, 0, t);
    AppliedSheet(s.facts.events, t.facts.events, OverlappingNext(), [701, 731, 720, 748], MonthFirst(0), MonthFirst(1));
  }
}
