/** `missing_break_event_groups` (app/services/time_intervals.py): breaks that the confirmed
    "add breaks" action inserts into recorded attendance, with credit for pauses already there. */
module Backfill {
  import opened Options
  import opened Calendar
  import opened Intervals
  import opened Breaks

  // ---- grouping recorded intervals into sessions ----

  predicate IntervalBefore(a: WorkInterval, b: WorkInterval) {
    a.start < b.start || (a.start == b.start && a.end <= b.end)
  }

  function InsertInterval(x: WorkInterval, s: seq<WorkInterval>): seq<WorkInterval> {
    if s == [] || IntervalBefore(x, s[0]) then [x] + s else [s[0]] + InsertInterval(x, s[1..])
  }

  function SortedIntervals(s: seq<WorkInterval>): seq<WorkInterval> {
    if s == [] then [] else InsertInterval(s[0], SortedIntervals(s[1..]))
  }

  function Last<T>(s: seq<T>): T
    requires s != []
  {
    s[|s| - 1]
  }

  /** Runs of intervals separated by pauses of less than 30 minutes. */
  function Sessions(s: seq<WorkInterval>): (r: seq<seq<WorkInterval>>)
    ensures (s == [] <==> r == []) && forall k :: 0 <= k < |r| ==> r[k] != []
    ensures s != [] ==> Last(Last(r)) == Last(s)
  {
    if s == [] then []
    else
      var before, x := Sessions(s[..|s| - 1]), Last(s);
      if before == [] || x.start - Last(Last(before)).end >= 30 then before + [[x]]
      else before[..|before| - 1] + [Last(before) + [x]]
  }

  function Joined(sessions: seq<seq<WorkInterval>>): seq<WorkInterval> {
    if sessions == [] then [] else Joined(sessions[..|sessions| - 1]) + Last(sessions)
  }

  /** Pauses inside sessions last less than 30 minutes, pauses between them at least that. */
  ghost predicate SplitAtPauses(r: seq<seq<WorkInterval>>) {
    && (forall k :: 0 <= k < |r| ==> r[k] != [])
    && (forall k, i :: 0 <= k < |r| && 0 < i < |r[k]| ==> r[k][i].start - r[k][i - 1].end < 30)
    && (forall k :: 0 < k < |r| ==> r[k][0].start - Last(r[k - 1]).end >= 30)
  }

  /** Sessions cut the list of intervals exactly at its pauses of 30 minutes or more. */
  lemma {:induction false} SessionsSplitAtPauses(s: seq<WorkInterval>)
    ensures Joined(Sessions(s)) == s && SplitAtPauses(Sessions(s))
    decreases |s|
  {
    hide Joined, SplitAtPauses;
    if s == [] {
      NoSessions();
    } else {
      var before, x := Sessions(s[..|s| - 1]), Last(s);
      SessionsSplitAtPauses(s[..|s| - 1]);
      assert s == s[..|s| - 1] + [x];
      if before == [] || x.start - Last(Last(before)).end >= 30 {
        StartedSplits(before, x);
      } else {
        GrownSplits(before, x);
        GrownJoined(before, x);
      }
    }
  }

  lemma {:induction false} NoSessions()
    ensures Joined([]) == [] && SplitAtPauses([])
  {
  }

  lemma {:induction false} StartedSplits(before: seq<seq<WorkInterval>>, x: WorkInterval)
    requires SplitAtPauses(before)
    requires before != [] && Last(before) != [] ==> x.start - Last(Last(before)).end >= 30
    ensures SplitAtPauses(before + [[x]]) && Joined(before + [[x]]) == Joined(before) + [x]
  {
    var r := before + [[x]];
    assert r[..|before|] == before && Last(r) == [x];
  }

  lemma {:induction false} GrownJoined(before: seq<seq<WorkInterval>>, x: WorkInterval)
    requires before != []
    ensures Joined(before[..|before| - 1] + [Last(before) + [x]]) == Joined(before) + [x]
  {
    var kept, grown := before[..|before| - 1], Last(before) + [x];
    var r := kept + [grown];
    assert r[..|kept|] == kept && Last(r) == grown;
    Assoc(Joined(kept), Last(before), [x]);
  }

  lemma {:induction false} GrownSplits(before: seq<seq<WorkInterval>>, x: WorkInterval)
    requires before != [] && SplitAtPauses(before) && x.start - Last(Last(before)).end < 30
    ensures SplitAtPauses(before[..|before| - 1] + [Last(before) + [x]])
  {
    var n := |before| - 1;
    var r := before[..n] + [Last(before) + [x]];
    assert forall k :: 0 <= k < n ==> r[k] == before[k];
    assert r[n] == before[n] + [x];
  }

  // ---- one session ----

  function Gross(session: seq<WorkInterval>): int
    requires session != []
  {
    Last(session).end - session[0].start
  }

  function RecordedPause(session: seq<WorkInterval>): nat {
    if |session| < 2 then 0 else Max(0, session[1].start - session[0].end) + RecordedPause(session[1..])
  }

  function MissingMinutes(session: seq<WorkInterval>): nat
    requires session != []
  {
    Max(0, 30 * RequiredBreaks(Gross(session)) - RecordedPause(session))
  }

  /** Where a break of `duration` minutes aimed at `target` goes: in the first interval that can
      hold it at the target, else clamped into the last interval long enough. */
  function Placement(session: seq<WorkInterval>, target: nat, duration: nat, found: Option<nat>): Option<nat> {
    if session == [] then found
    else
      var earliest, latest := session[0].start + 1, session[0].end - (duration + 1);
      if earliest <= latest then
        var here := Some(Min(Max(target, earliest), latest));
        if earliest <= target <= latest then here else Placement(session[1..], target, duration, here)
      else
        Placement(session[1..], target, duration, found)
  }

  /** Break boundaries from the k-th target on, and the minutes that could not be placed. */
  function Fill(session: seq<WorkInterval>, required: nat, k: nat, remaining: nat): (seq<nat>, nat)
    requires session != [] && k <= required
    decreases required - k
  {
    var duration := Min(30, remaining);
    if k == required || duration <= 0 then ([], remaining)
    else
      match Placement(session, session[0].start + 360 * (k + 1), duration, None)
      case None => ([], remaining)
      case Some(at) =>
        Prepend([at, at + duration], Fill(session, required, k + 1, remaining - duration))
  }

  function SessionAdditions(session: seq<WorkInterval>, rangeStart: nat, rangeEnd: nat): seq<seq<nat>>
    requires session != []
  {
    if Last(session).end <= rangeStart || session[0].start >= rangeEnd then []
    else if MissingMinutes(session) == 0 then []
    else
      var fill := Fill(session, RequiredBreaks(Gross(session)), 0, MissingMinutes(session));
      if fill.1 == 0 then [fill.0] else []
  }

  function AdditionsOf(sessions: seq<seq<WorkInterval>>, rangeStart: nat, rangeEnd: nat): seq<seq<nat>>
    requires forall k :: 0 <= k < |sessions| ==> sessions[k] != []
  {
    if sessions == [] then []
    else SessionAdditions(sessions[0], rangeStart, rangeEnd) + AdditionsOf(sessions[1..], rangeStart, rangeEnd)
  }

  function MissingBreakGroups(intervals: seq<WorkInterval>, rangeStart: nat, rangeEnd: nat): seq<seq<nat>> {
    AdditionsOf(Sessions(SortedIntervals(intervals)), rangeStart, rangeEnd)
  }

  // ---- the loops ----

  method PlaceBreak(session: seq<WorkInterval>, target: nat, duration: nat) returns (placement: Option<nat>)
    ensures placement == Placement(session, target, duration, None)
  {
    placement := None;
    assert session[0..] == session;
    for i := 0 to |session|
      invariant Placement(session[i..], target, duration, placement) == Placement(session, target, duration, None)
    {
      assert session[i..][1..] == session[i + 1..];
      var earliest, latest := session[i].start + 1, session[i].end - (duration + 1);
      if earliest <= latest {
        placement := Some(Min(Max(target, earliest), latest));
        if earliest <= target <= latest {
          return;
        }
      }
    }
  }

  method SessionsOf(ordered: seq<WorkInterval>) returns (sessions: seq<seq<WorkInterval>>)
    ensures sessions == Sessions(ordered)
  {
    sessions := [];
    for i := 0 to |ordered|
      invariant sessions == Sessions(ordered[..i])
    {
      assert ordered[..i + 1][..i] == ordered[..i];
      if sessions == [] || ordered[i].start - Last(Last(sessions)).end >= 30 {
        sessions := sessions + [[ordered[i]]];
      } else {
        sessions := sessions[..|sessions| - 1] + [Last(sessions) + [ordered[i]]];
      }
    }
    assert ordered[..|ordered|] == ordered;
  }

  function Prepend(a: seq<nat>, fill: (seq<nat>, nat)): (seq<nat>, nat) {
    (a + fill.0, fill.1)
  }

  lemma {:induction false} PrependTwice(a: seq<nat>, b: seq<nat>, fill: (seq<nat>, nat))
    ensures Prepend(a, Prepend(b, fill)) == Prepend(a + b, fill)
  {
    assert a + (b + fill.0) == a + b + fill.0;
  }

  method FillSession(session: seq<WorkInterval>, required: nat, missing: nat) returns (additions: seq<nat>, remaining: nat)
    requires session != []
    ensures (additions, remaining) == Fill(session, required, 0, missing)
  {
    additions, remaining := [], missing;
    var k := 0;
    ghost var all := Fill(session, required, 0, missing);
    assert [] + all.0 == all.0;
    while k < required
      invariant k <= required
      invariant Prepend(additions, Fill(session, required, k, remaining)) == Fill(session, required, 0, missing)
    {
      var duration := Min(30, remaining);
      if duration <= 0 {
        break;
      }
      var target := session[0].start + 360 * (k + 1);
      var placement := PlaceBreak(session, target, duration);
      if placement == None {
        break;
      }
      PrependTwice(additions, [placement.value, placement.value + duration],
                   Fill(session, required, k + 1, remaining - duration));
      additions := additions + [placement.value, placement.value + duration];
      remaining := remaining - duration;
      k := k + 1;
    }
    assert additions + [] == additions;
  }

  /** One iteration over a session: what it appends to the result. */
  method SessionGroups(session: seq<WorkInterval>, rangeStart: nat, rangeEnd: nat) returns (groups: seq<seq<nat>>)
    requires session != []
    ensures groups == SessionAdditions(session, rangeStart, rangeEnd)
  {
    if Last(session).end <= rangeStart || session[0].start >= rangeEnd {
      return [];
    }
    var _, requiredBreaks := BreakSegments(Gross(session));
    var existing := MeasurePause(session);
    var due: int := 30 * requiredBreaks;
    var missing: nat := Max(0, due - existing);
    if missing == 0 {
      return [];
    }
    var additions, remaining := FillSession(session, requiredBreaks, missing);
    return if remaining == 0 then [additions] else [];
  }

  method MissingBreakEventGroups(intervals: seq<WorkInterval>, rangeStart: nat, rangeEnd: nat)
    returns (additions: seq<seq<nat>>)
    ensures additions == MissingBreakGroups(intervals, rangeStart, rangeEnd)
  {
    hide SessionAdditions;
    var sessions := SessionsOf(SortedIntervals(intervals));
    additions := [];
    assert sessions[0..] == sessions;
    for i := 0 to |sessions|
      invariant additions + AdditionsOf(sessions[i..], rangeStart, rangeEnd)
             == MissingBreakGroups(intervals, rangeStart, rangeEnd)
    {
      hide MissingBreakGroups;
      assert sessions[i..][1..] == sessions[i + 1..];
      var groups := SessionGroups(sessions[i], rangeStart, rangeEnd);
      additions := additions + groups;
    }
  }

  method MeasurePause(session: seq<WorkInterval>) returns (pause: nat)
    ensures pause == RecordedPause(session)
  {
    pause := 0;
    var i := 1;
    assert |session| > 0 ==> session[0..] == session;
    while i < |session|
      invariant 1 <= i
      invariant i <= |session| ==> pause + RecordedPause(session[i - 1..]) == RecordedPause(session)
      invariant |session| < i ==> pause == RecordedPause(session)
    {
      assert session[i - 1..][1..] == session[i..];
      pause := pause + Max(0, session[i].start - session[i - 1].end);
      i := i + 1;
    }
  }

  // ---- what every group satisfies ----

  /** A list of break boundaries: consecutive start and end times. */
  ghost predicate BreaksInside(additions: seq<nat>, session: seq<WorkInterval>) {
    && |additions| % 2 == 0
    && forall k :: 0 <= k < |additions| / 2 ==> BreakInside(additions[2 * k], additions[2 * k + 1], session)
  }

  ghost predicate BreakInside(from: nat, to: nat, session: seq<WorkInterval>) {
    1 <= to - from <= 30 && exists x :: x in session && x.start < from && to < x.end
  }

  function BreakMinutes(additions: seq<nat>): int {
    if |additions| < 2 then 0 else additions[1] - additions[0] + BreakMinutes(additions[2..])
  }

  ghost predicate Holds(session: seq<WorkInterval>, duration: int) {
    exists x :: x in session && x.Minutes() >= duration + 2
  }

  ghost predicate FoundInside(found: Option<nat>, session: seq<WorkInterval>, duration: nat) {
    found.Some? ==> exists x :: x in session && x.start < found.value && found.value + duration < x.end
  }

  lemma {:induction false} PlacementInside(session: seq<WorkInterval>, all: seq<WorkInterval>, target: nat,
                                           duration: nat, found: Option<nat>)
    requires forall x :: x in session ==> x in all
    requires FoundInside(found, all, duration)
    ensures FoundInside(Placement(session, target, duration, found), all, duration)
    ensures Placement(session, target, duration, found).Some? <==> found.Some? || Holds(session, duration)
  {
    if session != [] {
      var x := session[0];
      var earliest, latest := x.start + 1, x.end - (duration + 1);
      var here := if earliest <= latest then Some(Min(Max(target, earliest), latest)) else found;
      assert x in session;
      assert FoundInside(here, all, duration);
      assert forall y :: y in session[1..] ==> y in session;
      PlacementInside(session[1..], all, target, duration, here);
      if !(earliest <= latest) && Holds(session, duration) {
        var y :| y in session && y.Minutes() >= duration + 2;
        assert y in session[1..];
      }
      if earliest <= latest {
        assert x.Minutes() >= duration + 2;
      }
    }
  }

  /** A break of `duration` minutes fits strictly inside the interval at `from`. */
  predicate Fits(x: WorkInterval, from: int, duration: nat) {
    x.start < from && from + duration < x.end
  }

  /** `from` is where the break comes closest to its target inside the interval. */
  ghost predicate Nearest(x: WorkInterval, target: nat, duration: nat, from: nat) {
    Fits(x, from, duration) && forall q :: Fits(x, q, duration) ==> Max(from - target, target - from) <= Max(q - target, target - q)
  }

  lemma {:induction false} ClampedIsNearest(x: WorkInterval, target: nat, duration: nat)
    requires x.Minutes() >= duration + 2
    ensures Nearest(x, target, duration, Min(Max(target, x.start + 1), x.end - (duration + 1)))
  {
  }

  ghost predicate LastLong(session: seq<WorkInterval>, duration: nat, k: nat)
    requires k < |session|
  {
    session[k].Minutes() >= duration + 2 && forall j :: k < j < |session| ==> session[j].Minutes() < duration + 2
  }

  /** As near to the target as the last interval that is long enough allows. */
  ghost predicate NearestInLast(session: seq<WorkInterval>, target: nat, duration: nat, p: Option<nat>) {
    p.Some? && exists k :: 0 <= k < |session| && LastLong(session, duration, k) && Nearest(session[k], target, duration, p.value)
  }

  ghost predicate FitsTarget(session: seq<WorkInterval>, target: nat, duration: nat) {
    exists i :: 0 <= i < |session| && Fits(session[i], target, duration)
  }

  lemma {:induction false} FitsTargetCons(x: WorkInterval, rest: seq<WorkInterval>, target: nat, duration: nat)
    ensures FitsTarget([x] + rest, target, duration) <==> Fits(x, target, duration) || FitsTarget(rest, target, duration)
  {
    var s := [x] + rest;
    if i :| 0 <= i < |rest| && Fits(rest[i], target, duration) { assert Fits(s[i + 1], target, duration); }
    if i :| 0 <= i < |s| && Fits(s[i], target, duration) {
      if i > 0 { assert Fits(rest[i - 1], target, duration); }
    }
    if Fits(x, target, duration) { assert Fits(s[0], target, duration); }
  }

  lemma {:induction false} HoldsCons(x: WorkInterval, rest: seq<WorkInterval>, duration: nat)
    ensures Holds([x] + rest, duration) <==> x.Minutes() >= duration + 2 || Holds(rest, duration)
  {
    var s := [x] + rest;
    if y :| y in rest && y.Minutes() >= duration + 2 { assert y in s; }
    if x.Minutes() >= duration + 2 { assert x in s; }
  }

  lemma {:induction false} LaterLast(x: WorkInterval, rest: seq<WorkInterval>, target: nat, duration: nat, p: Option<nat>)
    requires NearestInLast(rest, target, duration, p)
    ensures NearestInLast([x] + rest, target, duration, p)
  {
    hide Nearest;
    var s := [x] + rest;
    var k :| 0 <= k < |rest| && LastLong(rest, duration, k) && Nearest(rest[k], target, duration, p.value);
    assert s[k + 1] == rest[k];
    forall j | k + 1 < j < |s| ensures s[j].Minutes() < duration + 2 { assert s[j] == rest[j - 1]; }
    assert LastLong(s, duration, k + 1);
  }

  lemma {:induction false} FirstIsLast(x: WorkInterval, rest: seq<WorkInterval>, target: nat, duration: nat, p: nat)
    requires x.Minutes() >= duration + 2 && !Holds(rest, duration) && Nearest(x, target, duration, p)
    ensures NearestInLast([x] + rest, target, duration, Some(p))
  {
    hide Nearest;
    var s := [x] + rest;
    forall j | 0 < j < |s| ensures s[j].Minutes() < duration + 2 { assert s[j] == rest[j - 1] && rest[j - 1] in rest; }
    assert s[0] == x && LastLong(s, duration, 0);
  }

  /** A break goes to its target where some interval holds it there, and otherwise as near to the target as
      the last interval long enough allows; nowhere when none is long enough. */
  lemma {:induction false} PlacementNearest(session: seq<WorkInterval>, target: nat, duration: nat, found: Option<nat>)
    ensures var p := Placement(session, target, duration, found);
      if FitsTarget(session, target, duration) then p == Some(target)
      else if Holds(session, duration) then NearestInLast(session, target, duration, p)
      else p == found
  {
    hide Nearest, NearestInLast, FitsTarget, Holds;
    if session == [] {
      NothingHolds(target, duration);
    } else {
      var x, rest := session[0], session[1..];
      var long := x.Minutes() >= duration + 2;
      var clamped := Min(Max(target, x.start + 1), x.end - (duration + 1));
      var here := if long then Some(clamped) else found;
      assert session == [x] + rest;
      FitsTargetCons(x, rest, target, duration);
      HoldsCons(x, rest, duration);
      PlacementNearest(rest, target, duration, here);
      if !FitsTarget(session, target, duration) {
        if Holds(rest, duration) {
          LaterLast(x, rest, target, duration, Placement(rest, target, duration, here));
        } else if long {
          ClampedIsNearest(x, target, duration);
          FirstIsLast(x, rest, target, duration, clamped);
        }
      }
    }
  }

  lemma {:induction false} NothingHolds(target: nat, duration: nat)
    ensures !FitsTarget([], target, duration) && !Holds([], duration)
  {
  }

  lemma {:induction false} HoldsLess(session: seq<WorkInterval>, long: int, short: int)
    requires Holds(session, long) && short <= long
    ensures Holds(session, short)
  {
    var x :| x in session && x.Minutes() >= long + 2;
  }

  lemma {:induction false} NothingFound(session: seq<WorkInterval>, duration: nat)
    ensures FoundInside(None, session, duration)
  {
  }

  lemma {:induction false} FoundBreak(session: seq<WorkInterval>, at: nat, duration: nat)
    requires FoundInside(Some(at), session, duration) && 1 <= duration <= 30
    ensures BreakInside(at, at + duration, session)
  {
  }

  /** A filled session: boundaries inside it, their minutes and the rest together the missing ones, and
      nothing left exactly when some interval is long enough for the first break. */
  ghost predicate Fills(fill: (seq<nat>, nat), session: seq<WorkInterval>, remaining: nat) {
    && BreaksInside(fill.0, session) && BreakMinutes(fill.0) + fill.1 == remaining
    && (fill.1 == 0 <==> remaining == 0 || Holds(session, Min(30, remaining)))
  }

  lemma {:induction false} FillsNothing(session: seq<WorkInterval>, remaining: nat)
    requires remaining == 0 || !Holds(session, Min(30, remaining))
    ensures Fills(([], remaining), session, remaining)
  {
    hide Holds;
    assert BreaksInside([], session) && BreakMinutes([]) == 0;
  }

  lemma {:induction false} FillsMore(session: seq<WorkInterval>, at: nat, duration: nat, rest: (seq<nat>, nat), remaining: nat)
    requires duration == Min(30, remaining) && duration > 0 && FoundInside(Some(at), session, duration)
    requires Holds(session, duration) && Fills(rest, session, remaining - duration)
    ensures Fills(Prepend([at, at + duration], rest), session, remaining)
  {
    hide Holds, FoundInside, BreaksInside, BreakInside, BreakMinutes, Prepend;
    HoldsLess(session, duration, Min(30, remaining - duration));
    FoundBreak(session, at, duration);
    PrependBreak(at, duration, rest, session);
  }

  /** Breaks are placed until nothing is missing, as soon as some interval is long enough for the
      first of them. */
  lemma {:induction false} FillPlacesAll(session: seq<WorkInterval>, required: nat, k: nat, remaining: nat)
    requires session != [] && k <= required && remaining <= 30 * (required - k)
    ensures Fills(Fill(session, required, k, remaining), session, remaining)
    decreases required - k
  {
    hide Holds, FoundInside, Placement, Fill, Fills;
    FillStep(session, required, k, remaining);
    var duration := Min(30, remaining);
    if k == required || duration == 0 {
      FillsNothing(session, remaining);
    } else {
      var target := session[0].start + 360 * (k + 1);
      NothingFound(session, duration);
      PlacementInside(session, session, target, duration, None);
      var at := Placement(session, target, duration, None);
      if at == None {
        FillsNothing(session, remaining);
      } else {
        FillPlacesAll(session, required, k + 1, remaining - duration);
        FillsMore(session, at.value, duration, Fill(session, required, k + 1, remaining - duration), remaining);
      }
    }
  }

  lemma {:induction false} FillStep(session: seq<WorkInterval>, required: nat, k: nat, remaining: nat)
    requires session != [] && k <= required
    ensures Fill(session, required, k, remaining)
         == var duration := Min(30, remaining);
            if k == required || duration == 0 then ([], remaining)
            else
              var at := Placement(session, session[0].start + 360 * (k + 1), duration, None);
              if at == None then ([], remaining)
              else Prepend([at.value, at.value + duration], Fill(session, required, k + 1, remaining - duration))
  {
    hide Placement;
  }

  lemma {:induction false} PrependBreak(at: nat, duration: nat, fill: (seq<nat>, nat), session: seq<WorkInterval>)
    requires BreaksInside(fill.0, session) && BreakInside(at, at + duration, session)
    ensures var all := Prepend([at, at + duration], fill);
      BreaksInside(all.0, session) && BreakMinutes(all.0) == duration + BreakMinutes(fill.0) && all.1 == fill.1
  {
    var rest := fill.0;
    var all := [at, at + duration] + rest;
    assert all[2..] == rest;
    forall k | 0 <= k < |all| / 2 ensures BreakInside(all[2 * k], all[2 * k + 1], session) {
      if k > 0 {
        assert all[2 * k] == rest[2 * (k - 1)] && all[2 * k + 1] == rest[2 * (k - 1) + 1];
      }
    }
  }

  /** All or nothing: a session either gets breaks strictly inside its recorded intervals, 1 to 30
      minutes each, that sum to exactly the missing minutes, or nothing at all; and it gets them
      exactly when something is missing and one interval is long enough for the first break. */
  lemma {:induction false} AllOrNothing(session: seq<WorkInterval>, rangeStart: nat, rangeEnd: nat)
    requires session != []
    ensures var groups, missing := SessionAdditions(session, rangeStart, rangeEnd), MissingMinutes(session);
      && |groups| <= 1
      && (|groups| == 1 <==> Last(session).end > rangeStart && session[0].start < rangeEnd
                             && missing > 0 && Holds(session, Min(30, missing)))
      && forall g :: g in groups ==> g != [] && BreaksInside(g, session) && BreakMinutes(g) == missing
  {
    if MissingMinutes(session) > 0 {
      FillPlacesAll(session, RequiredBreaks(Gross(session)), 0, MissingMinutes(session));
    }
  }
}
