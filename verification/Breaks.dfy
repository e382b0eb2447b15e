/** Statutory breaks: `break_segments`, `automatic_break_events` and
    `missing_break_event_groups` (app/services/time_intervals.py). */
module Breaks {
  import opened Calendar
  import opened Intervals

  function Min(a: int, b: int): int { if a <= b then a else b }

  function Max(a: int, b: int): int { if a >= b then a else b }

  function Sum(s: seq<nat>): nat {
    if s == [] then 0 else s[0] + Sum(s[1..])
  }

  // ---- break_segments ----

  /** Closed form for the number of breaks the search loop stops at. */
  function RequiredBreaks(duration: int): nat {
    if duration <= 360 then 0 else (duration + 29) / 390
  }

  /** Full segments as long as every later one can still get a minute. */
  function Segments(work: nat, count: nat): (r: seq<nat>)
    requires count <= work
  {
    if count == 0 then []
    else
      var segment := Min(360, work - (count - 1));
      [segment] + Segments(work - segment, count - 1)
  }

  function SegmentsOf(duration: nat): seq<nat> {
    if duration <= 360 then [duration]
    else
      RequiredBreaksFit(duration);
      Segments(duration - 30 * RequiredBreaks(duration), RequiredBreaks(duration) + 1)
  }

  lemma {:induction false} RequiredBreaksFit(duration: int)
    requires 360 < duration
    ensures var b, work := RequiredBreaks(duration), duration - 30 * RequiredBreaks(duration);
      1 <= b && b + 1 <= work && 360 * b - 29 <= work <= 360 * (b + 1)
  {
    var b := RequiredBreaks(duration);
    assert 390 * b <= duration + 29 < 390 * (b + 1);
  }

  lemma {:induction false} FewerBreaksOverrun(duration: int, b: nat)
    requires b < RequiredBreaks(duration)
    ensures 360 * (b + 1) < duration - 30 * b
  {
    assert 390 * RequiredBreaks(duration) <= duration + 29;
  }

  /** `break_segments`: try break counts upwards, then deal out the working minutes. */
  method BreakSegments(duration: int) returns (segments: seq<int>, breaks: nat)
    ensures breaks == RequiredBreaks(duration)
    ensures segments == if duration <= 360 then [duration] else SegmentsOf(duration)
  {
    if duration <= 360 {
      return [duration], 0;
    }
    hide RequiredBreaks;
    RequiredBreaksFit(duration);
    breaks := 0;
    while true
      invariant breaks <= RequiredBreaks(duration)
      decreases RequiredBreaks(duration) - breaks
    {
      if breaks < RequiredBreaks(duration) {
        FewerBreaksOverrun(duration, breaks);
      }
      var workMinutes := duration - breaks * 30;
      if workMinutes >= breaks + 1 && workMinutes <= (breaks + 1) * 360 {
        break;
      }
      breaks := breaks + 1;
    }
    segments := DealSegments(duration - breaks * 30, breaks + 1);
  }

  /** The second loop of `break_segments`. */
  method DealSegments(work: nat, count: nat) returns (segments: seq<nat>)
    requires count <= work
    ensures segments == Segments(work, count)
  {
    var remainingWork: nat, remainingSegments: nat := work, count;
    segments := [];
    assert [] + Segments(work, count) == Segments(work, count);
    while remainingSegments != 0
      invariant remainingSegments <= remainingWork
      invariant segments + Segments(remainingWork, remainingSegments) == Segments(work, count)
      decreases remainingSegments
    {
      var segment: nat := Min(360, remainingWork - (remainingSegments - 1));
      Assoc(segments, [segment], Segments(remainingWork - segment, remainingSegments - 1));
      segments := segments + [segment];
      remainingWork := remainingWork - segment;
      remainingSegments := remainingSegments - 1;
    }
  }

  lemma {:induction false} SegmentsDealAll(work: nat, count: nat)
    requires 1 <= count <= work <= 360 * count
    ensures |Segments(work, count)| == count && Sum(Segments(work, count)) == work
    ensures forall k :: 0 <= k < count ==> 1 <= Segments(work, count)[k] <= 360
    decreases count
  {
    if count > 1 {
      var segment := Min(360, work - (count - 1));
      SegmentsDealAll(work - segment, count - 1);
      assert Segments(work, count) == [segment] + Segments(work - segment, count - 1);
      assert Segments(work, count)[1..] == Segments(work - segment, count - 1);
    } else {
      assert Segments(work, 1) == [work] + Segments(0, 0);
      assert Segments(work, 1)[1..] == [];
    }
  }

  /** A long shift is cut into breaks + 1 work blocks of 1 to 360 minutes that, with 30 minutes
      for every break, add up to the shift. */
  lemma {:induction false} BreaksPartitionShift(duration: nat)
    requires 360 < duration
    ensures var segments, breaks := SegmentsOf(duration), RequiredBreaks(duration);
      && |segments| == breaks + 1
      && (forall k :: 0 <= k < |segments| ==> 1 <= segments[k] <= 360)
      && Sum(segments) + 30 * breaks == duration
  {
    RequiredBreaksFit(duration);
    SegmentsDealAll(duration - 30 * RequiredBreaks(duration), RequiredBreaks(duration) + 1);
  }

  lemma {:induction false} SumBound(s: seq<nat>, bound: nat)
    requires forall k :: 0 <= k < |s| ==> s[k] <= bound
    ensures Sum(s) <= bound * |s|
  {
    if s != [] {
      SumBound(s[1..], bound);
      assert bound * |s| == bound * |s[1..]| + bound;
    }
  }

  /** No split of a shift into blocks of at most 360 minutes uses fewer 30-minute breaks. */
  lemma {:induction false} FewestBreaks(duration: nat, blocks: seq<nat>)
    requires 1 <= |blocks| && forall k :: 0 <= k < |blocks| ==> blocks[k] <= 360
    requires Sum(blocks) + 30 * (|blocks| - 1) == duration
    ensures RequiredBreaks(duration) <= |blocks| - 1
  {
    SumBound(blocks, 360);
  }

  lemma {:induction false} SumAtLeast(s: seq<nat>)
    requires forall k :: 0 <= k < |s| ==> 1 <= s[k]
    ensures |s| <= Sum(s)
  {
    if s != [] {
      SumAtLeast(s[1..]);
    }
  }

  lemma {:induction false} DealtFirst(work: nat, count: nat, blocks: seq<nat>, extra: nat, k: nat)
    requires |blocks| == count <= work && Sum(blocks) == work + extra && k <= count
    requires forall i :: 0 <= i < count ==> 1 <= blocks[i] <= 360
    ensures |Segments(work, count)| == count && Sum(blocks[..k]) <= Sum(Segments(work, count)[..k]) + extra
    decreases count
  {
    if count > 0 {
      var first, rest := Min(360, work - (count - 1)), blocks[1..];
      SumAtLeast(rest);
      var dealt := Segments(work - first, count - 1);
      assert Segments(work, count) == [first] + dealt;
      DealtFirst(work - first, count - 1, rest, extra + first - blocks[0], if k == 0 then 0 else k - 1);
      if k > 0 {
        assert blocks[..k][1..] == rest[..k - 1];
        assert ([first] + dealt)[..k][1..] == dealt[..k - 1];
      }
    }
  }

  /** The breaks come as late as possible: before each of them at least as much is worked as in any other
      split of the shift into as many blocks of 1 to 360 minutes. */
  lemma {:induction false} BreaksAreLatest(duration: nat, blocks: seq<nat>, k: nat)
    requires 360 < duration && |blocks| == RequiredBreaks(duration) + 1 && k <= |blocks|
    requires forall i :: 0 <= i < |blocks| ==> 1 <= blocks[i] <= 360
    requires Sum(blocks) + 30 * RequiredBreaks(duration) == duration
    ensures |SegmentsOf(duration)| == |blocks| && Sum(blocks[..k]) <= Sum(SegmentsOf(duration)[..k])
  {
    hide RequiredBreaks, Segments;
    RequiredBreaksFit(duration);
    DealtFirst(duration - 30 * RequiredBreaks(duration), RequiredBreaks(duration) + 1, blocks, 0, k);
  }

  // ---- automatic_break_events ----

  /** Both boundaries of every break after each of the given work blocks. */
  function BreakTimes(cursor: nat, blocks: seq<nat>): seq<nat>
    decreases |blocks|
  {
    if blocks == [] then []
    else [cursor + blocks[0], cursor + blocks[0] + 30] + BreakTimes(cursor + blocks[0] + 30, blocks[1..])
  }

  function AutomaticBreaks(start: nat, end: nat): seq<nat>
    requires start <= end
  {
    if RequiredBreaks(end - start) == 0 then []
    else
      var segments := SegmentsOf(end - start);
      BreaksPartitionShift(end - start);
      BreakTimes(start, segments[..|segments| - 1])
  }

  lemma {:induction false} NextBreak(cursor: nat, segments: seq<nat>, k: nat)
    requires k + 1 < |segments|
    ensures var blocks, from := segments[..|segments| - 1], cursor + segments[k];
      BreakTimes(cursor, blocks[k..]) == [from] + [from + 30] + BreakTimes(from + 30, blocks[k + 1..])
  {
    var blocks := segments[..|segments| - 1];
    assert blocks[k..][0] == segments[k] && blocks[k..][1..] == blocks[k + 1..];
  }

  method AutomaticBreakEvents(start: nat, end: nat) returns (result: seq<nat>)
    requires start <= end
    ensures result == AutomaticBreaks(start, end)
  {
    var segments, breaks := BreakSegments(end - start);
    if breaks == 0 {
      return [];
    }
    assert segments == SegmentsOf(end - start);
    BreaksPartitionShift(end - start);
    hide RequiredBreaks, SegmentsOf, BreakTimes;
    result := [];
    var cursor: nat := start;
    ghost var blocks := segments[..|segments| - 1];
    assert blocks[0..] == blocks;
    assert [] + BreakTimes(start, blocks) == BreakTimes(start, blocks);
    for k := 0 to |segments| - 1
      invariant result + BreakTimes(cursor, blocks[k..]) == BreakTimes(start, blocks)
    {
      ghost var from: nat, rest := cursor + segments[k], BreakTimes(cursor + segments[k] + 30, blocks[k + 1..]);
      NextBreak(cursor, segments, k);
      Assoc(result, [from] + [from + 30], rest);
      Assoc(result, [from], [from + 30]);
      cursor := cursor + segments[k];
      result := result + [cursor];
      cursor := cursor + 30;
      result := result + [cursor];
    }
    NoBreakTimes(cursor);
    assert blocks[|blocks|..] == [];
  }

  lemma {:induction false} NoBreakTimes(cursor: nat)
    ensures BreakTimes(cursor, []) == []
  {
  }
}
