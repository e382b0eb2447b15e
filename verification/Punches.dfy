/** Creating punches together with their automatic breaks (app/services/attendance_events.py). */
module Punches {
  import opened Calendar
  import opened Intervals
  import opened Breaks
  import opened Metrics

  /** Times stored for a closed pair of one day. */
  function ClosedAdditions(automaticBreaks: bool, start: nat, end: nat): seq<nat>
    requires start <= end
  {
    [start] + (if automaticBreaks then AutomaticBreaks(start, end) else []) + [end]
  }

  method AddClosedInterval(automaticBreaks: bool, start: nat, end: nat) returns (additions: seq<nat>)
    requires start <= end
    ensures additions == ClosedAdditions(automaticBreaks, start, end)
  {
    additions := [start];
    if automaticBreaks {
      var breaks := AutomaticBreakEvents(start, end);
      additions := additions + breaks;
    }
    additions := additions + [end];
  }

  /** A new row has no id yet and sorts as id 0, before every stored row of the same time. */
  function Fresh(at: nat): Event {
    Event(0, at)
  }

  function DayWith(events: seq<Event>, at: nat): seq<Event> {
    Ordered(OfDay(events, DayOf(at)) + [Fresh(at)])
  }

  function IndexOf(s: seq<Event>, e: Event): (i: nat)
    requires e in s
    ensures i < |s| && s[i] == e
  {
    if s[0] == e then 0 else 1 + IndexOf(s[1..], e)
  }

  function Position(events: seq<Event>, at: nat): (i: nat)
    ensures i < |DayWith(events, at)| && DayWith(events, at)[i] == Fresh(at)
  {
    DayWithHasFresh(events, at);
    IndexOf(DayWith(events, at), Fresh(at))
  }

  lemma {:induction false} DayWithHasFresh(events: seq<Event>, at: nat)
    ensures Fresh(at) in DayWith(events, at)
  {
    var s := OfDay(events, DayOf(at)) + [Fresh(at)];
    OrderedElements(s);
    assert s[|s| - 1] == Fresh(at);
  }

  lemma {:induction false} DayWithSorted(events: seq<Event>, at: nat, i: nat)
    requires i < Position(events, at)
    ensures DayWith(events, at)[i].at <= at
  {
    OrderedSorted(OfDay(events, DayOf(at)) + [Fresh(at)]);
    assert Before(DayWith(events, at)[i], DayWith(events, at)[Position(events, at)]);
  }

  /** The punch that a new one at an odd place closes an interval with. */
  function Previous(events: seq<Event>, at: nat): (prev: nat)
    requires Position(events, at) % 2 == 1
    ensures prev <= at
  {
    DayWithSorted(events, at, Position(events, at) - 1);
    DayWith(events, at)[Position(events, at) - 1].at
  }

  /** Times stored for one new punch: the punch, then breaks back to the punch it closes with. */
  function EventAdditions(automaticBreaks: bool, events: seq<Event>, at: nat): seq<nat> {
    if Position(events, at) % 2 == 1 && automaticBreaks then [at] + AutomaticBreaks(Previous(events, at), at)
    else [at]
  }

  method AddEvent(automaticBreaks: bool, events: seq<Event>, at: nat) returns (additions: seq<nat>)
    ensures additions == EventAdditions(automaticBreaks, events, at)
  {
    hide Position, Previous, AutomaticBreaks;
    additions := [at];
    if Position(events, at) % 2 == 1 && automaticBreaks {
      var breaks := AutomaticBreakEvents(Previous(events, at), at);
      additions := additions + breaks;
    }
  }

  // ---- the work blocks around automatic breaks ----

  function WorkBlocks(cursor: nat, blocks: seq<nat>): seq<WorkInterval>
    decreases |blocks|
  {
    if blocks == [] then []
    else [WorkInterval(cursor, cursor + blocks[0])] + WorkBlocks(cursor + blocks[0] + 30, blocks[1..])
  }

  function Boundaries(cursor: nat, blocks: seq<nat>): seq<nat>
    decreases |blocks|
  {
    if blocks == [] then []
    else [cursor, cursor + blocks[0]] + Boundaries(cursor + blocks[0] + 30, blocks[1..])
  }

  lemma {:induction false} BreaksAreBoundaries(cursor: nat, blocks: seq<nat>)
    requires blocks != []
    ensures Boundaries(cursor, blocks)
         == [cursor] + BreakTimes(cursor, blocks[..|blocks| - 1]) + [cursor + Sum(blocks) + 30 * (|blocks| - 1)]
    decreases |blocks|
  {
    var next, rest := cursor + blocks[0] + 30, blocks[1..];
    if rest == [] {
      assert blocks[..0] == [];
      assert Boundaries(cursor, blocks) == [cursor, cursor + blocks[0]] + [];
    } else {
      BreaksAreBoundaries(next, rest);
      var most, most' := blocks[..|blocks| - 1], rest[..|rest| - 1];
      assert most[1..] == most' && most[0] == blocks[0];
      var last := [next + Sum(rest) + 30 * (|rest| - 1)];
      assert BreakTimes(cursor, most) == [cursor + blocks[0], next] + BreakTimes(next, most');
      assert Boundaries(cursor, blocks) == [cursor, cursor + blocks[0]] + ([next] + BreakTimes(next, most') + last);
    }
  }

  ghost predicate BlocksFit(cursor: nat, blocks: seq<nat>, end: nat) {
    && (forall k :: 0 <= k < |blocks| ==> 1 <= blocks[k])
    && (blocks != [] ==> cursor + Sum(blocks) + 30 * (|blocks| - 1) <= end)
  }

  lemma {:induction false} BoundariesIncrease(cursor: nat, blocks: seq<nat>, end: nat)
    requires BlocksFit(cursor, blocks, end)
    ensures var w := Boundaries(cursor, blocks);
      Increasing(w) && |w| == 2 * |blocks| && forall i :: 0 <= i < |w| ==> cursor <= w[i] <= end
    decreases |blocks|
  {
    if blocks != [] {
      var next := cursor + blocks[0] + 30;
      BoundariesIncrease(next, blocks[1..], end);
      assert Boundaries(cursor, blocks) == [cursor, cursor + blocks[0]] + Boundaries(next, blocks[1..]);
    }
  }

  lemma {:induction false} BlocksTotal(cursor: nat, blocks: seq<nat>)
    ensures TotalMinutes(WorkBlocks(cursor, blocks)) == Sum(blocks)
    decreases |blocks|
  {
    if blocks != [] {
      BlocksTotal(cursor + blocks[0] + 30, blocks[1..]);
    }
  }

  ghost predicate AllOn(w: seq<nat>, day: nat) {
    forall i :: 0 <= i < |w| ==> DayOf(w[i]) == day
  }

  lemma {:induction false} AllOnTail(w: seq<nat>, day: nat)
    requires AllOn(w, day) && |w| >= 2
    ensures DayOf(w[0]) == day && DayOf(w[1]) == day && AllOn(w[2..], day)
  {
  }

  lemma {:induction false} BoundariesPair(cursor: nat, blocks: seq<nat>, day: nat)
    requires forall k :: 0 <= k < |blocks| ==> 1 <= blocks[k]
    requires AllOn(Boundaries(cursor, blocks), day)
    ensures PairTimes(Boundaries(cursor, blocks)) == WorkBlocks(cursor, blocks)
    decreases |blocks|
  {
    hide DayOf;
    if blocks != [] {
      var w, tail := Boundaries(cursor, blocks), Boundaries(cursor + blocks[0] + 30, blocks[1..]);
      assert w == [cursor, cursor + blocks[0]] + tail && w[2..] == tail;
      AllOnTail(w, day);
      assert w[0] == cursor && w[1] == cursor + blocks[0];
      DayLength(cursor, cursor + blocks[0]);
      BoundariesPair(cursor + blocks[0] + 30, blocks[1..], day);
    }
  }

  lemma {:induction false} SegmentsFit(start: nat, end: nat)
    requires start < end
    ensures var blocks := SegmentsOf(end - start);
      && |blocks| == RequiredBreaks(end - start) + 1 && (forall k :: 0 <= k < |blocks| ==> 1 <= blocks[k])
      && start + Sum(blocks) + 30 * (|blocks| - 1) == end
  {
    if end - start > 360 {
      BreaksPartitionShift(end - start);
    } else {
      assert SegmentsOf(end - start) == [end - start] && [end - start][1..] == [];
    }
  }

  lemma {:induction false} AutomaticAsBreakTimes(start: nat, end: nat)
    requires start < end
    ensures var blocks := SegmentsOf(end - start);
      blocks != [] && AutomaticBreaks(start, end) == BreakTimes(start, blocks[..|blocks| - 1])
  {
    var blocks := SegmentsOf(end - start);
    hide SegmentsOf, RequiredBreaks;
    SegmentsFit(start, end);
    if RequiredBreaks(end - start) == 0 {
      assert blocks[..0] == [];
    }
  }

  /** A closed interval is stored as the boundaries of its work blocks. */
  lemma {:induction false} ClosedAreBoundaries(start: nat, end: nat)
    requires start < end
    ensures ClosedAdditions(true, start, end) == Boundaries(start, SegmentsOf(end - start))
  {
    hide Boundaries, SegmentsOf, RequiredBreaks, AutomaticBreaks, BreakTimes;
    SegmentsFit(start, end);
    AutomaticAsBreakTimes(start, end);
    BreaksAreBoundaries(start, SegmentsOf(end - start));
  }

  /** What closing an interval stores: its boundaries pair up to work blocks of at most 360 minutes. */
  lemma {:induction false} ClosedPairs(start: nat, end: nat)
    requires start < end && DayOf(start) == DayOf(end)
    ensures var w, blocks := ClosedAdditions(true, start, end), SegmentsOf(end - start);
      && |w| % 2 == 0 && Increasing(w)
      && (forall t :: t in w ==> start <= t <= end)
      && PairTimes(w) == WorkBlocks(start, blocks)
      && TotalMinutes(PairTimes(w)) == end - start - 30 * RequiredBreaks(end - start)
  {
    hide ClosedAdditions, SegmentsOf, DayOf, RequiredBreaks, PairTimes;
    var w, blocks := ClosedAdditions(true, start, end), SegmentsOf(end - start);
    SegmentsFit(start, end);
    ClosedAreBoundaries(start, end);
    BoundariesIncrease(start, blocks, end);
    forall i | 0 <= i < |w| ensures DayOf(w[i]) == DayOf(start) {
      DayMonotone(start, w[i]); DayMonotone(w[i], end);
    }
    BoundariesPair(start, blocks, DayOf(start));
    BlocksTotal(start, blocks);
  }

  // ---- the rest of the day is preserved ----

  lemma {:induction false} DayIntervalsFromTimes(events: seq<Event>, day: nat)
    ensures DayIntervals(events, day) == PairTimes(Times(OfDay(Ordered(events), day)))
  {
    OrderedSorted(events);
    PairRowsOfDay(Ordered(events), day);
    PairRowsAreTimes(OfDay(Ordered(events), day));
  }

  /** Replacing the pair at an even place of an increasing day list by a block with the same ends. */
  lemma {:induction false} ReplacePair(pre: seq<nat>, a: nat, b: nat, post: seq<nat>, block: seq<nat>, day: nat)
    requires |pre| % 2 == 0 && forall i :: 0 <= i < |pre| ==> DayOf(pre[i]) == day
    requires a < b && DayOf(a) == day && DayOf(b) == day
    requires |block| % 2 == 0 && forall i :: 0 <= i < |block| ==> DayOf(block[i]) == day
    ensures PairTimes(pre + [a, b] + post) == PairTimes(pre) + [WorkInterval(a, b)] + PairTimes(post)
    ensures PairTimes(pre + block + post) == PairTimes(pre) + PairTimes(block) + PairTimes(post)
  {
    OnePair(a, b, post);
    hide DayOf, PairTimes;
    Assoc(pre, [a, b], post);
    PairTimesBlock(pre, [a, b] + post, day);
    Assoc(PairTimes(pre), [WorkInterval(a, b)], PairTimes(post));
    Assoc(pre, block, post);
    PairTimesBlock(pre, block + post, day);
    PairTimesBlock(block, post, day);
    Assoc(PairTimes(pre), PairTimes(block), PairTimes(post));
  }

  lemma {:induction false} OnePair(a: nat, b: nat, post: seq<nat>)
    requires a < b && DayOf(a) == DayOf(b)
    ensures PairTimes([a, b] + post) == [WorkInterval(a, b)] + PairTimes(post)
  {
    DayLength(a, b);
    assert ([a, b] + post)[2..] == post;
  }

  lemma {:induction false} ReplaceIncreasing(pre: seq<nat>, a: nat, b: nat, post: seq<nat>, block: seq<nat>)
    requires Increasing(pre + [a, b] + post) && Increasing(block)
    requires forall t :: t in block ==> a <= t <= b
    ensures Increasing(pre + block + post)
  {
    var ts, woven := pre + [a, b] + post, pre + block + post;
    var p, q := |pre|, |pre| + |block|;
    assert ts[p] == a && ts[p + 1] == b;
    forall i | 0 <= i < p ensures woven[i] == ts[i] < a {
    }
    forall i | p <= i < q ensures woven[i] == block[i - p] && a <= woven[i] <= b {
      assert block[i - p] in block;
    }
    forall i | q <= i < |woven| ensures woven[i] == ts[i - |block| + 2] && b < woven[i] {
    }
  }

  /** Times of the day with the new punch, cut at the pair it closes. */
  lemma {:induction false} DayWithTimes(events: seq<Event>, at: nat)
    requires Distinct(events + [Fresh(at)])
    ensures var ts := Times(DayWith(events, at));
      && Increasing(ts)
      && (forall i :: 0 <= i < |ts| ==> DayOf(ts[i]) == DayOf(at))
      && (forall t :: t in ts <==> t in DayTimes(events, DayOf(at)) || t == at)
      && DayIntervals(events + [Fresh(at)], DayOf(at)) == PairTimes(ts)
  {
    var all, day := events + [Fresh(at)], DayOf(at);
    OfDayConcat(events, [Fresh(at)], day);
    OrderedOfDay(all, day);
    assert OfDay(all, day) == OfDay(events, day) + [Fresh(at)];
    DayTimesIncreasing(all, day);
    DayRowsTimes(all, day);
    DayIntervalsFromTimes(all, day);
    var rows := DayWith(events, at);
    OfDayElements(Ordered(all), day);
    forall i | 0 <= i < |rows| ensures DayOf(Times(rows)[i]) == day { assert rows[i] in rows; }
    forall t ensures t in DayTimes(all, day) <==> t in DayTimes(events, day) || t == at {
      if t in DayTimes(all, day) {
        var e :| e in all && e.at == t;
        assert e in events || e == Fresh(at);
      }
      if t in DayTimes(events, day) {
        var e :| e in events && e.at == t;
        assert e in all;
      }
      assert Fresh(at) in all;
    }
  }

  /** `after` holds the old rows and everything the new punch adds. */
  ghost predicate Adds(events: seq<Event>, additions: seq<nat>, after: seq<Event>) {
    Distinct(after) && forall day :: DayTimes(after, day) == DayTimes(events, day) + AddedOn(additions, day)
  }

  ghost function AddedOn(additions: seq<nat>, day: nat): set<nat> {
    set t | t in additions && DayOf(t) == day
  }

  lemma {:induction false} TimesAfter(events: seq<Event>, at: nat, after: seq<Event>, pre: seq<nat>, post: seq<nat>)
    requires Distinct(events + [Fresh(at)]) && Position(events, at) % 2 == 1
    requires Adds(events, EventAdditions(true, events, at), after)
    requires Previous(events, at) < at && DayOf(Previous(events, at)) == DayOf(at)
    requires Times(DayWith(events, at)) == pre + [Previous(events, at), at] + post
    ensures Times(OfDay(Ordered(after), DayOf(at))) == pre + ClosedAdditions(true, Previous(events, at), at) + post
  {
    hide DayOf, Position, DayWith, Previous, AutomaticBreaks;
    var day, prev := DayOf(at), Previous(events, at);
    var block := ClosedAdditions(true, prev, at);
    DayWithTimes(events, at);
    ClosedPairs(prev, at);
    BlockInDay(block, prev, at);
    ReplacedElements(pre, prev, at, post, AutomaticBreaks(prev, at));
    hide Increasing, PairTimes, DayTimes, Times, OfDay, Ordered;
    ReplaceIncreasing(pre, prev, at, post, block);
    DayTimesIncreasing(after, day);
    DayRowsTimes(after, day);
    hide ClosedAdditions;
    forall t ensures t in pre + block + post <==> t in DayTimes(after, day) {
      assert t in EventAdditions(true, events, at) <==> t == at || t in AutomaticBreaks(prev, at);
    }
    SameElementsSameOrder(pre + block + post, Times(OfDay(Ordered(after), day)));
  }

  /** A punch that closes an interval, with automatic breaks: the day's earlier pairs stay, the closed
      interval becomes its work blocks, and the later pairs are those they would be without breaks. */
  lemma {:induction false} AddEventPreservesDay(events: seq<Event>, at: nat, after: seq<Event>)
    requires Distinct(events + [Fresh(at)]) && Position(events, at) % 2 == 1
    requires Adds(events, EventAdditions(true, events, at), after)
    ensures var day, k, prev := DayOf(at), Position(events, at) / 2, Previous(events, at);
      var plain, actual := DayIntervals(events + [Fresh(at)], day), DayIntervals(after, day);
      && prev < at && DayOf(prev) == day
      && k < |plain| && plain[k] == WorkInterval(prev, at)
      && actual == plain[..k] + WorkBlocks(prev, SegmentsOf(at - prev)) + plain[k + 1..]
  {
    hide *;
    var day, n, prev := DayOf(at), Position(events, at), Previous(events, at);
    DayWithTimes(events, at);
    CutAtPair(events, at);
    var ts := Times(DayWith(events, at));
    var pre, post, block := ts[..n - 1], ts[n + 1..], ClosedAdditions(true, prev, at);
    ClosedPairs(prev, at);
    BlockInDay(block, prev, at);
    ReplacePair(pre, prev, at, post, block, day);
    IncreasingPrefix(ts, n - 1);
    EvenPairs(pre, day);
    TimesAfter(events, at, after, pre, post);
    DayIntervalsFromTimes(after, day);
    CutOut(PairTimes(pre), WorkInterval(prev, at), PairTimes(post));
  }

  lemma {:induction false} CutAtPair(events: seq<Event>, at: nat)
    requires Position(events, at) % 2 == 1 && Increasing(Times(DayWith(events, at)))
    requires var ts := Times(DayWith(events, at)); forall i :: 0 <= i < |ts| ==> DayOf(ts[i]) == DayOf(at)
    ensures var ts, n, prev := Times(DayWith(events, at)), Position(events, at), Previous(events, at);
      && 1 <= n < |ts| && ts == ts[..n - 1] + [prev, at] + ts[n + 1..]
      && prev < at && DayOf(prev) == DayOf(at)
  {
    hide DayOf;
    var ts, n := Times(DayWith(events, at)), Position(events, at);
    assert ts[n - 1] == Previous(events, at) && ts[n] == at;
  }

  lemma {:induction false} IncreasingPrefix(ts: seq<nat>, n: nat)
    requires n <= |ts| && Increasing(ts)
    ensures Increasing(ts[..n])
  {
  }

  lemma {:induction false} CutOut<T>(a: seq<T>, x: T, b: seq<T>)
    ensures var s := a + [x] + b;
      s[|a|] == x && s[..|a|] == a && s[|a| + 1..] == b
  {
  }

  lemma {:induction false} BlockInDay(block: seq<nat>, a: nat, b: nat)
    requires DayOf(a) == DayOf(b) && forall t :: t in block ==> a <= t <= b
    ensures forall i :: 0 <= i < |block| ==> DayOf(block[i]) == DayOf(a)
    ensures forall t :: t in block ==> DayOf(t) == DayOf(a)
  {
    forall t | t in block ensures DayOf(t) == DayOf(a) {
      DayMonotone(a, t); DayMonotone(t, b);
    }
  }

  lemma {:induction false} EvenPairs(pre: seq<nat>, day: nat)
    requires |pre| % 2 == 0 && Increasing(pre) && forall i :: 0 <= i < |pre| ==> DayOf(pre[i]) == day
    ensures |PairTimes(pre)| == |pre| / 2
    decreases |pre|
  {
    hide DayOf;
    if pre != [] {
      assert |pre| >= 2;
      DayLength(pre[0], pre[1]);
      EvenPairs(pre[2..], day);
    }
  }

  lemma {:induction false} ReplacedElements(pre: seq<nat>, a: nat, b: nat, post: seq<nat>, breaks: seq<nat>)
    ensures forall t :: t in pre + ([a] + breaks + [b]) + post <==> t in pre + [a, b] + post || t in breaks
  {
  }

  lemma {:induction false} ReplaceTotal(plain: seq<WorkInterval>, k: nat, blocks: seq<WorkInterval>)
    requires k < |plain| && plain[k].start <= plain[k].end
    ensures TotalMinutes(plain[..k] + blocks + plain[k + 1..])
         == TotalMinutes(plain) - plain[k].Minutes() + TotalMinutes(blocks)
  {
    assert plain == plain[..k] + [plain[k]] + plain[k + 1..];
    TotalConcat(plain[..k] + [plain[k]], plain[k + 1..]);
    TotalConcat(plain[..k], [plain[k]]);
    TotalConcat(plain[..k] + blocks, plain[k + 1..]);
    TotalConcat(plain[..k], blocks);
    assert [plain[k]][1..] == [];
  }

  /** Each automatic break costs exactly 30 worked minutes, and no others are lost. */
  lemma {:induction false} BreaksCostThirtyMinutes(events: seq<Event>, at: nat, after: seq<Event>)
    requires Distinct(events + [Fresh(at)]) && Position(events, at) % 2 == 1
    requires Adds(events, EventAdditions(true, events, at), after)
    ensures var day := DayOf(at);
      TotalMinutes(DayIntervals(after, day))
        == TotalMinutes(DayIntervals(events + [Fresh(at)], day)) - 30 * RequiredBreaks(at - Previous(events, at))
  {
    hide DayOf, EventAdditions, Adds, ClosedAdditions, Position, Previous, DayIntervals;
    var prev := Previous(events, at);
    AddEventPreservesDay(events, at, after);
    ClosedPairs(prev, at);
    ReplaceTotal(DayIntervals(events + [Fresh(at)], DayOf(at)), Position(events, at) / 2,
                 WorkBlocks(prev, SegmentsOf(at - prev)));
  }
}
