/** Re-pairing a sheet into which breaks were inserted: if the times added to each recorded interval come
    in order, that interval falls into the pieces between them and every other interval stays. */
module Weaving {
  import opened Calendar
  import opened Intervals
  import opened Breaks
  import opened Backfill
  import opened Metrics
  import opened Sheets

  function Flat(groups: seq<seq<nat>>): seq<nat> {
    if groups == [] then [] else groups[0] + Flat(groups[1..])
  }

  lemma {:induction false} FlatConcat(a: seq<seq<nat>>, b: seq<seq<nat>>)
    ensures Flat(a + b) == Flat(a) + Flat(b)
  {
    if a == [] {
      assert a + b == b;
    } else {
      assert (a + b)[1..] == a[1..] + b;
      FlatConcat(a[1..], b);
      Assoc(a[0], Flat(a[1..]), Flat(b));
    }
  }

  lemma {:induction false} FlatElements(groups: seq<seq<nat>>, t: nat)
    ensures t in Flat(groups) <==> exists k :: 0 <= k < |groups| && t in groups[k]
  {
    if groups != [] {
      FlatElements(groups[1..], t);
      if k :| 0 <= k < |groups| && t in groups[k] {
        if k > 0 {
          assert groups[1..][k - 1] == groups[k];
        }
      }
      if k :| 0 <= k < |groups[1..]| && t in groups[1..][k] {
        assert groups[k + 1] == groups[1..][k];
      }
    }
  }

  /** Times in order, pairwise, strictly inside the interval. */
  ghost predicate GoodCut(x: WorkInterval, cut: seq<nat>) {
    |cut| % 2 == 0 && Increasing(cut) && forall t :: t in cut ==> Inside(x, t)
  }

  ghost predicate GoodCuts(s: seq<WorkInterval>, cuts: seq<seq<nat>>) {
    |s| == |cuts| && forall i :: 0 <= i < |s| ==> GoodCut(s[i], cuts[i])
  }

  /** The pieces of an interval between the breaks of a cut. */
  function CutInterval(x: WorkInterval, cut: seq<nat>): (r: seq<WorkInterval>)
    ensures r != []
    decreases |cut|
  {
    if |cut| < 2 then [x] else [WorkInterval(x.start, cut[0])] + CutInterval(WorkInterval(cut[1], x.end), cut[2..])
  }

  function CutAll(s: seq<WorkInterval>, cuts: seq<seq<nat>>): seq<WorkInterval>
    requires |s| == |cuts|
  {
    if s == [] then [] else CutInterval(s[0], cuts[0]) + CutAll(s[1..], cuts[1..])
  }

  lemma {:induction false} CutAllConcat(s: seq<WorkInterval>, t: seq<WorkInterval>, c: seq<seq<nat>>, d: seq<seq<nat>>)
    requires |s| == |c| && |t| == |d|
    ensures CutAll(s + t, c + d) == CutAll(s, c) + CutAll(t, d)
  {
    if s == [] {
      assert s + t == t && c + d == d;
    } else {
      assert (s + t)[1..] == s[1..] + t && (c + d)[1..] == c[1..] + d;
      CutAllConcat(s[1..], t, c[1..], d);
      Assoc(CutInterval(s[0], c[0]), CutAll(s[1..], c[1..]), CutAll(t, d));
    }
  }

  lemma {:induction false} CutTail(x: WorkInterval, cut: seq<nat>)
    requires GoodCut(x, cut) && |cut| >= 2
    ensures cut[0] < cut[1] && Inside(x, cut[0]) && Inside(x, cut[1])
    ensures GoodCut(WorkInterval(cut[1], x.end), cut[2..])
  {
    assert cut[0] in cut && cut[1] in cut;
    forall t | t in cut[2..] ensures cut[1] < t < x.end {
      var i :| 0 <= i < |cut[2..]| && cut[2..][i] == t;
      assert cut[i + 2] == t && cut[i + 2] in cut && cut[1] < cut[i + 2];
    }
  }

  /** The pieces lie inside the interval, in order, and lose the minutes of the breaks. */
  lemma {:induction false} CutPieces(x: WorkInterval, cut: seq<nat>)
    requires x.start < x.end && DayOf(x.start) == DayOf(x.end) && GoodCut(x, cut)
    ensures var p := CutInterval(x, cut);
      Chain(p) && p[0].start == x.start && Last(p).end == x.end
      && TotalMinutes(p) == x.Minutes() - BreakMinutes(cut)
    decreases |cut|
  {
    hide DayOf, GoodCut;
    if |cut| < 2 {
      NoCut(x, cut);
      assert [x][1..] == [];
    } else {
      CutTail(x, cut);
      var rest := WorkInterval(cut[1], x.end);
      var first := WorkInterval(x.start, cut[0]);
      DayMonotone(x.start, cut[0]); DayMonotone(cut[0], cut[1]); DayMonotone(cut[1], x.end);
      CutPieces(rest, cut[2..]);
      var p := CutInterval(rest, cut[2..]);
      OneChain(first);
      ChainJoin([first], p);
      assert ([first] + p)[1..] == p;
    }
  }

  /** Cutting keeps a sheet in order and between the same ends. */
  lemma {:induction false} CutAllChain(s: seq<WorkInterval>, cuts: seq<seq<nat>>)
    requires Chain(s) && GoodCuts(s, cuts)
    ensures Chain(CutAll(s, cuts))
    ensures s != [] ==> CutAll(s, cuts) != [] && CutAll(s, cuts)[0].start == s[0].start && Last(CutAll(s, cuts)).end == Last(s).end
  {
    hide GoodCut, CutInterval, DayOf;
    if s != [] {
      assert s == [s[0]] + s[1..];
      ChainSplit([s[0]], s[1..]);
      CutPieces(s[0], cuts[0]);
      GoodCutsTail(s, cuts);
      CutAllChain(s[1..], cuts[1..]);
      var p, rest := CutInterval(s[0], cuts[0]), CutAll(s[1..], cuts[1..]);
      if s[1..] == [] {
        assert p + rest == p;
      } else {
        assert Last(s) == Last(s[1..]) && Last(p + rest) == Last(rest);
      }
      hide Chain;
      ChainJoin(p, rest);
    }
  }

  lemma {:induction false} NoCut(x: WorkInterval, cut: seq<nat>)
    requires GoodCut(x, cut) && |cut| < 2
    ensures cut == []
  {
  }

  lemma {:induction false} OneChain(x: WorkInterval)
    requires x.start < x.end && DayOf(x.start) == DayOf(x.end)
    ensures Chain([x])
  {
  }

  // ---- times ----

  function Woven(x: WorkInterval, cut: seq<nat>): seq<nat> {
    [x.start] + cut + [x.end]
  }

  /** The times of a sheet with the cut of every interval put in its place. */
  function Weave(ts: seq<nat>, cuts: seq<seq<nat>>): seq<nat> {
    if |ts| < 2 then ts
    else if DayOf(ts[0]) != DayOf(ts[1]) || cuts == [] then [ts[0]] + Weave(ts[1..], cuts)
    else Woven(WorkInterval(ts[0], ts[1]), cuts[0]) + Weave(ts[2..], cuts[1..])
  }

  lemma {:induction false} WovenBlock(x: WorkInterval, cut: seq<nat>)
    requires x.start < x.end && DayOf(x.start) == DayOf(x.end) && GoodCut(x, cut)
    ensures var w := Woven(x, cut);
      && w != [] && |w| % 2 == 0 && Increasing(w) && w[0] == x.start && Last(w) == x.end
      && (forall i :: 0 <= i < |w| ==> DayOf(w[i]) == DayOf(x.start))
  {
    hide DayOf;
    var w := Woven(x, cut);
    forall i | 0 <= i < |cut| ensures x.start < cut[i] < x.end && w[i + 1] == cut[i] {
      assert cut[i] in cut;
    }
    forall i, j | 0 <= i < j < |w| ensures w[i] < w[j] {
      assert i == 0 || w[i] == cut[i - 1];
      assert j == |w| - 1 || w[j] == cut[j - 1];
    }
    forall i | 0 <= i < |w| ensures DayOf(w[i]) == DayOf(x.start) {
      assert i == 0 || i == |w| - 1 || w[i] == cut[i - 1];
      DayMonotone(x.start, w[i]); DayMonotone(w[i], x.end);
    }
  }

  lemma {:induction false} WovenPairs(x: WorkInterval, cut: seq<nat>)
    requires x.start < x.end && DayOf(x.start) == DayOf(x.end) && GoodCut(x, cut)
    ensures PairTimes(Woven(x, cut)) == CutInterval(x, cut)
    decreases |cut|
  {
    hide DayOf, GoodCut;
    var w := Woven(x, cut);
    if |cut| < 2 {
      NoCut(x, cut);
      assert w == [x.start, x.end] && w[2..] == [];
      DayLength(x.start, x.end);
    } else {
      CutTail(x, cut);
      var rest := WorkInterval(cut[1], x.end);
      DayMonotone(x.start, cut[0]); DayMonotone(cut[0], cut[1]); DayMonotone(cut[1], x.end);
      WovenPairs(rest, cut[2..]);
      assert w[2..] == Woven(rest, cut[2..]);
      DayLength(x.start, cut[0]);
    }
  }

  lemma {:induction false} JoinIncreasing(a: seq<nat>, b: seq<nat>)
    requires Increasing(a) && Increasing(b) && a != []
    requires forall t :: t in b ==> Last(a) < t
    ensures Increasing(a + b)
    ensures forall t :: t in a + b ==> a[0] <= t
  {
    forall i, j | 0 <= i < j < |a + b| ensures (a + b)[i] < (a + b)[j] {
      if j >= |a| {
        assert b[j - |a|] in b;
        assert i < |a| - 1 ==> a[i] < Last(a);
      }
    }
    forall t | t in a + b ensures a[0] <= t {
      if t in a {
        var i :| 0 <= i < |a| && a[i] == t;
        assert i == 0 || a[0] < a[i];
      } else {
        assert t in b;
        assert |a| == 1 || a[0] < Last(a);
      }
    }
  }

  lemma {:induction false} PairTimesStep(ts: seq<nat>)
    requires Increasing(ts) && |ts| >= 2
    ensures PairTimes(ts)
         == if DayOf(ts[0]) != DayOf(ts[1]) then PairTimes(ts[1..])
            else [WorkInterval(ts[0], ts[1])] + PairTimes(ts[2..])
    ensures Increasing(ts[1..]) && Increasing(ts[2..]) && ts[0] < ts[1]
  {
    if DayOf(ts[0]) == DayOf(ts[1]) {
      DayLength(ts[0], ts[1]);
    }
  }

  lemma {:induction false} GoodCutsTail(s: seq<WorkInterval>, cuts: seq<seq<nat>>)
    requires GoodCuts(s, cuts) && s != []
    ensures cuts != [] && GoodCut(s[0], cuts[0]) && GoodCuts(s[1..], cuts[1..])
  {
    hide GoodCut;
  }

  /** Pairing the woven times gives the pieces. */
  lemma {:induction false} WeavePairs(ts: seq<nat>, cuts: seq<seq<nat>>)
    requires Increasing(ts) && GoodCuts(PairTimes(ts), cuts)
    ensures PairTimes(Weave(ts, cuts)) == CutAll(PairTimes(ts), cuts)
    ensures ts != [] ==> Weave(ts, cuts) != [] && Weave(ts, cuts)[0] == ts[0]
    decreases |ts|
  {
    hide DayOf, Woven, GoodCut, Increasing, PairTimes, GoodCuts;
    if |ts| < 2 {
      ShortSheet(ts, cuts);
    } else {
      PairTimesStep(ts);
      if DayOf(ts[0]) != DayOf(ts[1]) {
        WeavePairs(ts[1..], cuts);
        var rest := Weave(ts[1..], cuts);
        LoneTime(ts[0], rest);
      } else {
        var x := WorkInterval(ts[0], ts[1]);
        var tail := PairTimes(ts[2..]);
        assert ([x] + tail)[1..] == tail;
        GoodCutsTail([x] + tail, cuts);
        WeavePairs(ts[2..], cuts[1..]);
        WovenBlock(x, cuts[0]);
        WovenPairs(x, cuts[0]);
        PairTimesBlock(Woven(x, cuts[0]), Weave(ts[2..], cuts[1..]), DayOf(x.start));
      }
    }
  }

  lemma {:induction false} ShortSheet(ts: seq<nat>, cuts: seq<seq<nat>>)
    requires |ts| < 2 && GoodCuts(PairTimes(ts), cuts)
    ensures PairTimes(ts) == [] && cuts == [] && Weave(ts, cuts) == ts
  {
  }

  lemma {:induction false} LoneTime(t: nat, rest: seq<nat>)
    requires rest != [] && DayOf(t) != DayOf(rest[0])
    ensures PairTimes([t] + rest) == PairTimes(rest)
  {
    hide DayOf;
    assert ([t] + rest)[1..] == rest;
  }

  lemma {:induction false} WeaveIncreasing(ts: seq<nat>, cuts: seq<seq<nat>>)
    requires Increasing(ts) && GoodCuts(PairTimes(ts), cuts)
    ensures Increasing(Weave(ts, cuts))
    ensures forall t :: t in Weave(ts, cuts) ==> ts != [] && ts[0] <= t
    decreases |ts|
  {
    hide DayOf, Woven, GoodCut, PairTimes, GoodCuts;
    if |ts| >= 2 {
      PairTimesStep(ts);
      if DayOf(ts[0]) != DayOf(ts[1]) {
        WeaveIncreasing(ts[1..], cuts);
        JoinIncreasing([ts[0]], Weave(ts[1..], cuts));
      } else {
        var x := WorkInterval(ts[0], ts[1]);
        var tail := PairTimes(ts[2..]);
        assert ([x] + tail)[1..] == tail;
        GoodCutsTail([x] + tail, cuts);
        WeaveIncreasing(ts[2..], cuts[1..]);
        WovenBlock(x, cuts[0]);
        JoinIncreasing(Woven(x, cuts[0]), Weave(ts[2..], cuts[1..]));
      }
    }
  }

  lemma {:induction false} WeaveElements(ts: seq<nat>, cuts: seq<seq<nat>>)
    requires Increasing(ts) && GoodCuts(PairTimes(ts), cuts)
    ensures forall t :: t in Weave(ts, cuts) <==> t in ts || t in Flat(cuts)
    decreases |ts|
  {
    hide DayOf, GoodCut, PairTimes, GoodCuts, Increasing;
    if |ts| < 2 {
      ShortSheet(ts, cuts);
    } else {
      PairTimesStep(ts);
      if DayOf(ts[0]) != DayOf(ts[1]) {
        WeaveElements(ts[1..], cuts);
        assert ts == [ts[0]] + ts[1..];
      } else {
        var x := WorkInterval(ts[0], ts[1]);
        var tail := PairTimes(ts[2..]);
        assert ([x] + tail)[1..] == tail;
        GoodCutsTail([x] + tail, cuts);
        WeaveElements(ts[2..], cuts[1..]);
        assert ts == [ts[0], ts[1]] + ts[2..];
      }
    }
  }

  // ---- stored rows ----

  lemma {:induction false} OrderedTimes(events: seq<Event>)
    requires Distinct(events)
    ensures Increasing(Times(Ordered(events)))
    ensures forall t :: t in Times(Ordered(events)) <==> t in Times(events)
  {
    OrderedDistinct(events); OrderedSorted(events);
    SortedDistinct(Ordered(events)); StrictSorted(Ordered(events));
    OrderedElements(events);
    forall t ensures t in Times(Ordered(events)) <==> t in Times(events) {
      if t in Times(events) {
        var i :| 0 <= i < |events| && Times(events)[i] == t;
        assert events[i] in Ordered(events);
        var j :| 0 <= j < |Ordered(events)| && Ordered(events)[j] == events[i];
        assert Times(Ordered(events))[j] == t;
      }
      if t in Times(Ordered(events)) {
        var i :| 0 <= i < |Ordered(events)| && Times(Ordered(events))[i] == t;
        assert Ordered(events)[i] in events;
        var j :| 0 <= j < |events| && events[j] == Ordered(events)[i];
        assert Times(events)[j] == t;
      }
    }
  }

  /** `after` holds the times of `before` and the added ones. */
  ghost predicate AddsTimes(before: seq<Event>, after: seq<Event>, added: seq<nat>) {
    && Distinct(before) && Distinct(after)
    && forall t :: t in Times(after) <==> t in Times(before) || t in added
  }

  /** Re-pairing a sheet after adding times that cut each interval in order. */
  lemma {:induction false} RepairedByCuts(before: seq<Event>, after: seq<Event>, cuts: seq<seq<nat>>)
    requires GoodCuts(PairEvents(before), cuts) && AddsTimes(before, after, Flat(cuts))
    ensures PairEvents(after) == CutAll(PairEvents(before), cuts)
  {
    hide GoodCuts, Weave, Flat, PairRows, Ordered, PairTimes;
    var ts := Times(Ordered(before));
    OrderedTimes(before); OrderedTimes(after);
    PairRowsAreTimes(Ordered(before)); PairRowsAreTimes(Ordered(after));
    WeaveIncreasing(ts, cuts);
    WeaveElements(ts, cuts);
    WeavePairs(ts, cuts);
    SameElementsSameOrder(Weave(ts, cuts), Times(Ordered(after)));
  }

  /** Two sheets with the same times have the same intervals. */
  lemma {:induction false} SameTimesSameIntervals(a: seq<Event>, ts: seq<nat>)
    requires Distinct(a) && Increasing(ts) && forall t :: t in ts <==> t in Times(a)
    ensures PairEvents(a) == PairTimes(ts)
  {
    hide PairRows, Ordered, PairTimes;
    OrderedTimes(a);
    PairRowsAreTimes(Ordered(a));
    SameElementsSameOrder(ts, Times(Ordered(a)));
  }

  lemma {:induction false} PairTimesApart(ts: seq<nat>, t: nat)
    requires Increasing(ts) && t in ts
    ensures forall x :: x in PairTimes(ts) ==> !Inside(x, t)
    decreases |ts|
  {
    hide DayOf, PairTimes;
    if |ts| < 2 {
      NoPairs(ts);
    } else {
      PairTimesStep(ts);
      if DayOf(ts[0]) != DayOf(ts[1]) {
        PairLater(ts[1..]);
        if t in ts[1..] { PairTimesApart(ts[1..], t); }
      } else {
        PairLater(ts[2..]);
        if t in ts[2..] { PairTimesApart(ts[2..], t); }
      }
    }
  }

  lemma {:induction false} NoPairs(ts: seq<nat>)
    requires |ts| < 2
    ensures PairTimes(ts) == []
  {
  }

  lemma {:induction false} PairLater(ts: seq<nat>)
    requires Increasing(ts)
    ensures forall x :: x in PairTimes(ts) ==> ts != [] && ts[0] <= x.start
    decreases |ts|
  {
    hide DayOf, PairTimes;
    if |ts| < 2 {
      NoPairs(ts);
    } else {
      PairTimesStep(ts);
      PairLater(ts[1..]);
      PairLater(ts[2..]);
    }
  }

  /** No stored time lies strictly inside a recorded interval. */
  lemma {:induction false} StoredApart(events: seq<Event>, t: nat)
    requires Distinct(events) && t in Times(events)
    ensures !InsideSome(PairEvents(events), t)
  {
    hide PairTimes, PairRows, Ordered, Distinct;
    OrderedTimes(events);
    PairRowsAreTimes(Ordered(events));
    PairTimesApart(Times(Ordered(events)), t);
  }
}
