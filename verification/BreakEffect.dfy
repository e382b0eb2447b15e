/** What inserted breaks do to recorded work: a minute stays worked exactly when an even number of breaks
    covers it, so worked time drops by the length of the breaks exactly when no two of them overlap. */
module BreakEffect {
  import opened Calendar
  import opened Intervals
  import opened Breaks
  import opened Backfill
  import opened Metrics
  import opened Minutes
  import opened Punches
  import opened Summary
  import opened Footprint
  import opened Ledger
  import opened Sheets
  import opened Weaving

  // ---- breaks over minutes ----

  /** How many breaks of a flat list of boundaries cover a minute. */
  function Coverage(g: seq<nat>, t: nat): nat {
    if |g| < 2 then 0 else Coverage(g[2..], t) + if g[0] <= t < g[1] then 1 else 0
  }

  /** Boundaries two by two, each break running forward inside the given times. */
  ghost predicate BreakList(g: seq<nat>, lo: nat, hi: nat) {
    |g| % 2 == 0 && forall k :: 0 <= k < |g| / 2 ==> lo <= g[2 * k] < g[2 * k + 1] <= hi
  }

  ghost predicate Apart(g: seq<nat>, k: nat, l: nat)
    requires 2 * k + 1 < |g| && 2 * l + 1 < |g|
  {
    g[2 * k + 1] <= g[2 * l] || g[2 * l + 1] <= g[2 * k]
  }

  /** No two breaks overlap. */
  ghost predicate DisjointBreaks(g: seq<nat>) {
    forall k, l :: 0 <= k < l < |g| / 2 ==> Apart(g, k, l)
  }

  lemma {:induction false} BreakListTail(g: seq<nat>, lo: nat, hi: nat)
    requires BreakList(g, lo, hi) && |g| >= 2
    ensures lo <= g[0] < g[1] <= hi && BreakList(g[2..], lo, hi)
  {
    assert g[2 * 0] == g[0];
    forall k | 0 <= k < |g[2..]| / 2 ensures lo <= g[2..][2 * k] < g[2..][2 * k + 1] <= hi {
      assert g[2..][2 * k] == g[2 * (k + 1)] && g[2..][2 * k + 1] == g[2 * (k + 1) + 1];
    }
  }

  lemma {:induction false} DisjointTail(g: seq<nat>)
    requires |g| >= 2
    ensures DisjointBreaks(g) <==>
      DisjointBreaks(g[2..]) && forall l :: 0 <= l < |g[2..]| / 2 ==> g[1] <= g[2..][2 * l] || g[2..][2 * l + 1] <= g[0]
  {
    var r := g[2..];
    forall k | 0 <= k < |r| / 2 ensures r[2 * k] == g[2 * (k + 1)] && r[2 * k + 1] == g[2 * (k + 1) + 1] { }
    if DisjointBreaks(g) {
      forall l | 0 <= l < |r| / 2 ensures g[1] <= r[2 * l] || r[2 * l + 1] <= g[0] {
        assert Apart(g, 0, l + 1);
      }
      forall k, l | 0 <= k < l < |r| / 2 ensures Apart(r, k, l) {
        assert Apart(g, k + 1, l + 1);
      }
    }
    if DisjointBreaks(r) && forall l :: 0 <= l < |r| / 2 ==> g[1] <= r[2 * l] || r[2 * l + 1] <= g[0] {
      forall k, l | 0 <= k < l < |g| / 2 ensures Apart(g, k, l) {
        if k > 0 {
          assert Apart(r, k - 1, l - 1);
        } else {
          assert r[2 * (l - 1)] == g[2 * l];
        }
      }
    }
  }

  /** A break covers some minute of another one unless they are apart. */
  lemma {:induction false} CoveredBy(g: seq<nat>, lo: nat, hi: nat, t: nat)
    requires BreakList(g, lo, hi)
    ensures Coverage(g, t) > 0 <==> exists l :: 0 <= l < |g| / 2 && g[2 * l] <= t < g[2 * l + 1]
  {
    if |g| >= 2 {
      BreakListTail(g, lo, hi);
      var r := g[2..];
      CoveredBy(r, lo, hi, t);
      forall k | 0 <= k < |r| / 2 ensures r[2 * k] == g[2 * (k + 1)] && r[2 * k + 1] == g[2 * (k + 1) + 1] { }
      if l :| 0 <= l < |g| / 2 && g[2 * l] <= t < g[2 * l + 1] {
        if l > 0 {
          assert r[2 * (l - 1)] <= t < r[2 * (l - 1) + 1];
        }
      }
      if l :| 0 <= l < |r| / 2 && r[2 * l] <= t < r[2 * l + 1] {
        assert g[2 * (l + 1)] <= t < g[2 * (l + 1) + 1];
      }
      if g[0] <= t < g[1] {
        assert g[2 * 0] <= t < g[2 * 0 + 1];
      }
    }
  }

  /** Breaks are disjoint exactly when no minute is covered twice. */
  lemma {:induction false} DisjointIsSingleCover(g: seq<nat>, lo: nat, hi: nat)
    requires BreakList(g, lo, hi)
    ensures DisjointBreaks(g) <==> forall t: nat :: Coverage(g, t) <= 1
  {
    if |g| >= 2 {
      var r := g[2..];
      BreakListTail(g, lo, hi);
      DisjointTail(g);
      DisjointIsSingleCover(r, lo, hi);
      hide BreakList, DisjointBreaks;
      forall t: nat ensures Coverage(r, t) > 0 <==> exists l :: 0 <= l < |r| / 2 && r[2 * l] <= t < r[2 * l + 1] {
        CoveredBy(r, lo, hi, t);
      }
      forall l | 0 <= l < |r| / 2 ensures r[2 * l] < r[2 * l + 1] { BreakAt(r, lo, hi, l); }
      if DisjointBreaks(g) {
        forall t: nat ensures Coverage(g, t) <= 1 {
          assert Coverage(r, t) <= 1;
        }
      } else if DisjointBreaks(r) {
        var l :| 0 <= l < |r| / 2 && !(g[1] <= r[2 * l] || r[2 * l + 1] <= g[0]);
        var t := Max(g[0], r[2 * l]);
        assert r[2 * l] <= t < r[2 * l + 1];
        assert Coverage(g, t) >= 2;
      } else {
        var t: nat :| Coverage(r, t) > 1;
        assert Coverage(g, t) >= Coverage(r, t);
      }
    }
  }

  lemma {:induction false} BreakAt(g: seq<nat>, lo: nat, hi: nat, k: nat)
    requires BreakList(g, lo, hi) && k < |g| / 2
    ensures lo <= g[2 * k] < g[2 * k + 1] <= hi
  {
  }

  /** Minutes covered, counted with and without multiplicity parity. */
  ghost function SumCover(g: seq<nat>, lo: nat, hi: nat): nat
    decreases hi - lo
  {
    if hi <= lo then 0 else SumCover(g, lo, hi - 1) + Coverage(g, hi - 1)
  }

  ghost function OddCover(g: seq<nat>, lo: nat, hi: nat): nat
    decreases hi - lo
  {
    if hi <= lo then 0 else OddCover(g, lo, hi - 1) + Coverage(g, hi - 1) % 2
  }

  ghost function Span(a: nat, b: nat, lo: nat, hi: nat): nat
    decreases hi - lo
  {
    if hi <= lo then 0 else Span(a, b, lo, hi - 1) + if a <= hi - 1 < b then 1 else 0
  }

  lemma {:induction false} SpanLength(a: nat, b: nat, lo: nat, hi: nat)
    requires lo <= a <= b && lo <= hi
    ensures Span(a, b, lo, hi) == if hi <= a then 0 else if hi <= b then hi - a else b - a
    decreases hi - lo
  {
    if lo < hi {
      SpanLength(a, b, lo, hi - 1);
    }
  }

  lemma {:induction false} SumCoverStep(g: seq<nat>, lo: nat, hi: nat)
    requires |g| >= 2
    ensures SumCover(g, lo, hi) == Span(g[0], g[1], lo, hi) + SumCover(g[2..], lo, hi)
    decreases hi - lo
  {
    if lo < hi {
      SumCoverStep(g, lo, hi - 1);
    }
  }

  lemma {:induction false} NoCover(g: seq<nat>, lo: nat, hi: nat)
    requires |g| < 2
    ensures SumCover(g, lo, hi) == 0
    decreases hi - lo
  {
    if lo < hi {
      NoCover(g, lo, hi - 1);
    }
  }

  /** The lengths of the breaks are the minutes they cover, counted once per break. */
  lemma {:induction false} BreakMinutesCovered(g: seq<nat>, lo: nat, hi: nat)
    requires lo <= hi && BreakList(g, lo, hi)
    ensures BreakMinutes(g) == SumCover(g, lo, hi)
  {
    hide BreakList;
    if |g| < 2 {
      NoCover(g, lo, hi);
    } else {
      BreakListTail(g, lo, hi);
      BreakMinutesCovered(g[2..], lo, hi);
      SumCoverStep(g, lo, hi);
      SpanLength(g[0], g[1], lo, hi);
    }
  }

  /** Counting parity loses minutes exactly when some minute is covered more than once. */
  lemma {:induction false} ParityLoss(g: seq<nat>, lo: nat, hi: nat)
    ensures OddCover(g, lo, hi) <= SumCover(g, lo, hi)
    ensures OddCover(g, lo, hi) == SumCover(g, lo, hi) <==> forall t: nat :: lo <= t < hi ==> Coverage(g, t) <= 1
    decreases hi - lo
  {
    hide Coverage;
    if lo < hi {
      ParityLoss(g, lo, hi - 1);
      assert Coverage(g, hi - 1) % 2 <= Coverage(g, hi - 1);
      assert Coverage(g, hi - 1) % 2 == Coverage(g, hi - 1) <==> Coverage(g, hi - 1) <= 1;
    }
  }

  lemma {:induction false} OutsideUncovered(g: seq<nat>, lo: nat, hi: nat, t: nat)
    requires BreakList(g, lo, hi) && !(lo <= t < hi)
    ensures Coverage(g, t) == 0
  {
    hide BreakList;
    if |g| >= 2 {
      BreakListTail(g, lo, hi);
      OutsideUncovered(g[2..], lo, hi, t);
    }
  }

  lemma {:induction false} OddIsSumIffDisjoint(g: seq<nat>, lo: nat, hi: nat)
    requires lo <= hi && BreakList(g, lo, hi)
    ensures OddCover(g, lo, hi) <= BreakMinutes(g)
    ensures OddCover(g, lo, hi) == BreakMinutes(g) <==> DisjointBreaks(g)
  {
    hide BreakList, DisjointBreaks, Coverage;
    BreakMinutesCovered(g, lo, hi);
    ParityLoss(g, lo, hi);
    DisjointIsSingleCover(g, lo, hi);
    forall t: nat ensures !(lo <= t < hi) ==> Coverage(g, t) == 0 {
      if !(lo <= t < hi) { OutsideUncovered(g, lo, hi, t); }
    }
  }

  // ---- which minutes stay worked ----

  /** The day's stored times up to a minute. */
  ghost function UpTo(events: seq<Event>, t: nat): set<nat> {
    set u | u in DayTimes(events, DayOf(t)) && u <= t
  }

  ghost predicate LaterStored(events: seq<Event>, t: nat) {
    exists u :: u in DayTimes(events, DayOf(t)) && t < u
  }

  /** How many of the first times are at most `t`. */
  function Rank(ts: seq<nat>, t: nat): nat {
    if ts == [] || t < ts[0] then 0 else 1 + Rank(ts[1..], t)
  }

  lemma {:induction false} RankSplits(ts: seq<nat>, t: nat)
    requires Increasing(ts)
    ensures var c := Rank(ts, t);
      c <= |ts| && (forall i :: 0 <= i < c ==> ts[i] <= t) && (forall i :: c <= i < |ts| ==> t < ts[i])
  {
    if ts != [] && ts[0] <= t {
      RankSplits(ts[1..], t);
    }
  }

  ghost function TimesUpTo(ts: seq<nat>, t: nat): set<nat> {
    set u | u in ts && u <= t
  }

  lemma {:induction false} OneMoreUpTo(ts: seq<nat>, t: nat)
    requires ts != [] && ts[0] <= t && ts[0] !in ts[1..]
    ensures |TimesUpTo(ts, t)| == 1 + |TimesUpTo(ts[1..], t)|
  {
    assert ts == [ts[0]] + ts[1..];
    assert TimesUpTo(ts, t) == {ts[0]} + TimesUpTo(ts[1..], t);
  }

  lemma {:induction false} RankCounts(ts: seq<nat>, t: nat)
    requires Increasing(ts)
    ensures |TimesUpTo(ts, t)| == Rank(ts, t)
  {
    if ts == [] || t < ts[0] {
      RankSplits(ts, t);
      assert TimesUpTo(ts, t) == {};
    } else {
      RankCounts(ts[1..], t);
      hide TimesUpTo;
      OneMoreUpTo(ts, t);
    }
  }

  /** Paired two by two, the times leave a minute worked exactly when an odd number of them, but not all,
      has gone by. */
  lemma {:induction false} OddRankIsWorked(ts: seq<nat>, s: seq<WorkInterval>, t: nat)
    requires Increasing(ts) && |s| == |ts| / 2
    requires forall k :: 0 <= k < |s| ==> s[k] == WorkInterval(ts[2 * k], ts[2 * k + 1])
    ensures WorkedAt(s, t) <==> Rank(ts, t) % 2 == 1 && Rank(ts, t) < |ts|
  {
    var c := Rank(ts, t);
    RankSplits(ts, t);
    if c % 2 == 1 && c < |ts| {
      var k := c / 2;
      assert s[k].start == ts[c - 1] && s[k].end == ts[c];
    }
    if k :| 0 <= k < |s| && s[k].start <= t < s[k].end {
      assert ts[2 * k] <= t < ts[2 * k + 1];
      assert c == 2 * k + 1;
    }
  }

  lemma {:induction false} WorkedOfDay(events: seq<Event>, t: nat)
    requires Distinct(events)
    ensures WorkedAt(PairEvents(events), t) <==> WorkedAt(DayIntervals(events, DayOf(t)), t)
  {
    hide DayOf, Distinct, Ordered, PairRows;
    var day, all, mine := DayOf(t), PairEvents(events), DayIntervals(events, DayOf(t));
    if i :| 0 <= i < |mine| && mine[i].start <= t < mine[i].end {
      DayIntervalIsSignature(events, day, mine[i]);
      var k :| 0 <= k < |all| && all[k] == mine[i];
    }
    if i :| 0 <= i < |all| && all[i].start <= t < all[i].end {
      assert all[i] in Signatures(events);
      SignatureEnds(events, all[i]);
      DayMonotone(all[i].start, t); DayMonotone(t, all[i].end);
      IntervalOfDay(events, i);
      var k :| 0 <= k < |mine| && mine[k] == all[i];
    }
  }

  /** A minute is worked exactly when an odd number of the day's times has gone by and one is to come. */
  lemma {:induction false} WorkedByParity(events: seq<Event>, t: nat)
    requires Distinct(events)
    ensures WorkedAt(PairEvents(events), t) <==> |UpTo(events, t)| % 2 == 1 && LaterStored(events, t)
  {
    hide DayOf, Distinct, Ordered, PairRows, OfDay, PairEvents, WorkedAt, DayIntervals;
    var day := DayOf(t);
    var ts := Times(OfDay(Ordered(events), day));
    WorkedOfDay(events, t);
    DayIntervalsByIndex(events, day);
    DayRowsTimes(events, day);
    OddRankIsWorked(ts, DayIntervals(events, day), t);
    RankCounts(ts, t);
    assert UpTo(events, t) == TimesUpTo(ts, t);
    RankSplits(ts, t);
    var c := Rank(ts, t);
    if c < |ts| {
      assert ts[c] in ts;
    }
    if u :| u in DayTimes(events, day) && t < u {
      var i :| 0 <= i < |ts| && ts[i] == u;
    }
  }

  // ---- inserting breaks ----

  ghost predicate DistinctTimes(g: seq<nat>) {
    forall i, j :: 0 <= i < j < |g| ==> g[i] != g[j]
  }

  /** The break of a list with index k lies strictly inside a recorded interval. */
  ghost predicate Recorded(s: seq<WorkInterval>, g: seq<nat>, k: nat)
    requires 2 * k + 1 < |g|
  {
    g[2 * k] < g[2 * k + 1] && exists x :: x in s && x.start < g[2 * k] && g[2 * k + 1] < x.end
  }

  /** `after` stores the times of `before` and breaks strictly inside recorded intervals, no two of whose
      boundaries are the same. */
  ghost predicate InsertsBreaks(before: seq<Event>, after: seq<Event>, g: seq<nat>) {
    && AddsTimes(before, after, g) && DistinctTimes(g) && |g| % 2 == 0
    && forall k :: 0 <= k < |g| / 2 ==> Recorded(PairEvents(before), g, k)
  }

  /** The boundaries of a day up to a minute. */
  ghost function BoundariesUpTo(g: seq<nat>, t: nat): set<nat> {
    set u | u in g && DayOf(u) == DayOf(t) && u <= t
  }

  ghost predicate OneDayBreaks(g: seq<nat>) {
    |g| % 2 == 0 && forall k :: 0 <= k < |g| / 2 ==> g[2 * k] < g[2 * k + 1] && DayOf(g[2 * k]) == DayOf(g[2 * k + 1])
  }

  lemma {:induction false} OneDayTail(g: seq<nat>)
    requires OneDayBreaks(g) && |g| >= 2 && DistinctTimes(g)
    ensures g[0] < g[1] && DayOf(g[0]) == DayOf(g[1]) && OneDayBreaks(g[2..]) && DistinctTimes(g[2..])
    ensures g[0] !in g[2..] && g[1] !in g[2..]
  {
    hide DayOf;
    assert g[2 * 0] == g[0];
    forall k | 0 <= k < |g[2..]| / 2 ensures g[2..][2 * k] < g[2..][2 * k + 1] && DayOf(g[2..][2 * k]) == DayOf(g[2..][2 * k + 1]) {
      assert g[2..][2 * k] == g[2 * (k + 1)] && g[2..][2 * k + 1] == g[2 * (k + 1) + 1];
    }
  }

  lemma {:induction false} ParityOfBreaks(g: seq<nat>, t: nat)
    requires OneDayBreaks(g) && DistinctTimes(g)
    ensures |BoundariesUpTo(g, t)| % 2 == Coverage(g, t) % 2
  {
    hide DayOf, OneDayBreaks, DistinctTimes;
    if |g| < 2 {
      NoBoundaries(g, t);
    } else {
      OneDayTail(g);
      ParityOfBreaks(g[2..], t);
      var mine := FirstBoundaries(g, t);
      FirstParity(g[0], g[1], t, mine);
    }
  }

  lemma {:induction false} FirstBoundaries(g: seq<nat>, t: nat) returns (mine: set<nat>)
    requires |g| >= 2 && g[0] !in g[2..] && g[1] !in g[2..]
    ensures mine == set u | u in {g[0], g[1]} && DayOf(u) == DayOf(t) && u <= t
    ensures |BoundariesUpTo(g, t)| == |mine| + |BoundariesUpTo(g[2..], t)|
  {
    hide DayOf;
    var rest := BoundariesUpTo(g[2..], t);
    mine := set u | u in {g[0], g[1]} && DayOf(u) == DayOf(t) && u <= t;
    assert g == [g[0], g[1]] + g[2..];
    assert BoundariesUpTo(g, t) == mine + rest;
    assert mine !! rest;
  }

  lemma {:induction false} NoBoundaries(g: seq<nat>, t: nat)
    requires OneDayBreaks(g) && |g| < 2
    ensures BoundariesUpTo(g, t) == {} && Coverage(g, t) == 0
  {
  }

  lemma {:induction false} FirstParity(a: nat, b: nat, t: nat, mine: set<nat>)
    requires a < b && DayOf(a) == DayOf(b)
    requires mine == set u | u in {a, b} && DayOf(u) == DayOf(t) && u <= t
    ensures |mine| % 2 == if a <= t < b then 1 else 0
  {
    hide DayOf;
    if a <= t < b {
      DayMonotone(a, t); DayMonotone(t, b);
      assert mine == {a};
    } else if t < a || DayOf(a) != DayOf(t) {
      assert mine == {};
    } else {
      assert mine == {a, b};
    }
  }

  lemma {:induction false} RecordedOneDay(before: seq<Event>, after: seq<Event>, g: seq<nat>)
    requires InsertsBreaks(before, after, g)
    ensures OneDayBreaks(g)
  {
    hide DayOf, PairEvents, Distinct;
    forall k | 0 <= k < |g| / 2 ensures g[2 * k] < g[2 * k + 1] && DayOf(g[2 * k]) == DayOf(g[2 * k + 1]) {
      assert Recorded(PairEvents(before), g, k);
      var x :| x in PairEvents(before) && x.start < g[2 * k] && g[2 * k + 1] < x.end;
      assert x in Signatures(before);
      SignatureEnds(before, x);
      DayMonotone(x.start, g[2 * k]); DayMonotone(g[2 * k], g[2 * k + 1]); DayMonotone(g[2 * k + 1], x.end);
    }
  }

  lemma {:induction false} BoundaryRecorded(before: seq<Event>, after: seq<Event>, g: seq<nat>, t: nat)
    requires InsertsBreaks(before, after, g) && t in g
    ensures exists x :: x in PairEvents(before) && Inside(x, t)
  {
    hide PairEvents, Distinct;
    var i :| 0 <= i < |g| && g[i] == t;
    var k := i / 2;
    assert Recorded(PairEvents(before), g, k);
    var x :| x in PairEvents(before) && x.start < g[2 * k] && g[2 * k + 1] < x.end;
    assert i == 2 * k || i == 2 * k + 1;
    assert Inside(x, t);
  }

  lemma {:induction false} InDayTimes(events: seq<Event>, t: nat)
    ensures t in DayTimes(events, DayOf(t)) <==> t in Times(events)
  {
    hide DayOf;
    if t in Times(events) {
      var i :| 0 <= i < |events| && Times(events)[i] == t;
      assert events[i] in events;
    }
    if t in DayTimes(events, DayOf(t)) {
      var e :| e in events && e.at == t;
      var i :| 0 <= i < |events| && events[i] == e;
      assert Times(events)[i] == t;
    }
  }

  lemma {:induction false} BoundaryNew(before: seq<Event>, after: seq<Event>, g: seq<nat>, t: nat)
    requires InsertsBreaks(before, after, g) && t in g
    ensures t !in Times(before)
  {
    hide PairEvents, Distinct, Recorded, DistinctTimes;
    BoundaryRecorded(before, after, g, t);
    var x :| x in PairEvents(before) && Inside(x, t);
    var i :| 0 <= i < |PairEvents(before)| && PairEvents(before)[i] == x;
    assert InsideSome(PairEvents(before), t);
    if t in Times(before) {
      StoredApart(before, t);
    }
  }

  lemma {:induction false} UpToGrows(before: seq<Event>, after: seq<Event>, g: seq<nat>, t: nat)
    requires InsertsBreaks(before, after, g)
    ensures |UpTo(after, t)| == |UpTo(before, t)| + |BoundariesUpTo(g, t)|
  {
    hide DayOf, Distinct, PairEvents, Recorded, DistinctTimes;
    var a, b, c := UpTo(before, t), BoundariesUpTo(g, t), UpTo(after, t);
    forall u: nat ensures u in c <==> u in a || u in b {
      InDayTimes(before, u); InDayTimes(after, u);
    }
    forall u | u in b ensures u !in a {
      InDayTimes(before, u);
      BoundaryNew(before, after, g, u);
    }
    assert c == a + b;
    assert a !! b;
  }

  lemma {:induction false} LaterSame(before: seq<Event>, after: seq<Event>, g: seq<nat>, t: nat)
    requires InsertsBreaks(before, after, g)
    ensures LaterStored(after, t) <==> LaterStored(before, t)
  {
    hide DayOf, Distinct, PairEvents, Recorded, DistinctTimes;
    if u :| u in DayTimes(before, DayOf(t)) && t < u {
      InDayTimes(before, u); InDayTimes(after, u);
    }
    if u :| u in DayTimes(after, DayOf(t)) && t < u {
      InDayTimes(before, u); InDayTimes(after, u);
      if u in g {
        BoundaryRecorded(before, after, g, u);
        var x :| x in PairEvents(before) && Inside(x, u);
        assert x in Signatures(before);
        SignatureEnds(before, x);
        DayMonotone(x.start, u); DayMonotone(u, x.end);
      }
    }
  }

  lemma {:induction false} CoveredIsWorked(before: seq<Event>, after: seq<Event>, g: seq<nat>, t: nat)
    requires InsertsBreaks(before, after, g) && Coverage(g, t) > 0
    ensures WorkedAt(PairEvents(before), t)
  {
    hide DayOf, Distinct, PairEvents, DistinctTimes;
    var k := CoveringBreak(g, t);
    assert Recorded(PairEvents(before), g, k);
    var x :| x in PairEvents(before) && x.start < g[2 * k] && g[2 * k + 1] < x.end;
    var i :| 0 <= i < |PairEvents(before)| && PairEvents(before)[i] == x;
  }

  lemma {:induction false} CoveringBreak(g: seq<nat>, t: nat) returns (k: nat)
    requires Coverage(g, t) > 0
    ensures 2 * k + 1 < |g| && g[2 * k] <= t < g[2 * k + 1]
  {
    if g[0] <= t < g[1] {
      k := 0;
    } else {
      var l := CoveringBreak(g[2..], t);
      k := l + 1;
      assert g[2..][2 * l] == g[2 * k] && g[2..][2 * l + 1] == g[2 * k + 1];
    }
  }

  /** A recorded minute stays worked exactly when an even number of the inserted breaks covers it, and no
      other minute becomes worked. */
  lemma {:induction false} StillWorked(before: seq<Event>, after: seq<Event>, g: seq<nat>, t: nat)
    requires InsertsBreaks(before, after, g)
    ensures WorkedAt(PairEvents(after), t) <==> WorkedAt(PairEvents(before), t) && Coverage(g, t) % 2 == 0
    ensures Coverage(g, t) > 0 ==> WorkedAt(PairEvents(before), t)
  {
    hide DayOf, Distinct, PairEvents, WorkedAt, Recorded, Coverage, UpTo, LaterStored, BoundariesUpTo, OneDayBreaks;
    WorkedByParity(before, t); WorkedByParity(after, t);
    UpToGrows(before, after, g, t);
    LaterSame(before, after, g, t);
    RecordedOneDay(before, after, g);
    ParityOfBreaks(g, t);
    if Coverage(g, t) > 0 {
      CoveredIsWorked(before, after, g, t);
    }
  }

  /** Between two times where the breaks of `h` are the only ones, the minutes covered an odd number of
      times are lost. */
  lemma {:induction false} OddMinutesLost(before: seq<Event>, after: seq<Event>, g: seq<nat>, h: seq<nat>, lo: nat, hi: nat)
    requires InsertsBreaks(before, after, g)
    requires forall t: nat :: lo <= t < hi ==> Coverage(g, t) == Coverage(h, t)
    ensures CountWorked(PairEvents(after), AnyTime, lo, hi) + OddCover(h, lo, hi) == CountWorked(PairEvents(before), AnyTime, lo, hi)
    decreases hi - lo
  {
    hide InsertsBreaks, PairEvents, WorkedAt, Coverage;
    if lo < hi {
      OddMinutesLost(before, after, g, h, lo, hi - 1);
      StillWorked(before, after, g, hi - 1);
    }
  }

  /** Recorded work drops by at most the length of the inserted breaks, and by exactly that if and only if
      no two of them overlap. */
  lemma {:induction false} WorkDrop(before: seq<Event>, after: seq<Event>, g: seq<nat>, h: seq<nat>, lo: nat, hi: nat)
    requires InsertsBreaks(before, after, g) && lo <= hi && BreakList(h, lo, hi)
    requires forall t: nat :: lo <= t < hi ==> Coverage(g, t) == Coverage(h, t)
    ensures var worked, left := MinutesIn(PairEvents(before), lo, hi), MinutesIn(PairEvents(after), lo, hi);
      worked - BreakMinutes(h) <= left <= worked && (left == worked - BreakMinutes(h) <==> DisjointBreaks(h))
  {
    hide PairEvents, MinutesIn, CountWorked, BreakList, DisjointBreaks, Coverage, BreakMinutes, Distinct, Disjoint, Recorded;
    SheetDisjoint(before); SheetDisjoint(after);
    MinutesCounted(PairEvents(before), lo, hi);
    MinutesCounted(PairEvents(after), lo, hi);
    OddMinutesLost(before, after, g, h, lo, hi);
    OddIsSumIffDisjoint(h, lo, hi);
  }
}
