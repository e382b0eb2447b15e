/** When the confirmed "add breaks" action is idempotent (docs/SSOT_CURRENT.md, README.md:40): on sheets
    whose sessions are single intervals, miss less than 30 minutes of pause or get no break, exactly
    when no interval standing alone lasts 1111 to 1140 minutes. */
module Idempotence {
  import opened Options
  import opened Calendar
  import opened Intervals
  import opened Breaks
  import opened Backfill
  import opened Metrics
  import opened Sheets
  import opened Weaving

  /** Recorded intervals, each inside one day, in order, with pauses of at least 30 minutes. */
  ghost predicate Spaced(s: seq<WorkInterval>) {
    && (forall i :: 0 <= i < |s| ==> s[i].start < s[i].end && DayOf(s[i].start) == DayOf(s[i].end))
    && (forall i :: 0 < i < |s| ==> s[i - 1].end + 30 <= s[i].start)
  }

  /** The month's bounds are midnights, so they cut through no interval. */
  predicate Midnights(rangeStart: nat, rangeEnd: nat) {
    rangeStart % MINUTES_PER_DAY == 0 && rangeEnd % MINUTES_PER_DAY == 0
  }

  predicate InRange(x: WorkInterval, rangeStart: nat, rangeEnd: nat) {
    x.end > rangeStart && x.start < rangeEnd
  }

  /** Breaks inserted into an interval that forms a session of its own. */
  function BreaksOf(x: WorkInterval): seq<nat> {
    var s, e, r := x.start, x.end, RequiredBreaks(x.Minutes());
    if r == 0 then []
    else if r == 1 then
      [Min(s + 360, e - 31), Min(s + 360, e - 31) + 30]
    else if r == 2 then [s + 360, s + 390, s + 720, s + 750]
    else [s + 360, s + 390, s + 720, s + 750, s + 1080, s + 1110]
  }

  /** The work blocks left between those breaks. */
  function Pieces(x: WorkInterval): seq<WorkInterval> {
    var s, e, r := x.start, x.end, RequiredBreaks(x.Minutes());
    if r == 0 then [x]
    else if r == 1 then
      [WorkInterval(s, Min(s + 360, e - 31)), WorkInterval(Min(s + 360, e - 31) + 30, e)]
    else if r == 2 then
      [WorkInterval(s, s + 360), WorkInterval(s + 390, s + 720), WorkInterval(s + 750, e)]
    else
      [WorkInterval(s, s + 360), WorkInterval(s + 390, s + 720), WorkInterval(s + 750, s + 1080),
       WorkInterval(s + 1110, e)]
  }

  function GroupsEach(s: seq<WorkInterval>, rangeStart: nat, rangeEnd: nat): seq<seq<nat>> {
    if s == [] then []
    else SessionAdditions([s[0]], rangeStart, rangeEnd) + GroupsEach(s[1..], rangeStart, rangeEnd)
  }

  // ---- spaced intervals are sessions of their own ----

  lemma {:induction false} SpacedSessions(s: seq<WorkInterval>)
    requires Spaced(s)
    ensures |Sessions(s)| == |s| && forall i :: 0 <= i < |s| ==> Sessions(s)[i] == [s[i]]
  {
    hide DayOf;
    if s != [] {
      SpacedSessions(s[..|s| - 1]);
    }
  }

  lemma {:induction false} AdditionsEach(sessions: seq<seq<WorkInterval>>, s: seq<WorkInterval>, lo: nat, hi: nat)
    requires |sessions| == |s| && forall i :: 0 <= i < |s| ==> sessions[i] == [s[i]]
    ensures AdditionsOf(sessions, lo, hi) == GroupsEach(s, lo, hi)
  {
    if s != [] {
      AdditionsEach(sessions[1..], s[1..], lo, hi);
    }
  }

  // ---- one interval ----

  ghost predicate Daylong(x: WorkInterval) {
    0 < x.Minutes() < MINUTES_PER_DAY
  }

  lemma {:induction false} BreakCounts(g: int)
    requires 0 < g < MINUTES_PER_DAY
    ensures RequiredBreaks(g) == if g <= 360 then 0 else if g <= 750 then 1 else if g <= 1140 then 2 else 3
  {
  }

  lemma {:induction false} PlaceInSingle(x: WorkInterval, target: nat)
    requires x.start < target && x.Minutes() >= 32
    ensures Placement([x], target, 30, None) == Some(Min(target, x.end - 31))
  {
    assert [x][1..] == [];
  }

  /** A session of one interval gets its breaks every 360 minutes from the start, the last one
      moved forward if the interval would end before it. */
  lemma {:induction false} SingleSession(x: WorkInterval, lo: nat, hi: nat)
    requires Daylong(x)
    ensures SessionAdditions([x], lo, hi)
         == if InRange(x, lo, hi) && RequiredBreaks(x.Minutes()) > 0 then [BreaksOf(x)] else []
  {
    BreakCounts(x.Minutes());
    assert Gross([x]) == x.Minutes() && RecordedPause([x]) == 0;
    var r := RequiredBreaks(x.Minutes());
    if r > 0 {
      FillSingle(x, r);
    }
  }

  lemma {:induction false} FillSingle(x: WorkInterval, r: nat)
    requires Daylong(x) && r == RequiredBreaks(x.Minutes()) && r > 0
    ensures Fill([x], r, 0, 30 * r) == (BreaksOf(x), 0)
  {
    BreakCounts(x.Minutes());
    hide RequiredBreaks;
    PlaceInSingle(x, x.start + 360);
    PlaceInSingle(x, x.start + 720);
    PlaceInSingle(x, x.start + 1080);
    var done: (seq<nat>, nat) := ([], 0);
    var s := x.start;
    var first: nat := Min(s + 360, x.end - 31);
    assert Fill([x], r, r, 0) == done;
    if r == 1 {
      assert Fill([x], r, 0, 30) == Prepend([first, first + 30], done);
      assert Fill([x], r, 0, 30).0 == BreaksOf(x);
    } else if r == 2 {
      assert Fill([x], r, 1, 30) == Prepend([s + 720, s + 750], done);
      assert Fill([x], r, 0, 60) == Prepend([s + 360, s + 390], Fill([x], r, 1, 30));
      assert Fill([x], r, 0, 60).0 == BreaksOf(x);
    } else {
      assert [s + 1080, s + 1110] + [] == [s + 1080, s + 1110];
      assert Fill([x], r, 2, 30) == Prepend([s + 1080, s + 1110], done);
      assert Fill([x], r, 1, 60) == Prepend([s + 720, s + 750], Fill([x], r, 2, 30));
      assert Fill([x], r, 0, 90) == Prepend([s + 360, s + 390], Fill([x], r, 1, 60));
      assert Fill([x], r, 0, 90).0 == BreaksOf(x);
    }
  }

  /** The only interval lengths that still need a break after one application. */
  predicate NeedsSecondRun(x: WorkInterval) {
    1111 <= x.Minutes() <= 1140
  }

  lemma {:induction false} PiecesSpaced(x: WorkInterval)
    requires Daylong(x) && DayOf(x.start) == DayOf(x.end)
    ensures var p := Pieces(x);
      && p != [] && p[0].start == x.start && Last(p).end == x.end
      && (forall i :: 0 <= i < |p| ==> Daylong(p[i]) && x.start <= p[i].start && p[i].end <= x.end)
      && (forall i :: 0 <= i < |p| ==> DayOf(p[i].start) == DayOf(p[i].end) == DayOf(x.start))
      && (forall i :: 0 < i < |p| ==> p[i - 1].end + 30 <= p[i].start)
  {
    hide DayOf;
    BreakCounts(x.Minutes());
    RequiredBreaksFit(Max(361, x.Minutes()));
    var p := Pieces(x);
    forall i | 0 <= i < |p| ensures DayOf(p[i].start) == DayOf(p[i].end) == DayOf(x.start) {
      DayMonotone(x.start, p[i].start); DayMonotone(p[i].start, p[i].end); DayMonotone(p[i].end, x.end);
    }
  }

  /** After one application only the last piece of an interval of 1111 to 1140 minutes is too long. */
  lemma {:induction false} PieceLengths(x: WorkInterval)
    requires Daylong(x)
    ensures forall i :: 0 <= i < |Pieces(x)| - 1 ==> Pieces(x)[i].Minutes() <= 360
    ensures if NeedsSecondRun(x) then 361 <= Last(Pieces(x)).Minutes() <= 390
            else Last(Pieces(x)).Minutes() <= 360
  {
    BreakCounts(x.Minutes());
  }

  lemma {:induction false} GroupsConcat(a: seq<WorkInterval>, b: seq<WorkInterval>, lo: nat, hi: nat)
    ensures GroupsEach(a + b, lo, hi) == GroupsEach(a, lo, hi) + GroupsEach(b, lo, hi)
  {
    if a == [] {
      assert a + b == b;
    } else {
      assert (a + b)[1..] == a[1..] + b;
      GroupsConcat(a[1..], b, lo, hi);
    }
  }

  /** Intervals of at most 360 minutes get no breaks. */
  lemma {:induction false} ShortNeedsNothing(s: seq<WorkInterval>, lo: nat, hi: nat)
    requires forall i :: 0 <= i < |s| ==> Daylong(s[i]) && s[i].Minutes() <= 360
    ensures GroupsEach(s, lo, hi) == []
  {
    if s != [] {
      SingleSession(s[0], lo, hi);
      ShortNeedsNothing(s[1..], lo, hi);
    }
  }

  ghost predicate LongIn(x: WorkInterval, lo: nat, hi: nat) {
    InRange(x, lo, hi) && NeedsSecondRun(x)
  }

  lemma {:induction false} SameDayInRange(x: WorkInterval, y: WorkInterval, lo: nat, hi: nat)
    requires Midnights(lo, hi) && InRange(x, lo, hi)
    requires x.start < x.end && y.start < y.end && x.start <= y.start && y.end <= x.end
    requires DayOf(x.start) == DayOf(x.end)
    ensures InRange(y, lo, hi)
  {
  }

  /** What a second application finds in the pieces of an interval. */
  lemma {:induction false} PiecesAgain(x: WorkInterval, lo: nat, hi: nat)
    requires Daylong(x) && DayOf(x.start) == DayOf(x.end) && Midnights(lo, hi) && InRange(x, lo, hi)
    ensures GroupsEach(Pieces(x), lo, hi) == [] <==> !LongIn(x, lo, hi)
    ensures forall i :: 0 <= i < |Pieces(x)| ==> !LongIn(Pieces(x)[i], lo, hi)
  {
    hide RequiredBreaks, DayOf, Pieces, InRange, Midnights;
    PiecesSpaced(x);
    PieceLengths(x);
    var p := Pieces(x);
    var short, last := p[..|p| - 1], Last(p);
    assert p == short + [last];
    ShortNeedsNothing(short, lo, hi);
    GroupsConcat(short, [last], lo, hi);
    if NeedsSecondRun(x) {
      SameDayInRange(x, last, lo, hi);
      BreakCounts(last.Minutes());
      SingleSession(last, lo, hi);
      assert [last][0] == last;
    } else {
      ShortNeedsNothing([last], lo, hi);
    }
  }

  // ---- one session ----

  /** The times of a proposal that fall inside one interval. */
  function Within(g: seq<nat>, x: WorkInterval): seq<nat> {
    if g == [] then [] else (if Inside(x, g[0]) then [g[0]] else []) + Within(g[1..], x)
  }

  function CutsOf(session: seq<WorkInterval>, g: seq<nat>): seq<seq<nat>> {
    seq(|session|, i requires 0 <= i < |session| => Within(g, session[i]))
  }

  lemma {:induction false} WithinAll(g: seq<nat>, x: WorkInterval)
    requires forall t :: t in g ==> Inside(x, t)
    ensures Within(g, x) == g
  {
    if g != [] {
      WithinAll(g[1..], x);
    }
  }

  lemma {:induction false} WithinNone(g: seq<nat>, x: WorkInterval)
    requires forall t :: t in g ==> !Inside(x, t)
    ensures Within(g, x) == []
  {
    if g != [] {
      WithinNone(g[1..], x);
    }
  }

  /** Sessions on which the action is understood completely. */
  predicate Simple(session: seq<WorkInterval>, lo: nat, hi: nat)
    requires session != []
  {
    |session| == 1 || MissingMinutes(session) < 30 || SessionAdditions(session, lo, hi) == []
  }

  /** A session of one interval long enough for a second run. */
  ghost predicate LongSession(session: seq<WorkInterval>, lo: nat, hi: nat)
    requires session != []
  {
    |session| == 1 && LongIn(session[0], lo, hi)
  }

  function Singles(s: seq<WorkInterval>): (r: seq<seq<WorkInterval>>)
    ensures |r| == |s| && forall i :: 0 <= i < |s| ==> r[i] == [s[i]]
  {
    seq(|s|, i requires 0 <= i < |s| => [s[i]])
  }

  lemma {:induction false} JoinedSingles(s: seq<WorkInterval>)
    ensures Joined(Singles(s)) == s
  {
    if s != [] {
      var n := |s| - 1;
      JoinedSingles(s[..n]);
      assert Singles(s)[..n] == Singles(s[..n]) && Last(Singles(s)) == [s[n]];
      assert s == s[..n] + [s[n]];
    }
  }

  /** The recorded intervals of a session after its breaks were inserted. */
  function AfterSession(session: seq<WorkInterval>, lo: nat, hi: nat): seq<WorkInterval>
    requires session != []
  {
    CutAll(session, CutsOf(session, Proposal(session, lo, hi)))
  }

  /** The sessions they form. */
  function SessionsAfter(session: seq<WorkInterval>, lo: nat, hi: nat): seq<seq<WorkInterval>>
    requires session != []
  {
    var s := AfterSession(session, lo, hi);
    if |session| == 1 then Singles(s) else [s]
  }

  lemma {:induction false} NothingCut(session: seq<WorkInterval>)
    ensures GoodCuts(session, CutsOf(session, [])) && CutAll(session, CutsOf(session, [])) == session
    ensures Flat(CutsOf(session, [])) == []
  {
    if session != [] {
      assert CutsOf(session, [])[1..] == CutsOf(session[1..], []);
      NothingCut(session[1..]);
      assert CutsOf(session, [])[0] == [];
    }
  }

  lemma {:induction false} OneCut(x: WorkInterval, g: seq<nat>)
    requires GoodCut(x, g)
    ensures CutsOf([x], g) == [g] && GoodCuts([x], [g]) && CutAll([x], [g]) == CutInterval(x, g) && Flat([g]) == g
  {
    WithinAll(g, x);
    assert [x][1..] == [] && [g][1..] == [];
  }

  lemma {:induction false} BreaksOfCut(x: WorkInterval)
    requires Daylong(x)
    ensures GoodCut(x, BreaksOf(x)) && CutInterval(x, BreaksOf(x)) == Pieces(x)
    ensures BreaksOf(x) == [] <==> RequiredBreaks(x.Minutes()) == 0
  {
    BreakCounts(x.Minutes());
    hide RequiredBreaks;
    var g := BreaksOf(x);
    if |g| >= 2 {
      var y := WorkInterval(g[1], x.end);
      assert CutInterval(x, g) == [WorkInterval(x.start, g[0])] + CutInterval(y, g[2..]);
      if |g| >= 4 {
        var z := WorkInterval(g[3], x.end);
        assert g[2..][2..] == g[4..];
        assert CutInterval(y, g[2..]) == [WorkInterval(y.start, g[2])] + CutInterval(z, g[4..]);
        if |g| >= 6 {
          assert g[4..][2..] == g[6..] == [];
          assert CutInterval(z, g[4..]) == [WorkInterval(z.start, g[4]), WorkInterval(g[5], x.end)];
        }
      }
    }
  }

  /** What the action does to a session of one interval. */
  lemma {:induction false} SingleAfter(x: WorkInterval, lo: nat, hi: nat)
    requires x.start < x.end && DayOf(x.start) == DayOf(x.end) && Midnights(lo, hi)
    ensures var g := Proposal([x], lo, hi);
      && GoodCut(x, g)
      && AfterSession([x], lo, hi) == if InRange(x, lo, hi) then Pieces(x) else [x]
  {
    hide DayOf, BreaksOf, Pieces, RequiredBreaks, GoodCut, CutInterval, InRange;
    DayLength(x.start, x.end);
    SingleSession(x, lo, hi);
    BreaksOfCut(x);
    var g := Proposal([x], lo, hi);
    if g == [] {
      EmptyCut(x);
      if InRange(x, lo, hi) {
        assert BreaksOf(x) == [];
      }
    }
    OneCut(x, g);
  }

  lemma {:induction false} EmptyCut(x: WorkInterval)
    ensures GoodCut(x, []) && CutInterval(x, []) == [x]
  {
  }

  ghost predicate ShortPauses(s: seq<WorkInterval>) {
    forall i :: 0 < i < |s| ==> s[i].start - s[i - 1].end < 30
  }

  /** A session short of less than 30 minutes is proposed one break of exactly that length. */
  lemma {:induction false} ShortProposal(session: seq<WorkInterval>, lo: nat, hi: nat) returns (at: nat)
    requires session != [] && MissingMinutes(session) < 30 && Proposal(session, lo, hi) != []
    ensures 0 < MissingMinutes(session)
    ensures Proposal(session, lo, hi) == [at, at + MissingMinutes(session)]
    ensures BreakInside(at, at + MissingMinutes(session), session)
  {
    hide BreakInside, Placement, Fill, BreaksInside;
    var missing, required := MissingMinutes(session), RequiredBreaks(Gross(session));
    ProposalShape(session, lo, hi);
    FillStep(session, required, 0, missing);
    FillStep(session, required, 1, 0);
    var placed := Placement(session, session[0].start + 360, missing, None);
    at := placed.value;
    var g := Proposal(session, lo, hi);
    assert g == [at, at + missing];
    OnlyBreak(g, session);
  }

  lemma {:induction false} OnlyBreak(g: seq<nat>, session: seq<WorkInterval>)
    requires |g| == 2 && BreaksInside(g, session)
    ensures BreakInside(g[0], g[1], session)
  {
    assert BreakInside(g[2 * 0], g[2 * 0 + 1], session);
  }

  /** The times of `g` lie in none of the intervals. */
  ghost predicate Untouched(s: seq<WorkInterval>, g: seq<nat>) {
    forall y, t :: y in s && t in g ==> !Inside(y, t)
  }

  lemma {:induction false} OthersUntouched(pre: seq<WorkInterval>, x: WorkInterval, post: seq<WorkInterval>, g: seq<nat>)
    requires Chain(pre + [x] + post) && forall t :: t in g ==> Inside(x, t)
    ensures Untouched(pre, g) && Untouched(post, g)
  {
    hide DayOf;
    ChainSplit(pre + [x], post); ChainSplit(pre, [x]);
    assert (pre + [x])[|pre|] == x && [x][0] == x;
  }

  lemma {:induction false} CutsOfParts(pre: seq<WorkInterval>, x: WorkInterval, post: seq<WorkInterval>, g: seq<nat>)
    ensures CutsOf(pre + [x] + post, g) == CutsOf(pre, g) + [Within(g, x)] + CutsOf(post, g)
  {
    hide Within;
  }

  /** Cutting one interval of a session and none of the others. */
  lemma {:induction false} OneIntervalCut(pre: seq<WorkInterval>, x: WorkInterval, post: seq<WorkInterval>, g: seq<nat>)
    requires Chain(pre + [x] + post) && GoodCut(x, g)
    ensures var session := pre + [x] + post;
      && GoodCuts(session, CutsOf(session, g)) && Flat(CutsOf(session, g)) == g
      && CutAll(session, CutsOf(session, g)) == pre + CutInterval(x, g) + post
  {
    OthersUntouched(pre, x, post, g);
    UncutSame(pre, g); UncutSame(post, g);
    OneCut(x, g);
    WithinAll(g, x);
    CutsOfParts(pre, x, post, g);
    hide *;
    var a, b := CutsOf(pre, g), CutsOf(post, g);
    CutsLength(pre, g); CutsLength(post, g);
    CutAllConcat(pre, [x], a, [g]);
    CutAllConcat(pre + [x], post, a + [g], b);
    FlatConcat(a, [g]);
    FlatConcat(a + [g], b);
    assert [] + g + [] == g;
    GoodCutsConcat(pre, [x], a, [g]);
    GoodCutsConcat(pre + [x], post, a + [g], b);
  }

  lemma {:induction false} CutsLength(s: seq<WorkInterval>, g: seq<nat>)
    ensures |CutsOf(s, g)| == |s|
  {
  }

  lemma {:induction false} GoodCutsConcat(s: seq<WorkInterval>, t: seq<WorkInterval>, c: seq<seq<nat>>, d: seq<seq<nat>>)
    requires GoodCuts(s, c) && GoodCuts(t, d)
    ensures GoodCuts(s + t, c + d)
  {
    hide GoodCut;
  }

  lemma {:induction false} UncutSame(s: seq<WorkInterval>, g: seq<nat>)
    requires Untouched(s, g)
    ensures var c := CutsOf(s, g); GoodCuts(s, c) && CutAll(s, c) == s && Flat(c) == []
  {
    forall i | 0 <= i < |s| ensures Within(g, s[i]) == [] {
      assert s[i] in s;
      WithinNone(g, s[i]);
    }
    assert CutsOf(s, g) == CutsOf(s, []) by {
      forall i | 0 <= i < |s| ensures CutsOf(s, g)[i] == CutsOf(s, [])[i] { }
    }
    NothingCut(s);
  }

  /** Where the one break of such a session goes. */
  lemma {:induction false} ShortfallPlace(session: seq<WorkInterval>, lo: nat, hi: nat)
    returns (pre: seq<WorkInterval>, x: WorkInterval, post: seq<WorkInterval>, at: nat)
    requires session != [] && MissingMinutes(session) < 30 && Proposal(session, lo, hi) != []
    ensures session == pre + [x] + post && 0 < MissingMinutes(session)
    ensures Proposal(session, lo, hi) == [at, at + MissingMinutes(session)]
    ensures x.start < at && at + MissingMinutes(session) < x.end
    ensures GoodCut(x, Proposal(session, lo, hi))
  {
    at := ShortProposal(session, lo, hi);
    hide Proposal, MissingMinutes;
    x :| x in session && x.start < at && at + MissingMinutes(session) < x.end;
    var j :| 0 <= j < |session| && session[j] == x;
    pre, post := session[..j], session[j + 1..];
  }

  /** A session short of less than 30 minutes gets one break that does not split it; its recorded pause
      is then the required one and nothing is missing any more. */
  lemma {:induction false} ShortfallIsSettled(session: seq<WorkInterval>, lo: nat, hi: nat)
    requires session != [] && Chain(session) && ShortPauses(session)
    requires MissingMinutes(session) < 30 && Proposal(session, lo, hi) != []
    ensures var g, s := Proposal(session, lo, hi), AfterSession(session, lo, hi);
      && GoodCuts(session, CutsOf(session, g)) && Flat(CutsOf(session, g)) == g
      && |s| > |session| && ShortPauses(s) && Gross(s) == Gross(session) && MissingMinutes(s) == 0
  {
    hide *;
    var pre, x, post, at := ShortfallPlace(session, lo, hi);
    var missing, g, s := MissingMinutes(session), Proposal(session, lo, hi), AfterSession(session, lo, hi);
    AfterIsCut(session, lo, hi);
    OneIntervalCut(pre, x, post, g);
    TwoPieces(x, at, at + missing);
    CutAllChain(session, CutsOf(session, g));
    BrokenSession(pre, x, post, at, missing, s);
  }

  lemma {:induction false} AfterIsCut(session: seq<WorkInterval>, lo: nat, hi: nat)
    requires session != []
    ensures var cuts := CutsOf(session, Proposal(session, lo, hi));
      |cuts| == |session| && AfterSession(session, lo, hi) == CutAll(session, cuts)
  {
    hide CutAll, Proposal;
  }

  lemma {:induction false} BrokenSession(pre: seq<WorkInterval>, x: WorkInterval, post: seq<WorkInterval>, at: nat, missing: nat,
                                         s: seq<WorkInterval>)
    requires Chain(pre + [x] + post) && ShortPauses(pre + [x] + post)
    requires x.start < at && at + missing < x.end && 0 < missing == MissingMinutes(pre + [x] + post) < 30
    requires s == pre + [WorkInterval(x.start, at), WorkInterval(at + missing, x.end)] + post && Chain(s)
    requires s[0].start == (pre + [x] + post)[0].start && Last(s).end == Last(pre + [x] + post).end
    ensures var session := pre + [x] + post;
      |s| > |session| && ShortPauses(s) && Gross(s) == Gross(session) && MissingMinutes(s) == 0
  {
    hide *;
    var left, right := WorkInterval(x.start, at), WorkInterval(at + missing, x.end);
    BrokenPauses(pre, x, left, right, post);
    BrokenTotal(pre, x, left, right, post);
    SettledMinutes(pre + [x] + post, s, missing);
  }

  lemma {:induction false} SettledMinutes(session: seq<WorkInterval>, s: seq<WorkInterval>, missing: nat)
    requires session != [] && s != [] && Chain(session) && Chain(s)
    requires s[0].start == session[0].start && Last(s).end == Last(session).end
    requires missing == MissingMinutes(session) > 0 && TotalMinutes(s) == TotalMinutes(session) - missing
    ensures Gross(s) == Gross(session) && MissingMinutes(s) == 0
  {
    hide Chain, RecordedPause, TotalMinutes, RequiredBreaks;
    PauseIsRest(session);
    PauseIsRest(s);
  }

  lemma {:induction false} TwoPieces(x: WorkInterval, from: nat, to: nat)
    ensures CutInterval(x, [from, to]) == [WorkInterval(x.start, from), WorkInterval(to, x.end)]
  {
    assert [from, to][2..] == [];
  }

  lemma {:induction false} BrokenPauses(pre: seq<WorkInterval>, x: WorkInterval, left: WorkInterval, right: WorkInterval,
                                        post: seq<WorkInterval>)
    requires ShortPauses(pre + [x] + post)
    requires left.start == x.start && right.end == x.end && right.start - left.end < 30
    ensures ShortPauses(pre + [left, right] + post)
  {
    var s, t := pre + [x] + post, pre + [left, right] + post;
    forall i | 0 < i < |t| ensures t[i].start - t[i - 1].end < 30 {
      if i <= |pre| {
        assert s[i].start == t[i].start && s[i - 1] == t[i - 1];
      } else if i > |pre| + 1 {
        assert s[i - 1] == t[i] && s[i - 2].end == t[i - 1].end;
      }
    }
  }

  lemma {:induction false} BrokenTotal(pre: seq<WorkInterval>, x: WorkInterval, left: WorkInterval, right: WorkInterval,
                                       post: seq<WorkInterval>)
    requires x.start == left.start <= left.end <= right.start <= right.end == x.end
    ensures TotalMinutes(pre + [left, right] + post) == TotalMinutes(pre + [x] + post) - (right.start - left.end)
  {
    TotalConcat(pre + [left, right], post); TotalConcat(pre, [left, right]);
    TotalConcat(pre + [x], post); TotalConcat(pre, [x]);
    assert [left, right][1..] == [right] && [right][1..] == [] && [x][1..] == [];
  }

  // ---- the sessions after one application ----

  /** How a session and the sessions left of it are related. */
  ghost predicate Settles(session: seq<WorkInterval>, r: seq<seq<WorkInterval>>, lo: nat, hi: nat)
    requires session != []
  {
    && r != [] && SplitAtPauses(r)
    && (forall k :: 0 <= k < |r| ==> Simple(r[k], lo, hi) && !LongSession(r[k], lo, hi))
    && (AdditionsOf(r, lo, hi) == [] <==> !LongSession(session, lo, hi))
  }

  lemma {:induction false} SinglesSplit(p: seq<WorkInterval>)
    requires forall i :: 0 < i < |p| ==> p[i - 1].end + 30 <= p[i].start
    ensures SplitAtPauses(Singles(p))
  {
  }

  lemma {:induction false} SinglesSimple(p: seq<WorkInterval>, lo: nat, hi: nat)
    requires forall i :: 0 <= i < |p| ==> !LongIn(p[i], lo, hi)
    ensures forall k :: 0 <= k < |Singles(p)| ==>
      Singles(p)[k] != [] && Simple(Singles(p)[k], lo, hi) && !LongSession(Singles(p)[k], lo, hi)
  {
    hide LongIn, MissingMinutes, SessionAdditions;
  }

  lemma {:induction false} PiecesSettle(x: WorkInterval, lo: nat, hi: nat)
    requires Daylong(x) && DayOf(x.start) == DayOf(x.end) && Midnights(lo, hi) && InRange(x, lo, hi)
    ensures Settles([x], Singles(Pieces(x)), lo, hi)
  {
    hide DayOf, Pieces, RequiredBreaks, MissingMinutes, SessionAdditions, Midnights, LongIn, InRange, Simple;
    var p := Pieces(x);
    PiecesSpaced(x);
    PiecesAgain(x, lo, hi);
    SinglesSplit(p);
    SinglesSimple(p, lo, hi);
    hide SplitAtPauses;
    AdditionsEach(Singles(p), p, lo, hi);
  }

  lemma {:induction false} GroupsOne(x: WorkInterval, lo: nat, hi: nat)
    ensures GroupsEach([x], lo, hi) == SessionAdditions([x], lo, hi)
  {
    hide SessionAdditions;
    assert [x][0] == x && [x][1..] == [];
  }

  lemma {:induction false} OutsideSettles(x: WorkInterval, lo: nat, hi: nat)
    requires Daylong(x) && !InRange(x, lo, hi)
    ensures Settles([x], Singles([x]), lo, hi)
  {
    hide RequiredBreaks, MissingMinutes, SessionAdditions, InRange, Simple, GroupsEach, NeedsSecondRun;
    SingleSession(x, lo, hi);
    SinglesSplit([x]);
    SinglesSimple([x], lo, hi);
    hide SplitAtPauses;
    AdditionsEach(Singles([x]), [x], lo, hi);
    GroupsOne(x, lo, hi);
  }

  lemma {:induction false} SingleSettles(x: WorkInterval, lo: nat, hi: nat)
    requires x.start < x.end && DayOf(x.start) == DayOf(x.end) && Midnights(lo, hi)
    ensures Settles([x], SessionsAfter([x], lo, hi), lo, hi)
  {
    hide DayOf, Pieces, AfterSession, Midnights, Settles, InRange;
    DayLength(x.start, x.end);
    SingleAfter(x, lo, hi);
    if InRange(x, lo, hi) {
      PiecesSettle(x, lo, hi);
    } else {
      OutsideSettles(x, lo, hi);
    }
  }

  lemma {:induction false} WholeSettles(s: seq<WorkInterval>, lo: nat, hi: nat)
    requires |s| > 1 && ShortPauses(s) && SessionAdditions(s, lo, hi) == []
    ensures SplitAtPauses([s]) && AdditionsOf([s], lo, hi) == [] && Simple(s, lo, hi)
  {
    hide SessionAdditions;
    assert [s][1..] == [];
  }

  lemma {:induction false} NothingMissing(s: seq<WorkInterval>, lo: nat, hi: nat)
    requires s != [] && MissingMinutes(s) == 0
    ensures SessionAdditions(s, lo, hi) == []
  {
  }

  /** One application leaves of a simple session simple sessions only, and a second one finds something
      in them exactly when the session is one interval of 1111 to 1140 minutes. */
  lemma {:induction false} SessionSettles(session: seq<WorkInterval>, lo: nat, hi: nat)
    requires session != [] && Chain(session) && ShortPauses(session) && Simple(session, lo, hi) && Midnights(lo, hi)
    ensures Settles(session, SessionsAfter(session, lo, hi), lo, hi)
    ensures Joined(SessionsAfter(session, lo, hi)) == AfterSession(session, lo, hi)
    ensures var g := Proposal(session, lo, hi); GoodCuts(session, CutsOf(session, g)) && Flat(CutsOf(session, g)) == g
  {
    hide CutsOf, CutAll, MissingMinutes, SessionAdditions, Midnights, LongIn, Joined, ShortPauses, DayOf, Singles, Proposal, Flat;
    var g, s := Proposal(session, lo, hi), AfterSession(session, lo, hi);
    ProposalShape(session, lo, hi);
    if |session| == 1 {
      assert session == [session[0]];
      SingleSettles(session[0], lo, hi);
      SingleAfter(session[0], lo, hi);
      OneCut(session[0], g);
      JoinedSingles(s);
    } else {
      JoinedSingle(s);
      if g == [] {
        NothingCut(session);
      } else {
        ShortfallIsSettled(session, lo, hi);
        NothingMissing(s, lo, hi);
      }
      WholeSettles(s, lo, hi);
    }
  }

  // ---- whole sheets ----

  ghost predicate SimpleSheet(r: seq<seq<WorkInterval>>, lo: nat, hi: nat) {
    forall k :: 0 <= k < |r| ==> r[k] != [] && Simple(r[k], lo, hi)
  }

  ghost predicate SomeLong(r: seq<seq<WorkInterval>>, lo: nat, hi: nat) {
    exists k :: 0 <= k < |r| && r[k] != [] && LongSession(r[k], lo, hi)
  }

  function AllAfter(r: seq<seq<WorkInterval>>, lo: nat, hi: nat): seq<seq<WorkInterval>>
    requires forall k :: 0 <= k < |r| ==> r[k] != []
  {
    if r == [] then [] else SessionsAfter(r[0], lo, hi) + AllAfter(r[1..], lo, hi)
  }

  function AllCuts(r: seq<seq<WorkInterval>>, lo: nat, hi: nat): seq<seq<nat>>
    requires forall k :: 0 <= k < |r| ==> r[k] != []
  {
    if r == [] then [] else CutsOf(r[0], Proposal(r[0], lo, hi)) + AllCuts(r[1..], lo, hi)
  }

  /** How the sessions of a sheet and those after one application are related. */
  ghost predicate SheetSettles(r: seq<seq<WorkInterval>>, t: seq<seq<WorkInterval>>, lo: nat, hi: nat) {
    && SplitAtPauses(r) && SplitAtPauses(t) && SimpleSheet(t, lo, hi) && !SomeLong(t, lo, hi)
    && (AdditionsOf(t, lo, hi) == [] <==> !SomeLong(r, lo, hi))
    && (t == [] <==> r == []) && (t != [] ==> t[0][0].start == r[0][0].start)
  }

  lemma {:induction false} SettlesJoin(r: seq<seq<WorkInterval>>, a: seq<seq<WorkInterval>>, b: seq<seq<WorkInterval>>, lo: nat, hi: nat)
    requires r != [] && SplitAtPauses(r) && r[0] != []
    requires Settles(r[0], a, lo, hi) && SheetSettles(r[1..], b, lo, hi)
    requires a[0] != [] && a[0][0].start == r[0][0].start && Last(a) != [] && Last(Last(a)).end == Last(r[0]).end
    ensures SheetSettles(r, a + b, lo, hi)
  {
    hide Simple, LongSession, SessionAdditions, AdditionsOf;
    AdditionsConcat(a, b, lo, hi);
    if b != [] {
      assert b[0][0].start - Last(Last(a)).end >= 30;
    }
    SplitJoin(a, b);
    var t := a + b;
    forall k | 0 <= k < |t| ensures t[k] != [] && Simple(t[k], lo, hi) && !LongSession(t[k], lo, hi) {
      if k >= |a| { assert t[k] == b[k - |a|]; } else { assert t[k] == a[k]; }
    }
    if k :| 0 <= k < |r[1..]| && r[1..][k] != [] && LongSession(r[1..][k], lo, hi) {
      assert r[k + 1] == r[1..][k];
    }
    if k :| 0 <= k < |r| && r[k] != [] && LongSession(r[k], lo, hi) {
      if k > 0 { assert r[1..][k - 1] == r[k]; }
    }
  }

  lemma {:induction false} FirstShort(r: seq<seq<WorkInterval>>)
    requires SplitAtPauses(r) && r != []
    ensures r[0] != [] && ShortPauses(r[0])
  {
  }

  lemma {:induction false} SimpleTail(r: seq<seq<WorkInterval>>, lo: nat, hi: nat)
    requires SimpleSheet(r, lo, hi) && r != []
    ensures r[0] != [] && Simple(r[0], lo, hi) && SimpleSheet(r[1..], lo, hi)
  {
    hide Simple;
  }

  /** Applying the action to every session of a simple sheet. */
  lemma {:induction false} AllSettle(r: seq<seq<WorkInterval>>, lo: nat, hi: nat)
    requires SplitAtPauses(r) && Chain(Joined(r)) && SimpleSheet(r, lo, hi) && Midnights(lo, hi)
    ensures forall k :: 0 <= k < |r| ==> r[k] != []
    ensures SheetSettles(r, AllAfter(r, lo, hi), lo, hi)
    ensures GoodCuts(Joined(r), AllCuts(r, lo, hi)) && Flat(AllCuts(r, lo, hi)) == Flat(AdditionsOf(r, lo, hi))
    ensures Joined(AllAfter(r, lo, hi)) == CutAll(Joined(r), AllCuts(r, lo, hi))
  {
    hide Chain, SplitAtPauses, GoodCuts, Midnights, Joined, Settles, SessionsAfter, CutsOf, CutAll, SessionAdditions, Simple,
      SheetSettles, Proposal;
    if r == [] {
      NoSheet(lo, hi);
    } else {
      var a, b := SessionsAfter(r[0], lo, hi), AllAfter(r[1..], lo, hi);
      SplitTail(r); FirstShort(r); SimpleTail(r, lo, hi);
      JoinedCons(r);
      ChainSplit(r[0], Joined(r[1..]));
      AllSettle(r[1..], lo, hi);
      SessionSettles(r[0], lo, hi);
      SettledSplit(r[0], a, lo, hi);
      AfterEnds(r[0], lo, hi);
      SettlesJoin(r, a, b, lo, hi);
      JoinedConcat(a, b);
      var c, d, g := CutsOf(r[0], Proposal(r[0], lo, hi)), AllCuts(r[1..], lo, hi), Proposal(r[0], lo, hi);
      CutsLength(r[0], g);
      SameLength(Joined(r[1..]), d);
      CutAllConcat(r[0], Joined(r[1..]), c, d);
      GoodCutsConcat(r[0], Joined(r[1..]), c, d);
      FlatConcat(c, d);
      FlatProposal(r[0], AdditionsOf(r[1..], lo, hi), lo, hi);
    }
  }

  lemma {:induction false} SameLength(s: seq<WorkInterval>, cuts: seq<seq<nat>>)
    requires GoodCuts(s, cuts)
    ensures |s| == |cuts|
  {
  }

  lemma {:induction false} NoSheet(lo: nat, hi: nat)
    ensures Joined([]) == [] && GoodCuts([], []) && CutAll([], []) == []
    ensures AdditionsOf([], lo, hi) == [] && SheetSettles([], [], lo, hi)
  {
  }

  lemma {:induction false} FlatProposal(session: seq<WorkInterval>, rest: seq<seq<nat>>, lo: nat, hi: nat)
    requires session != []
    ensures Flat(SessionAdditions(session, lo, hi) + rest) == Proposal(session, lo, hi) + Flat(rest)
  {
    ProposalShape(session, lo, hi);
    hide SessionAdditions, BreaksInside;
    var g := Proposal(session, lo, hi);
    if g == [] {
      assert [] + rest == rest;
    } else {
      assert ([g] + rest)[1..] == rest;
    }
  }

  /** The sessions left of a session begin and end where it did. */
  lemma {:induction false} AfterEnds(session: seq<WorkInterval>, lo: nat, hi: nat)
    requires session != [] && Chain(session)
    requires GoodCuts(session, CutsOf(session, Proposal(session, lo, hi)))
    requires var r := SessionsAfter(session, lo, hi); r != [] && SplitAtPauses(r) && Joined(r) == AfterSession(session, lo, hi)
    ensures var r := SessionsAfter(session, lo, hi);
      r[0] != [] && r[0][0].start == session[0].start && Last(r) != [] && Last(Last(r)).end == Last(session).end
  {
    var r := SessionsAfter(session, lo, hi);
    JoinedEnds(r);
    CutAllChain(session, CutsOf(session, Proposal(session, lo, hi)));
    hide Chain, CutAll, CutsOf, Proposal, SplitAtPauses, GoodCuts;
  }

  lemma {:induction false} SettledSplit(session: seq<WorkInterval>, r: seq<seq<WorkInterval>>, lo: nat, hi: nat)
    requires session != [] && Settles(session, r, lo, hi)
    ensures r != [] && SplitAtPauses(r)
  {
  }

  // ---- the theorem on stored rows ----

  /** `after` holds the rows of `before` plus every time the action proposes for them. */
  ghost predicate AppliesBreaks(before: seq<Event>, after: seq<Event>, lo: nat, hi: nat) {
    AddsTimes(before, after, Flat(MissingBreakGroups(PairEvents(before), lo, hi)))
  }

  /** Re-pairing the stored rows after one application. */
  lemma {:induction false} SheetAfter(before: seq<Event>, after: seq<Event>, lo: nat, hi: nat)
    requires AppliesBreaks(before, after, lo, hi) && Midnights(lo, hi)
    requires SimpleSheet(Sessions(PairEvents(before)), lo, hi)
    ensures Distinct(after) && SheetSettles(Sessions(PairEvents(before)), Sessions(PairEvents(after)), lo, hi)
    ensures MissingBreakGroups(PairEvents(after), lo, hi) == AdditionsOf(Sessions(PairEvents(after)), lo, hi)
  {
    hide PairEvents, Distinct, Chain, SplitAtPauses, GoodCuts, CutAll, Sessions, Joined, SimpleSheet, AllAfter, AllCuts,
      MissingBreakGroups, Midnights;
    var r := Sessions(PairEvents(before));
    SheetSessions(before, lo, hi);
    AllSettle(r, lo, hi);
    RepairedByCuts(before, after, AllCuts(r, lo, hi));
    SessionsUnique(AllAfter(r, lo, hi));
    SheetSessions(after, lo, hi);
  }

  /** On a sheet whose sessions are single intervals, miss less than 30 minutes or get no break, a second
      application proposes nothing exactly when no session is one interval of 1111 to 1140 minutes in the
      month; a third never proposes anything. */
  lemma {:induction false} AddBreaksIdempotence(first: seq<Event>, second: seq<Event>, third: seq<Event>, lo: nat, hi: nat)
    requires AppliesBreaks(first, second, lo, hi) && AppliesBreaks(second, third, lo, hi) && Midnights(lo, hi)
    requires SimpleSheet(Sessions(PairEvents(first)), lo, hi)
    ensures MissingBreakGroups(PairEvents(second), lo, hi) == [] <==> !SomeLong(Sessions(PairEvents(first)), lo, hi)
    ensures MissingBreakGroups(PairEvents(third), lo, hi) == []
  {
    hide PairEvents, Distinct, SplitAtPauses, SimpleSheet, SomeLong, MissingBreakGroups, Midnights, AppliesBreaks, Sessions;
    SheetAfter(first, second, lo, hi);
    SheetAfter(second, third, lo, hi);
  }

  /** A sheet whose sessions all miss less than 30 minutes is settled by one application, whatever its
      pauses. */
  lemma {:induction false} ShortfallsAreSettledAtOnce(first: seq<Event>, second: seq<Event>, lo: nat, hi: nat)
    requires AppliesBreaks(first, second, lo, hi) && Midnights(lo, hi)
    requires forall k :: 0 <= k < |Sessions(PairEvents(first))| ==> MissingMinutes(Sessions(PairEvents(first))[k]) < 30
    ensures MissingBreakGroups(PairEvents(second), lo, hi) == []
  {
    hide PairEvents, Distinct, SplitAtPauses, MissingBreakGroups, Midnights, AppliesBreaks, MissingMinutes, SessionAdditions,
      LongIn;
    var r := Sessions(PairEvents(first));
    SheetAfter(first, second, lo, hi);
    forall k | 0 <= k < |r| ensures !LongSession(r[k], lo, hi) {
      if |r[k]| == 1 {
        LongMissesAnHour(r[k][0], lo, hi);
        assert r[k] == [r[k][0]];
      }
    }
  }

  lemma {:induction false} LongMissesAnHour(x: WorkInterval, lo: nat, hi: nat)
    ensures LongIn(x, lo, hi) ==> MissingMinutes([x]) == 60
  {
  }

  /** Sheets whose pauses all last at least 30 minutes are of this kind. */
  lemma {:induction false} SpacedIsSimple(s: seq<WorkInterval>, lo: nat, hi: nat)
    requires Spaced(s)
    ensures SimpleSheet(Sessions(s), lo, hi)
    ensures SomeLong(Sessions(s), lo, hi) <==> exists i :: 0 <= i < |s| && LongIn(s[i], lo, hi)
  {
    hide Spaced, SessionAdditions, MissingMinutes, LongIn, Sessions;
    SpacedSessions(s);
    var r := Sessions(s);
    if i :| 0 <= i < |s| && LongIn(s[i], lo, hi) {
      assert LongSession(r[i], lo, hi);
    }
  }
}
