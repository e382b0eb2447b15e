/** Worked time minute by minute: which minutes a list of intervals covers, and how many of them fall into
    certain hours. */
module Minutes {
  import opened Calendar
  import opened Intervals
  import opened Breaks
  import opened Metrics
  import Holidays

  ghost predicate WorkedAt(s: seq<WorkInterval>, t: nat) {
    exists i :: 0 <= i < |s| && s[i].start <= t < s[i].end
  }

  /** Intervals that run forward and share no minute, in any order and over any midnight. */
  ghost predicate Disjoint(s: seq<WorkInterval>) {
    && (forall i :: 0 <= i < |s| ==> s[i].start < s[i].end)
    && (forall i, j :: 0 <= i < j < |s| ==> s[i].end <= s[j].start || s[j].end <= s[i].start)
  }

  /** The hours a category of working time counts. */
  datatype Hours = AnyTime | NightTime | AfternoonFrom(start: nat) | Weekends | PublicHolidays

  predicate Within(h: Hours, t: nat) {
    match h
    case AnyTime => true
    case NightTime => t % MINUTES_PER_DAY < 360 || 1320 <= t % MINUTES_PER_DAY
    case AfternoonFrom(start) => start <= t % MINUTES_PER_DAY < 1320
    case Weekends => DayOf(t) % 7 == 5 || DayOf(t) % 7 == 6
    case PublicHolidays => Holidays.IsPublicHoliday(DayOf(t))
  }

  /** Worked minutes of certain hours from minute `lo` up to and excluding `hi`. */
  ghost function CountWorked(s: seq<WorkInterval>, h: Hours, lo: nat, hi: nat): nat
    decreases hi - lo
  {
    if hi <= lo then 0 else CountWorked(s, h, lo, hi - 1) + if WorkedAt(s, hi - 1) && Within(h, hi - 1) then 1 else 0
  }

  /** Recorded minutes between two times, interval by interval. */
  function MinutesIn(s: seq<WorkInterval>, lo: nat, hi: nat): nat {
    if s == [] then 0 else OverlapMinutes(s[0], lo, hi) + MinutesIn(s[1..], lo, hi)
  }

  // ---- both ways of counting agree ----

  lemma {:induction false} OverlapStep(x: WorkInterval, lo: nat, hi: nat)
    requires lo <= hi && x.start <= x.end
    ensures OverlapMinutes(x, lo, hi + 1) == OverlapMinutes(x, lo, hi) + if x.start <= hi < x.end then 1 else 0
  {
  }

  lemma {:induction false} WorkedCons(s: seq<WorkInterval>, t: nat)
    requires s != []
    ensures WorkedAt(s, t) <==> s[0].start <= t < s[0].end || WorkedAt(s[1..], t)
  {
    if i :| 0 <= i < |s[1..]| && s[1..][i].start <= t < s[1..][i].end {
      assert s[i + 1] == s[1..][i];
    }
    if i :| 0 <= i < |s| && s[i].start <= t < s[i].end {
      if i > 0 { assert s[1..][i - 1] == s[i]; }
    }
  }

  /** No minute belongs to two intervals. */
  lemma {:induction false} WorkedOnce(s: seq<WorkInterval>, t: nat)
    requires Disjoint(s) && s != []
    ensures Disjoint(s[1..]) && s[0].start < s[0].end
    ensures s[0].start <= t < s[0].end ==> !WorkedAt(s[1..], t)
  {
    if i :| 0 <= i < |s[1..]| && s[1..][i].start <= t < s[1..][i].end {
      assert s[i + 1] == s[1..][i];
    }
  }

  lemma {:induction false} OneMoreMinute(s: seq<WorkInterval>, lo: nat, hi: nat)
    requires Disjoint(s) && lo <= hi
    ensures MinutesIn(s, lo, hi + 1) == MinutesIn(s, lo, hi) + if WorkedAt(s, hi) then 1 else 0
  {
    hide Disjoint, WorkedAt, OverlapMinutes;
    if s == [] {
      NothingWorked(hi);
    } else {
      WorkedOnce(s, hi);
      WorkedCons(s, hi);
      OverlapStep(s[0], lo, hi);
      OneMoreMinute(s[1..], lo, hi);
    }
  }

  lemma {:induction false} NothingWorked(t: nat)
    ensures !WorkedAt([], t)
  {
  }

  lemma {:induction false} NoMinutes(s: seq<WorkInterval>, lo: nat, hi: nat)
    requires hi <= lo && forall i :: 0 <= i < |s| ==> s[i].start <= s[i].end
    ensures MinutesIn(s, lo, hi) == 0
  {
    if s != [] {
      NoMinutes(s[1..], lo, hi);
    }
  }

  lemma {:induction false} MinutesCounted(s: seq<WorkInterval>, lo: nat, hi: nat)
    requires Disjoint(s)
    ensures MinutesIn(s, lo, hi) == CountWorked(s, AnyTime, lo, hi)
    decreases hi - lo
  {
    if hi <= lo {
      NoMinutes(s, lo, hi);
    } else {
      hide Disjoint, WorkedAt, MinutesIn;
      MinutesCounted(s, lo, hi - 1);
      OneMoreMinute(s, lo, hi - 1);
    }
  }

  // ---- counting piece by piece ----

  lemma {:induction false} CountSplit(s: seq<WorkInterval>, h: Hours, lo: nat, mid: nat, hi: nat)
    requires lo <= mid <= hi
    ensures CountWorked(s, h, lo, hi) == CountWorked(s, h, lo, mid) + CountWorked(s, h, mid, hi)
    decreases hi
  {
    hide WorkedAt, Within;
    if mid < hi {
      CountSplit(s, h, lo, mid, hi - 1);
    }
  }

  /** Between two times that are all, or none, within the hours. */
  lemma {:induction false} CountUniform(s: seq<WorkInterval>, h: Hours, lo: nat, hi: nat, all: bool)
    requires forall t :: lo <= t < hi ==> Within(h, t) == all
    ensures CountWorked(s, h, lo, hi) == if all then CountWorked(s, AnyTime, lo, hi) else 0
    decreases hi - lo
  {
    assert forall t :: Within(AnyTime, t);
    if lo < hi {
      hide WorkedAt, Within;
      CountUniform(s, h, lo, hi - 1, all);
    }
  }
}
