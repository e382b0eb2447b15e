/** Proleptic Gregorian calendar over day numbers: day 0 is 1 January of year 1, a Monday.
    Months are numbered from 0 (January of year 1), so that month `m` belongs to year `m / 12 + 1`. */
module Calendar {

  const MINUTES_PER_DAY: nat := 1440

  function DayOf(minute: nat): nat {
    minute / MINUTES_PER_DAY
  }

  /** `date.weekday()`: 0 is Monday, 6 is Sunday. */
  function Weekday(day: nat): nat {
    day % 7
  }

  predicate IsLeap(year: nat) {
    year % 4 == 0 && (year % 100 != 0 || year % 400 == 0)
  }

  /** Length of the month with index `k` (0 is January) in `year`. */
  function LengthInYear(year: nat, k: nat): (days: nat)
    ensures 28 <= days <= 31
  {
    if k == 1 then (if IsLeap(year) then 29 else 28)
    else if k == 3 || k == 5 || k == 8 || k == 10 then 30
    else 31
  }

  /** Days from the start of `year` to the start of its month with index `k`. */
  function MonthOffset(year: nat, k: nat): nat {
    if k == 0 then 0 else MonthOffset(year, k - 1) + LengthInYear(year, k - 1)
  }

  function YearStart(year: nat): nat {
    if year <= 1 then 0 else YearStart(year - 1) + MonthOffset(year - 1, 12)
  }

  /** Number of the first day of month `m`. */
  function MonthStart(m: nat): nat {
    YearStart(m / 12 + 1) + MonthOffset(m / 12 + 1, m % 12)
  }

  lemma MonthStep(m: nat)
    ensures MonthStart(m + 1) == MonthStart(m) + LengthInYear(m / 12 + 1, m % 12)
  {
    if m % 12 == 11 {
      assert (m + 1) / 12 == m / 12 + 1 && (m + 1) % 12 == 0;
    } else {
      assert (m + 1) / 12 == m / 12 && (m + 1) % 12 == m % 12 + 1;
    }
  }

  lemma MonthNotEmpty(m: nat)
    ensures MonthStart(m) < MonthStart(m + 1)
  {
    hide MonthStart;
    MonthStep(m);
  }

  lemma FirstMonth()
    ensures MonthStart(0) == 0 && MonthStart(1) == 31
  {
    assert YearStart(1) == 0 && MonthOffset(1, 1) == 31;
  }

  /** The month at or after `m` that contains `day`. */
  function MonthFrom(day: nat, m: nat): nat
    requires MonthStart(m) <= day
    decreases day - MonthStart(m)
  {
    hide *;
    MonthNotEmpty(m);
    if day < MonthStart(m + 1) then m else MonthFrom(day, m + 1)
  }

  lemma {:induction false} MonthFromContains(day: nat, m: nat)
    requires MonthStart(m) <= day
    ensures MonthStart(MonthFrom(day, m)) <= day < MonthStart(MonthFrom(day, m) + 1)
    decreases day - MonthStart(m)
  {
    hide MonthStart;
    MonthNotEmpty(m);
    if MonthStart(m + 1) <= day {
      MonthFromContains(day, m + 1);
    }
  }

  function MonthOf(day: nat): (m: nat)
    ensures MonthStart(m) <= day < MonthStart(m + 1)
  {
    MonthFromContains(day, 0);
    MonthFrom(day, 0)
  }

  lemma {:induction false} MonthStartMonotone(a: nat, b: nat)
    requires a <= b
    ensures MonthStart(a) <= MonthStart(b)
    decreases b - a
  {
    hide MonthStart;
    if a < b {
      MonthStartMonotone(a, b - 1);
      MonthStep(b - 1);
    }
  }

  /** A day belongs to exactly one month. */
  lemma MonthUnique(day: nat, m: nat)
    ensures MonthOf(day) == m <==> MonthStart(m) <= day < MonthStart(m + 1)
  {
    hide MonthStart;
    if MonthStart(m) <= day < MonthStart(m + 1) {
      if m < MonthOf(day) {
        MonthStartMonotone(m + 1, MonthOf(day));
      } else if MonthOf(day) < m {
        MonthStartMonotone(MonthOf(day) + 1, m);
      }
    }
  }

  function YearOf(day: nat): nat {
    MonthOf(day) / 12 + 1
  }

  /** Number of the date `year`-`month`-`dayOfMonth`, all counted from 1. */
  function DayNumber(year: nat, month: nat, dayOfMonth: nat): nat
    requires 1 <= year && 1 <= month <= 12 && 1 <= dayOfMonth
  {
    MonthStart(12 * (year - 1) + month - 1) + dayOfMonth - 1
  }

  function DaysBeforeYear(year: nat): int {
    365 * (year - 1) + (year - 1) / 4 - (year - 1) / 100 + (year - 1) / 400
  }

  lemma Floor4(n: nat)
    requires 1 <= n
    ensures n / 4 == (n - 1) / 4 + if n % 4 == 0 then 1 else 0
  {
  }

  lemma Floor100(n: nat)
    requires 1 <= n
    ensures n / 100 == (n - 1) / 100 + if n % 100 == 0 then 1 else 0
  {
  }

  lemma Floor400(n: nat)
    requires 1 <= n
    ensures n / 400 == (n - 1) / 400 + if n % 400 == 0 then 1 else 0
  {
  }

  /** The leap-year count grows by one exactly in leap years. */
  lemma YearLength(year: nat)
    requires 1 <= year
    ensures DaysBeforeYear(year + 1) == DaysBeforeYear(year) + if IsLeap(year) then 366 else 365
  {
    Floor4(year); Floor100(year); Floor400(year);
    assert year % 100 == 0 ==> year % 4 == 0;
    assert year % 400 == 0 ==> year % 100 == 0;
  }

  /** First days of the months of one year, relative to the first of January. */
  lemma Offsets(year: nat)
    ensures var leap := if IsLeap(year) then 1 else 0;
      && MonthOffset(year, 0) == 0
      && MonthOffset(year, 1) == 31
      && MonthOffset(year, 2) == 59 + leap
      && MonthOffset(year, 3) == 90 + leap
      && MonthOffset(year, 4) == 120 + leap
      && MonthOffset(year, 6) == 181 + leap
      && MonthOffset(year, 8) == 243 + leap
      && MonthOffset(year, 9) == 273 + leap
      && MonthOffset(year, 10) == 304 + leap
      && MonthOffset(year, 11) == 334 + leap
      && MonthOffset(year, 12) == 365 + leap
  {
    assert MonthOffset(year, 3) == MonthOffset(year, 2) + 31;
    assert MonthOffset(year, 5) == MonthOffset(year, 3) + 61;
    assert MonthOffset(year, 7) == MonthOffset(year, 5) + 61;
    assert MonthOffset(year, 9) == MonthOffset(year, 7) + 61;
    assert MonthOffset(year, 11) == MonthOffset(year, 9) + 61;
  }

  /** Summing month lengths agrees with the closed form behind `date.toordinal`. */
  lemma {:induction false} YearStartClosedForm(year: nat)
    requires 1 <= year
    ensures YearStart(year) == DaysBeforeYear(year)
  {
    hide MonthOffset, IsLeap;
    if year > 1 {
      YearStartClosedForm(year - 1);
      Offsets(year - 1);
      YearLength(year - 1);
    }
  }
}
