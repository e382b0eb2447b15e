/** Czech public holidays (app/services/czech_holidays.py): eleven fixed dates and the two
    movable ones around Easter. */
module Holidays {
  import opened Calendar

  const FIXED_HOLIDAYS: set<(nat, nat)> := {
    (1, 1), (5, 1), (5, 8), (7, 5), (7, 6), (9, 28), (10, 28), (11, 17), (12, 24), (12, 25), (12, 26)
  }

  /** The two quantities of the computus that both the month and the day are read from:
      `h`, days from 21 March to the full moon before corrections, and `l`, days from the
      date after it to the next Sunday. */
  function MoonShift(year: nat): (h: nat)
    ensures h < 30
  {
    var a, b := year % 19, year / 100;
    var d := b / 4;
    var f := (b + 8) / 25;
    var g := (b - f + 1) / 3;
    (19 * a + b - d - g + 15) % 30
  }

  function SundayShift(year: nat): (l: nat)
    ensures l < 7
  {
    var b, c := year / 100, year % 100;
    var e, i, k := b % 4, c / 4, c % 4;
    (32 + 2 * e + 2 * i - MoonShift(year) - k) % 7
  }

  /** Month and day of the month of Easter Sunday. */
  function EasterDate(year: nat): (nat, nat) {
    var a, h, l := year % 19, MoonShift(year), SundayShift(year);
    var m := (a + 11 * h + 22 * l) / 451;
    var n := h + l - 7 * m + 114;
    (n / 31, n % 31 + 1)
  }

  function EasterSunday(year: nat): (day: nat)
    requires 1 <= year
  {
    EasterRange(year);
    var date := EasterDate(year);
    DayNumber(year, date.0, date.1)
  }

  /** How far Easter falls after 22 March, with the correction `m` resolved. */
  function EasterShift(year: nat): int {
    var h, l := MoonShift(year), SundayShift(year);
    if l == 6 && (h == 29 || (h == 28 && year % 19 > 10)) then h + l - 7 else h + l
  }

  lemma Correction(a: nat, h: nat, l: nat)
    requires a < 19 && h < 30 && l < 7
    ensures (a + 11 * h + 22 * l) / 451 == if l == 6 && (h == 29 || (h == 28 && a > 10)) then 1 else 0
  {
  }

  lemma MarchOrApril(s: nat)
    requires s <= 34
    ensures (s + 114) / 31 == (if s < 10 then 3 else 4)
    ensures (s + 114) % 31 + 1 == if s < 10 then 22 + s else s - 9
  {
  }

  lemma EasterRange(year: nat)
    ensures 0 <= EasterShift(year) <= 34
    ensures var s := EasterShift(year);
      EasterDate(year) == if s < 10 then (3, 22 + s) else (4, s - 9)
  {
    hide MoonShift, SundayShift;
    Correction(year % 19, MoonShift(year), SundayShift(year));
    MarchOrApril(EasterShift(year));
  }

  lemma MonthNumber(year: nat, month: nat)
    requires 1 <= year && 1 <= month <= 12
    ensures var m := 12 * (year - 1) + month - 1; m / 12 + 1 == year && m % 12 == month - 1
    ensures forall d :: 1 <= d ==>
      DayNumber(year, month, d) == YearStart(year) + MonthOffset(year, month - 1) + d - 1
  {
  }

  lemma MarchShift(year: nat, s: nat)
    requires 1 <= year && s <= 34
    ensures DayNumber(year, 3, 22) + s == if s < 10 then DayNumber(year, 3, 22 + s) else DayNumber(year, 4, s - 9)
  {
    MonthNumber(year, 3); MonthNumber(year, 4);
    Offsets(year);
  }

  /** Easter lies on the n-th day after 22 March, whichever month that is in. */
  lemma EasterFromMarch(year: nat)
    requires 1 <= year
    ensures EasterSunday(year) == DayNumber(year, 3, 22) + EasterShift(year)
  {
    EasterRange(year);
    MarchShift(year, EasterShift(year));
  }

  lemma YearDigits(d: nat, e: nat, i: nat, k: nat)
    requires e < 4 && i < 25 && k < 4
    ensures var y := 400 * d + 100 * e + 4 * i + k;
      y / 4 == 100 * d + 25 * e + i && y / 100 == 4 * d + e && y / 400 == d
  {
  }

  lemma MarchNumber(year: nat)
    requires 1 <= year
    ensures DayNumber(year, 3, 22) == 365 * (year - 1) + year / 4 - year / 100 + year / 400 + 80
  {
    MonthNumber(year, 3);
    Offsets(year);
    YearStartClosedForm(year);
    YearLength(year);
  }

  lemma WeekdayFromDigits(n: nat, year: nat, d: nat, e: nat, i: nat, k: nat)
    requires 1 <= year && year == 400 * d + 100 * e + 4 * i + k
    requires e < 4 && i < 25 && k < 4
    requires n == 365 * (year - 1) + year / 4 - year / 100 + year / 400 + 80
    ensures n % 7 == (5 * e + 5 * i + k + 2) % 7
  {
    YearDigits(d, e, i, k);
    assert n == 7 * (20871 * d + 5217 * e + 208 * i + 52 * k - 41) + (5 * e + 5 * i + k + 2);
    SevenFold(20871 * d + 5217 * e + 208 * i + 52 * k - 41, 5 * e + 5 * i + k + 2);
  }

  lemma SevenFold(q: int, r: int)
    ensures (7 * q + r) % 7 == r % 7
  {
  }

  lemma SundayCongruence(n: nat, e: nat, i: nat, k: nat, h: nat, l: nat)
    requires n % 7 == (5 * e + 5 * i + k + 2) % 7
    requires l == (32 + 2 * e + 2 * i - h - k) % 7
    ensures (n + h + l) % 7 == 6
  {
    var p, q := 5 * e + 5 * i + k + 2, 32 + 2 * e + 2 * i - h - k;
    SevenFold(n / 7 - p / 7, p % 7 + h + l);
    SevenFold(p / 7 + q / 7, p % 7 + h + l);
    SevenFold(e + i + 4, 6);
    assert p + h + q == 7 * (e + i + 4) + 6;
  }

  /** The day the computus reaches `l` days after the moon date is a Sunday. */
  lemma SundayShiftIsSunday(year: nat, n: nat)
    requires n % 7 == (5 * (year / 100 % 4) + 5 * (year % 100 / 4) + year % 100 % 4 + 2) % 7
    ensures (n + MoonShift(year) + SundayShift(year)) % 7 == 6
  {
    var b, c := year / 100, year % 100;
    SundayCongruence(n, b % 4, c / 4, c % 4, MoonShift(year), SundayShift(year));
  }

  lemma MarchWeekday(year: nat)
    requires 1 <= year
    ensures DayNumber(year, 3, 22) % 7
         == (5 * (year / 100 % 4) + 5 * (year % 100 / 4) + year % 100 % 4 + 2) % 7
  {
    MarchNumber(year);
    var b, c := year / 100, year % 100;
    WeekdayFromDigits(DayNumber(year, 3, 22), year, b / 4, b % 4, c / 4, c % 4);
  }

  lemma SundayEitherWay(n: nat, s: int, t: int)
    requires (n + t) % 7 == 6 && (s == t || s == t - 7) && 0 <= n + s
    ensures (n + s) % 7 == 6
  {
  }

  lemma EasterIsSunday(year: nat)
    requires 1 <= year
    ensures Weekday(EasterSunday(year)) == 6
  {
    var n := DayNumber(year, 3, 22);
    EasterFromMarch(year);
    MarchWeekday(year);
    SundayShiftIsSunday(year, n);
    SundayEitherWay(n, EasterShift(year), MoonShift(year) + SundayShift(year));
  }

  // ---- the ecclesiastical definition ----

  /** The age-of-the-moon number of the Gregorian reform: the golden number's Julian epact,
      less the dropped leap days of past centuries (solar equation), plus the eight days in
      2500 years by which the lunar cycle is fast (lunar equation). */
  function Epact(year: nat): nat {
    var century := year / 100;
    (8 + 11 * (year % 19) - (century - century / 4) + (8 * century + 13) / 25) % 30
  }

  /** The Paschal full moon, counted in days from 21 March. Epact 24 (and epact 25 in the
      second half of the nineteen-year cycle) is moved one day ahead, so that no full moon
      falls later than 18 April. */
  function FullMoon(year: nat): int {
    var epact := Epact(year);
    var days := (53 - epact) % 30;
    if epact == 24 || (epact == 25 && year % 19 > 10) then days - 1 else days
  }

  lemma LunarEquation(b: nat)
    ensures (b - (b + 8) / 25 + 1) / 3 == (8 * b + 13) / 25
  {
    var q, r := b / 25, b % 25;
    assert (b + 8) / 25 == q + (r + 8) / 25;
    assert (8 * b + 13) / 25 == 8 * q + (8 * r + 13) / 25;
    assert b - (b + 8) / 25 + 1 == 3 * (8 * q) + (r - (r + 8) / 25 + 1);
    assert (r - (r + 8) / 25 + 1) / 3 == (8 * r + 13) / 25;
  }

  lemma ThirtyFold(x: int, q: int)
    ensures (53 - x + 30 * q) % 30 == (53 - x % 30) % 30
  {
  }

  lemma MoonShiftIsEpact(year: nat)
    ensures MoonShift(year) == (53 - Epact(year)) % 30
  {
    var a, b := year % 19, year / 100;
    var g := (b - (b + 8) / 25 + 1) / 3;
    LunarEquation(b);
    ThirtyFold(8 + 11 * a - (b - b / 4) + g, a - 1);
  }

  /** Easter is the Sunday strictly after the Paschal full moon, and no other one. */
  lemma EasterFollowsFullMoon(year: nat)
    requires 1 <= year
    ensures var moon := DayNumber(year, 3, 21) + FullMoon(year);
      forall day: nat :: day == EasterSunday(year) <==> moon < day <= moon + 7 && Weekday(day) == 6
  {
    var moon := DayNumber(year, 3, 21) + FullMoon(year);
    MoonShiftIsEpact(year);
    FullMoonBeforeEaster(year);
    EasterFromMarch(year);
    EasterIsSunday(year);
    forall day: nat | moon < day <= moon + 7 && Weekday(day) == 6
      ensures day == EasterSunday(year)
    {
      SameWeekday(day, EasterSunday(year));
    }
  }

  lemma SameWeekday(a: nat, b: nat)
    requires a % 7 == b % 7 && a - b < 7 && b - a < 7
    ensures a == b
  {
  }

  lemma FullMoonBeforeEaster(year: nat)
    requires MoonShift(year) == (53 - Epact(year)) % 30
    ensures FullMoon(year) <= EasterShift(year) <= FullMoon(year) + 6
  {
    var epact := Epact(year);
    assert MoonShift(year) == if epact <= 23 then 23 - epact else 53 - epact;
  }

  // ---- the public holidays of a year ----

  function DayOfMonth(day: nat): nat {
    day - MonthStart(MonthOf(day)) + 1
  }

  predicate IsPublicHoliday(day: nat) {
    || IsFixedHoliday(day)
    || day == EasterSunday(YearOf(day)) - 2
    || day == EasterSunday(YearOf(day)) + 1
  }

  lemma YearStartOfMonth(year: nat)
    requires 1 <= year
    ensures MonthStart(12 * (year - 1)) == YearStart(year)
    ensures MonthStart(12 * year) == YearStart(year + 1)
  {
    assert 12 * (year - 1) / 12 == year - 1 && 12 * year / 12 == year;
  }

  lemma DayInYear(day: nat, year: nat)
    requires 1 <= year
    ensures YearOf(day) == year <==> YearStart(year) <= day < YearStart(year + 1)
  {
    hide MonthStart, YearStart, MonthOf;
    var m := MonthOf(day);
    YearStartOfMonth(year);
    if m < 12 * (year - 1) {
      MonthStartMonotone(m + 1, 12 * (year - 1));
    } else if 12 * year <= m {
      MonthStartMonotone(12 * year, m);
    } else {
      MonthStartMonotone(12 * (year - 1), m);
      MonthStartMonotone(m + 1, 12 * year);
    }
  }

  predicate IsFixedHoliday(day: nat) {
    (MonthOf(day) % 12 + 1, DayOfMonth(day)) in FIXED_HOLIDAYS
  }

  /** A (month index, day of month) pair among the fixed holidays, by its place after 1 March. */
  lemma FixedPairs(k: nat, dayOfMonth: nat, n: int, leap: nat)
    requires leap <= 1
    requires k == 0 ==> (dayOfMonth == 1 <==> n == -59 - leap)
    requires k != 0 ==> n != -59 - leap
    requires k == 4 <==> 61 <= n < 92
    requires k == 4 ==> dayOfMonth == n - 60
    requires k == 6 <==> 122 <= n < 153
    requires k == 6 ==> dayOfMonth == n - 121
    requires k == 8 <==> 184 <= n < 214
    requires k == 8 ==> dayOfMonth == n - 183
    requires k == 9 <==> 214 <= n < 245
    requires k == 9 ==> dayOfMonth == n - 213
    requires k == 10 <==> 245 <= n < 275
    requires k == 10 ==> dayOfMonth == n - 244
    requires k == 11 <==> 275 <= n < 306
    requires k == 11 ==> dayOfMonth == n - 274
    ensures (k + 1, dayOfMonth) in FIXED_HOLIDAYS
       <==> n in {-59 - leap, 61, 68, 126, 127, 211, 241, 261, 298, 299, 300}
  {
  }

  lemma MonthPlace(day: nat, year: nat, k: nat)
    requires 1 <= year && YearOf(day) == year && k < 12
    ensures var first := YearStart(year) + MonthOffset(year, k);
      && (MonthOf(day) % 12 == k <==> first <= day < first + LengthInYear(year, k))
      && (MonthOf(day) % 12 == k ==> DayOfMonth(day) == day - first + 1)
  {
    hide MonthOf, YearStart, MonthOffset, LengthInYear;
    var m := 12 * (year - 1) + k;
    assert m / 12 == year - 1 && m % 12 == k;
    MonthStep(m);
    MonthUnique(day, m);
  }

  /** Day numbers of the fixed holidays: New Year, then ten dates placed relative to 1 March. */
  lemma FixedDays(year: nat, day: nat)
    requires 1 <= year && YearOf(day) == year
    ensures var march := YearStart(year) + MonthOffset(year, 2);
      IsFixedHoliday(day) <==>
        day == YearStart(year)
        || day - march in {61, 68, 126, 127, 211, 241, 261, 298, 299, 300}
  {
    hide MonthOffset, YearStart, IsLeap, MonthOf, YearOf, DayOfMonth;
    var leap := if IsLeap(year) then 1 else 0;
    Offsets(year);
    MonthPlace(day, year, 0); MonthPlace(day, year, 4); MonthPlace(day, year, 6); MonthPlace(day, year, 8);
    MonthPlace(day, year, 9); MonthPlace(day, year, 10); MonthPlace(day, year, 11);
    FixedPairs(MonthOf(day) % 12, DayOfMonth(day), day - YearStart(year) - 59 - leap, leap);
  }

  /** Good Friday and Easter Monday lie in the year of their Easter and before the first of May. */
  lemma EasterHolidays(year: nat)
    requires 1 <= year
    ensures 2 <= EasterSunday(year)
    ensures var easter, march := EasterSunday(year), YearStart(year) + MonthOffset(year, 2);
      && march + 19 <= easter - 2 && easter + 1 <= march + 56
      && YearOf(easter - 2) == year && YearOf(easter + 1) == year
  {
    hide EasterSunday, EasterShift, EasterDate, MonthOffset, YearOf;
    EasterFromMarch(year);
    EasterRange(year);
    MonthNumber(year, 3);
    Offsets(year);
    DayInYear(EasterSunday(year) - 2, year);
    DayInYear(EasterSunday(year) + 1, year);
  }

  lemma DaysAroundSunday(n: nat)
    requires 2 <= n && Weekday(n) == 6
    ensures Weekday(n - 2) == 4 && Weekday(n + 1) == 0
  {
    var q := n / 7;
    assert n == 7 * q + 6;
    assert n - 2 == 7 * q + 4 && n + 1 == 7 * (q + 1);
  }

  /** Good Friday is a Friday and Easter Monday a Monday. */
  lemma EasterWeekdays(year: nat)
    requires 1 <= year
    ensures EasterSunday(year) >= 2
    ensures Weekday(EasterSunday(year) - 2) == 4 && Weekday(EasterSunday(year) + 1) == 0
  {
    hide *;
    EasterHolidays(year);
    EasterIsSunday(year);
    DaysAroundSunday(EasterSunday(year));
  }

  /** Good Friday and Easter Monday are public holidays; the weekend between starts on a Saturday. */
  lemma EasterDays(year: nat)
    requires 1 <= year
    ensures EasterSunday(year) >= 2 && IsPublicHoliday(EasterSunday(year) - 2) && IsPublicHoliday(EasterSunday(year) + 1)
    ensures Weekday(EasterSunday(year) - 1) == 5
  {
    hide EasterSunday, MonthOffset, YearStart, YearOf, IsFixedHoliday;
    EasterHolidays(year);
    EasterIsSunday(year);
    assert (EasterSunday(year) - 1) % 7 == (EasterSunday(year) % 7 + 6) % 7;
  }

  ghost function HolidaysOfYear(year: nat): (days: set<int>)
    requires 1 <= year
  {
    set day: int | YearStart(year) <= day < YearStart(year + 1) && IsPublicHoliday(day)
  }

  /** The thirteen holidays, placed relative to New Year, 1 March and Easter Sunday. */
  ghost function HolidayNumbers(newYear: int, march: int, easter: int): set<int> {
    {newYear, march + 61, march + 68, march + 126, march + 127, march + 211, march + 241,
     march + 261, march + 298, march + 299, march + 300, easter - 2, easter + 1}
  }

  lemma HolidayIsNumbered(year: nat, day: nat)
    requires 1 <= year && YearOf(day) == year
    ensures IsPublicHoliday(day)
       <==> day in HolidayNumbers(YearStart(year), YearStart(year) + MonthOffset(year, 2), EasterSunday(year))
  {
    hide EasterSunday, YearStart, MonthOffset, IsFixedHoliday;
    FixedDays(year, day);
  }

  lemma NumbersInYear(year: nat, day: int)
    requires 1 <= year
    requires day in HolidayNumbers(YearStart(year), YearStart(year) + MonthOffset(year, 2), EasterSunday(year))
    ensures YearStart(year) <= day < YearStart(year + 1)
  {
    hide EasterSunday, MonthOffset, YearOf;
    EasterHolidays(year);
    Offsets(year);
  }

  lemma NumbersDistinct(newYear: int, march: int, easter: int)
    requires newYear < march && march + 19 <= easter - 2 && easter + 1 <= march + 56
    ensures |HolidayNumbers(newYear, march, easter)| == 13
  {
  }

  lemma NumbersCount(year: nat)
    requires 1 <= year
    ensures |HolidayNumbers(YearStart(year), YearStart(year) + MonthOffset(year, 2), EasterSunday(year))| == 13
  {
    hide EasterSunday, HolidayNumbers, YearStart;
    EasterHolidays(year);
    Offsets(year);
    NumbersDistinct(YearStart(year), YearStart(year) + MonthOffset(year, 2), EasterSunday(year));
  }

  lemma ThirteenHolidays(year: nat)
    requires 1 <= year
    ensures |HolidaysOfYear(year)| == 13
  {
    hide EasterSunday, YearStart, MonthOffset, IsPublicHoliday, HolidayNumbers, YearOf;
    var newYear, march, easter := YearStart(year), YearStart(year) + MonthOffset(year, 2), EasterSunday(year);
    var numbers := HolidayNumbers(newYear, march, easter);
    forall day | day in numbers || day in HolidaysOfYear(year)
      ensures day in numbers && day in HolidaysOfYear(year)
    {
      if day in numbers {
        NumbersInYear(year, day);
      }
      DayInYear(day, year);
      HolidayIsNumbered(year, day);
    }
    assert HolidaysOfYear(year) == numbers;
    NumbersCount(year);
  }
}
