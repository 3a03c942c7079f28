/**
 UTC months on the proleptic Gregorian calendar: `Date.UTC` and the `getUTC*` fields as in section 21.4.1 of
 ECMA-262, the month helpers built on them, and the proof that months tile time.
 Instants are milliseconds since 1970-01-01T00:00:00Z, months of a year count from 0.
 */
module Calendar {
  import opened Division

  const MS_PER_DAY := 86_400_000

  // ----- Time values (ECMA-262, section 21.4.1) -----

  predicate IsLeap(y: int) {
    y % 4 == 0 && (y % 100 != 0 || y % 400 == 0)
  }

  function DaysInYear(y: int): int {
    if IsLeap(y) then 366 else 365
  }

  function DayFromYear(y: int): int {
    365 * (y - 1970) + (y - 1969) / 4 - (y - 1901) / 100 + (y - 1601) / 400
  }

  /** Days of the year before the month begins. */
  function DaysBeforeMonth(m: int, leap: bool): int
    requires 0 <= m <= 12
  {
    var table := match m {
      case 0 => 0 case 1 => 31 case 2 => 59 case 3 => 90 case 4 => 120 case 5 => 151 case 6 => 181
      case 7 => 212 case 8 => 243 case 9 => 273 case 10 => 304 case 11 => 334 case _ => 365
    };
    table + if leap && m >= 2 then 1 else 0
  }

  function Day(t: int): int {
    t / MS_PER_DAY
  }

  lemma {:induction false} YearFollowsYear(y: int)
    ensures DayFromYear(y + 1) == DayFromYear(y) + DaysInYear(y)
  {
    DivStep(y - 1969, 4);
    DivStep(y - 1901, 100);
    DivStep(y - 1601, 400);
  }

  /** The year that contains a day, found by walking from a year that begins no later. */
  function YearUp(day: int, y: int): (r: int)
    requires DayFromYear(y) <= day
    ensures DayFromYear(r) <= day < DayFromYear(r + 1)
    decreases day - DayFromYear(y)
  {
    YearFollowsYear(y);
    if day < DayFromYear(y + 1) then y else YearUp(day, y + 1)
  }

  function YearDown(day: int, y: int): (r: int)
    requires day < DayFromYear(y)
    ensures DayFromYear(r) <= day < DayFromYear(r + 1)
    decreases DayFromYear(y) - day
  {
    YearFollowsYear(y - 1);
    if DayFromYear(y - 1) <= day then y - 1 else YearDown(day, y - 1)
  }

  function YearOfDay(day: int): (r: int)
    ensures DayFromYear(r) <= day < DayFromYear(r + 1)
  {
    if DayFromYear(1970) <= day then YearUp(day, 1970) else YearDown(day, 1970)
  }

  /** The month within the year that a day of the year falls in. */
  function MonthWithin(dayOfYear: int, leap: bool, m: int): (r: int)
    requires 0 <= m < 12 && DaysBeforeMonth(m, leap) <= dayOfYear < DaysBeforeMonth(12, leap)
    ensures 0 <= r < 12 && DaysBeforeMonth(r, leap) <= dayOfYear < DaysBeforeMonth(r + 1, leap)
    decreases 12 - m
  {
    if dayOfYear < DaysBeforeMonth(m + 1, leap) then m else MonthWithin(dayOfYear, leap, m + 1)
  }

  function GetUTCFullYear(t: int): int {
    YearOfDay(Day(t))
  }

  lemma {:induction false} MonthOfDay(day: int)
    ensures var y := YearOfDay(day);
      0 <= day - DayFromYear(y) < DaysBeforeMonth(12, IsLeap(y))
  {
    hide DayFromYear, IsLeap, YearOfDay;
    YearFollowsYear(YearOfDay(day));
  }

  function GetUTCMonth(t: int): (m: int)
    ensures 0 <= m < 12
  {
    var y := GetUTCFullYear(t);
    MonthOfDay(Day(t));
    MonthWithin(Day(t) - DayFromYear(y), IsLeap(y), 0)
  }

  /** `MakeDay(y, m, d)`: a month outside 0..11 carries into the year. */
  function MakeDay(y: int, m: int, d: int): int {
    DayFromYear(y + m / 12) + DaysBeforeMonth(m % 12, IsLeap(y + m / 12)) + d - 1
  }

  /** `Date.UTC`: the years 0 to 99 stand for 1900 to 1999. */
  function FullYear(y: int): int {
    if 0 <= y <= 99 then 1900 + y else y
  }

  function DateUTC(y: int, m: int, d: int, ms: int): int {
    MakeDay(FullYear(y), m, d) * MS_PER_DAY + ms
  }

  // ----- The month helpers -----

  function StartOfUtcMonth(t: int): int {
    DateUTC(GetUTCFullYear(t), GetUTCMonth(t), 1, 0)
  }

  /** The last millisecond of the month: day 0 of the next month at 23:59:59.999. */
  function EndOfUtcMonth(t: int): int {
    DateUTC(GetUTCFullYear(t), GetUTCMonth(t) + 1, 0, MS_PER_DAY - 1)
  }

  function AddUtcMonths(t: int, months: int): int {
    DateUTC(GetUTCFullYear(t), GetUTCMonth(t) + months, 1, 0)
  }

  function MonthDiff(from: int, to: int): int {
    (GetUTCFullYear(to) - GetUTCFullYear(from)) * 12 + (GetUTCMonth(to) - GetUTCMonth(from))
  }

  // ----- Months as consecutive numbers -----

  /** Months since January of the year 0. */
  function MonthIndex(t: int): int {
    12 * GetUTCFullYear(t) + GetUTCMonth(t)
  }

  /** The first day of a month. */
  function FirstDay(n: int): int {
    DayFromYear(n / 12) + DaysBeforeMonth(n % 12, IsLeap(n / 12))
  }

  /** The first instant of a month. */
  function MonthStart(n: int): int {
    FirstDay(n) * MS_PER_DAY
  }

  lemma {:induction false} CarryMonths(y: int, m: int)
    ensures (12 * y + m) / 12 == y + m / 12 && (12 * y + m) % 12 == m % 12
  {
    QuotientIs(12 * y + m, 12, y + m / 12, m % 12);
  }

  lemma {:induction false} DateUTCIsMonthStart(y: int, m: int)
    ensures DateUTC(y, m, 1, 0) == MonthStart(12 * FullYear(y) + m)
  {
    CarryMonths(FullYear(y), m);
  }

  lemma {:induction false} MonthSpan(y: int, m: int)
    requires 0 <= m < 12
    ensures FirstDay(12 * y + m) == DayFromYear(y) + DaysBeforeMonth(m, IsLeap(y))
    ensures FirstDay(12 * y + m + 1) == DayFromYear(y) + DaysBeforeMonth(m + 1, IsLeap(y))
  {
    hide DaysBeforeMonth, DayFromYear, IsLeap;
    QuotientIs(12 * y + m, 12, y, m);
    if m == 11 {
      QuotientIs(12 * y + m + 1, 12, y + 1, 0);
      WholeYear(y);
    } else {
      QuotientIs(12 * y + m + 1, 12, y, m + 1);
    }
  }

  lemma WholeYear(y: int)
    ensures DayFromYear(y + 1) + DaysBeforeMonth(0, IsLeap(y + 1)) == DayFromYear(y) + DaysBeforeMonth(12, IsLeap(y))
  {
    hide DayFromYear, IsLeap;
    YearFollowsYear(y);
  }

  lemma {:induction false} MonthFollowsMonth(n: int)
    ensures FirstDay(n) < FirstDay(n + 1)
  {
    hide FirstDay, DaysBeforeMonth, DayFromYear;
    MonthSpan(n / 12, n % 12);
    MonthsGrow(n % 12, IsLeap(n / 12));
  }

  lemma MonthsGrow(m: int, leap: bool)
    requires 0 <= m < 12
    ensures DaysBeforeMonth(m, leap) < DaysBeforeMonth(m + 1, leap)
  {
  }

  lemma {:induction false} MonthsAscend(a: int, b: int)
    requires a <= b
    ensures FirstDay(a) + (b - a) <= FirstDay(b)
    decreases b - a
  {
    if a < b {
      MonthsAscend(a, b - 1);
      MonthFollowsMonth(b - 1);
    }
  }

  lemma {:induction false} MonthStartsAscend(a: int, b: int)
    ensures a < b <==> MonthStart(a) < MonthStart(b)
    ensures a <= b ==> MonthStart(a) <= MonthStart(b)
  {
    if a <= b {
      MonthsAscend(a, b);
    } else {
      MonthsAscend(b, a);
    }
  }

  lemma {:induction false} DayHolds(t: int, from: int, to: int)
    ensures from <= Day(t) < to <==> from * MS_PER_DAY <= t < to * MS_PER_DAY
  {
  }

  lemma {:induction false} FieldsHold(t: int)
    ensures var y, m := GetUTCFullYear(t), GetUTCMonth(t);
      DayFromYear(y) + DaysBeforeMonth(m, IsLeap(y)) <= Day(t) < DayFromYear(y) + DaysBeforeMonth(m + 1, IsLeap(y))
  {
    MonthOfDay(Day(t));
  }

  lemma {:induction false} InsideItsMonth(t: int)
    ensures MonthStart(MonthIndex(t)) <= t < MonthStart(MonthIndex(t) + 1)
  {
    hide FirstDay, DayFromYear, DaysBeforeMonth, GetUTCFullYear, GetUTCMonth;
    FieldsHold(t);
    MonthSpan(GetUTCFullYear(t), GetUTCMonth(t));
    DayHolds(t, FirstDay(MonthIndex(t)), FirstDay(MonthIndex(t) + 1));
  }

  lemma {:induction false} InOneMonthOnly(t: int, i: int, n: int)
    requires MonthStart(i) <= t < MonthStart(i + 1)
    ensures MonthStart(n) <= t < MonthStart(n + 1) <==> n == i
  {
    hide MonthStart;
    if n < i {
      MonthStartsAscend(n + 1, i);
    } else if n > i {
      MonthStartsAscend(i + 1, n);
    }
  }

  /** An instant lies in exactly one month: the one its fields name. */
  lemma {:induction false} OnlyOneMonth(t: int, n: int)
    ensures MonthStart(n) <= t < MonthStart(n + 1) <==> n == MonthIndex(t)
  {
    InsideItsMonth(t);
    InOneMonthOnly(t, MonthIndex(t), n);
  }

  lemma {:induction false} MonthIndexOfStart(n: int)
    ensures MonthIndex(MonthStart(n)) == n
  {
    MonthStartsAscend(n, n + 1);
    OnlyOneMonth(MonthStart(n), n);
  }

  lemma {:induction false} FieldsOfIndex(t: int)
    ensures MonthIndex(t) / 12 == GetUTCFullYear(t) && MonthIndex(t) % 12 == GetUTCMonth(t)
  {
    QuotientIs(MonthIndex(t), 12, GetUTCFullYear(t), GetUTCMonth(t));
  }

  /** `Date.UTC` reads the years 0 to 99 as 1900 to 1999, so the helpers move such instants to another year. */
  predicate IsShortYear(t: int) {
    0 <= GetUTCFullYear(t) <= 99
  }

  /** The number of the month the helpers compute from an instant. */
  function HelperIndex(t: int): int {
    12 * FullYear(GetUTCFullYear(t)) + GetUTCMonth(t)
  }

  lemma HelperIndexIsMonthIndex(t: int)
    ensures HelperIndex(t) == MonthIndex(t) <==> !IsShortYear(t)
  {
  }

  lemma {:induction false} HelpersAreMonthStarts(t: int, months: int)
    ensures StartOfUtcMonth(t) == MonthStart(HelperIndex(t))
    ensures AddUtcMonths(t, months) == MonthStart(HelperIndex(t) + months)
    ensures EndOfUtcMonth(t) == MonthStart(HelperIndex(t) + 1) - 1
  {
    hide MonthStart, FirstDay, MakeDay, DayFromYear, GetUTCFullYear, GetUTCMonth;
    var y, m := GetUTCFullYear(t), GetUTCMonth(t);
    DateUTCIsMonthStart(y, m);
    DateUTCIsMonthStart(y, m + months);
    DateUTCIsMonthStart(y, m + 1);
    DayZero(FullYear(y), m + 1);
  }

  lemma DayZero(y: int, m: int)
    ensures MakeDay(y, m, 0) * MS_PER_DAY + (MS_PER_DAY - 1) == MakeDay(y, m, 1) * MS_PER_DAY - 1
  {
  }

  /**
   Months tile time: the end of a month plus one millisecond is always the start of the next, and an instant
   lies between the start and the end of its month exactly when its year is not one of 0 to 99.
   */
  lemma {:induction false} MonthsTileTime(t: int)
    ensures EndOfUtcMonth(t) + 1 == AddUtcMonths(t, 1)
    ensures StartOfUtcMonth(t) <= t <= EndOfUtcMonth(t) <==> !IsShortYear(t)
    ensures StartOfUtcMonth(StartOfUtcMonth(t)) == StartOfUtcMonth(t)
  {
    HelpersAreMonthStarts(t, 1);
    OnlyOneMonth(t, HelperIndex(t));
    var start := MonthStart(HelperIndex(t));
    MonthIndexOfStart(HelperIndex(t));
    FieldsOfIndex(start);
    QuotientIs(HelperIndex(t), 12, FullYear(GetUTCFullYear(t)), GetUTCMonth(t));
    HelpersAreMonthStarts(start, 0);
  }

  lemma MonthDiffOfIndex(from: int, to: int)
    ensures MonthDiff(from, to) == MonthIndex(to) - MonthIndex(from)
  {
  }

  /** Adding months and measuring the difference agree exactly when the year is not one of 0 to 99. */
  lemma {:induction false} AddThenDiff(t: int, months: int)
    ensures MonthDiff(t, AddUtcMonths(t, months)) == months <==> !IsShortYear(t)
  {
    hide MonthDiff, MonthStart, AddUtcMonths, GetUTCFullYear, GetUTCMonth;
    HelpersAreMonthStarts(t, months);
    MonthIndexOfStart(HelperIndex(t) + months);
    MonthDiffOfIndex(t, AddUtcMonths(t, months));
  }

  /** In all years the difference is zero exactly in the same month, and positive exactly towards a later one. */
  lemma {:induction false} MonthDiffIsDistance(a: int, b: int)
    ensures MonthDiff(a, b) == 0 <==> MonthStart(MonthIndex(a)) <= b < MonthStart(MonthIndex(a) + 1)
    ensures MonthDiff(a, b) > 0 <==> MonthStart(MonthIndex(a) + 1) <= b
  {
    hide MonthDiff, MonthStart, MonthIndex;
    MonthDiffOfIndex(a, b);
    OnlyOneMonth(b, MonthIndex(a));
    InsideItsMonth(b);
    MonthStartsAscend(MonthIndex(a) + 1, MonthIndex(b));
    MonthStartsAscend(MonthIndex(b) + 1, MonthIndex(a) + 1);
  }

  /** Outside the years 0 to 99 the starts the helpers compute are ordered and equal as the months are. */
  lemma {:induction false} StartsAreOrdered(a: int, b: int)
    requires !IsShortYear(a) && !IsShortYear(b)
    ensures MonthIndex(a) < MonthIndex(b) <==> StartOfUtcMonth(a) < StartOfUtcMonth(b)
    ensures MonthIndex(a) == MonthIndex(b) <==> StartOfUtcMonth(a) == StartOfUtcMonth(b)
  {
    hide MonthStart, MonthIndex, StartOfUtcMonth, GetUTCFullYear, GetUTCMonth;
    HelpersAreMonthStarts(a, 0);
    HelpersAreMonthStarts(b, 0);
    HelperIndexIsMonthIndex(a);
    HelperIndexIsMonthIndex(b);
    MonthStartsAscend(MonthIndex(a), MonthIndex(b));
    MonthStartsAscend(MonthIndex(b), MonthIndex(a));
  }

  /** The helpers take the first instant of the year 50 to another century. */
  lemma {:induction false} ShortYearsFail()
    ensures var t := MonthStart(12 * 50);
      && GetUTCFullYear(t) == 50 && !(StartOfUtcMonth(t) <= t <= EndOfUtcMonth(t))
      && MonthDiff(t, AddUtcMonths(t, 1)) != 1
  {
    hide StartOfUtcMonth, EndOfUtcMonth, AddUtcMonths, MonthDiff, MonthStart;
    var t := MonthStart(12 * 50);
    MonthIndexOfStart(12 * 50);
    FieldsOfIndex(t);
    MonthsTileTime(t);
    AddThenDiff(t, 1);
  }

  // ----- The calendar itself -----

  /**
   Months have the lengths of the Gregorian calendar: 31 or 30 days, and February 29 in the years divisible by 4
   but not by 100, or by 400, and else 28. (Months count from 0.)
   */
  lemma {:induction false} MonthLengths(t: int)
    requires !(0 <= GetUTCFullYear(t) <= 99)
    ensures var y, m := GetUTCFullYear(t), GetUTCMonth(t);
      EndOfUtcMonth(t) + 1 - StartOfUtcMonth(t) == 86_400_000 *
        (if m == 1 then (if y % 4 == 0 && (y % 100 != 0 || y % 400 == 0) then 29 else 28)
         else if m == 3 || m == 5 || m == 8 || m == 10 then 30
         else 31)
  {
    var y, m := GetUTCFullYear(t), GetUTCMonth(t);
    hide GetUTCFullYear, GetUTCMonth, FirstDay, DayFromYear, DaysBeforeMonth, IsLeap, StartOfUtcMonth, EndOfUtcMonth;
    HelpersAreMonthStarts(t, 0);
    MonthSpan(y, m);
    TableLengths(m, IsLeap(y));
    LeapYears(y);
    assert HelperIndex(t) == 12 * y + m;
  }

  lemma TableLengths(m: int, leap: bool)
    requires 0 <= m < 12
    ensures DaysBeforeMonth(m + 1, leap) - DaysBeforeMonth(m, leap)
         == if m == 1 then (if leap then 29 else 28)
            else if m == 3 || m == 5 || m == 8 || m == 10 then 30
            else 31
  {
  }

  lemma LeapYears(y: int)
    ensures IsLeap(y) <==> y % 4 == 0 && (y % 100 != 0 || y % 400 == 0)
  {
  }

  /** Time is counted from the start of January 1970. */
  lemma {:induction false} EpochIsJanuary1970()
    ensures GetUTCFullYear(0) == 1970 && GetUTCMonth(0) == 0 && StartOfUtcMonth(0) == 0
  {
    hide GetUTCFullYear, GetUTCMonth, StartOfUtcMonth, MonthIndex, MonthStart;
    StartOf1970();
    MonthIndexOfStart(12 * 1970);
    FieldsOfIndex(0);
    HelpersAreMonthStarts(0, 0);
    HelperIndexIsMonthIndex(0);
  }

  lemma StartOf1970()
    ensures MonthStart(12 * 1970) == 0
  {
  }

  /** The month after December is the next year's January, and after any other month the next one of its year. */
  lemma {:induction false} FieldsAdvance(t: int)
    requires !(0 <= GetUTCFullYear(t) <= 99)
    ensures var next := EndOfUtcMonth(t) + 1;
      if GetUTCMonth(t) == 11 then GetUTCFullYear(next) == GetUTCFullYear(t) + 1 && GetUTCMonth(next) == 0
      else GetUTCFullYear(next) == GetUTCFullYear(t) && GetUTCMonth(next) == GetUTCMonth(t) + 1
  {
    hide GetUTCFullYear, GetUTCMonth, MonthStart, EndOfUtcMonth, MonthIndex;
    var next := EndOfUtcMonth(t) + 1;
    HelpersAreMonthStarts(t, 0);
    HelperIndexIsMonthIndex(t);
    MonthIndexOfStart(MonthIndex(t) + 1);
    assert MonthIndex(next) == MonthIndex(t) + 1;
    FieldsOfIndex(t);
    FieldsOfIndex(next);
  }

  /** Adding months always gives the first instant of a month, `months` later. */
  lemma {:induction false} AddedMonthsAreStarts(t: int, months: int)
    requires !(0 <= GetUTCFullYear(t) <= 99) && !(0 <= GetUTCFullYear(AddUtcMonths(t, months)) <= 99)
    ensures StartOfUtcMonth(AddUtcMonths(t, months)) == AddUtcMonths(t, months)
    ensures AddUtcMonths(t, months + 1) == EndOfUtcMonth(AddUtcMonths(t, months)) + 1
    ensures AddUtcMonths(t, 0) == StartOfUtcMonth(t)
  {
    hide GetUTCFullYear, GetUTCMonth, MonthStart, AddUtcMonths, StartOfUtcMonth, EndOfUtcMonth;
    HelpersAreMonthStarts(t, months);
    HelpersAreMonthStarts(t, months + 1);
    HelpersAreMonthStarts(t, 0);
    MonthIndexOfStart(HelperIndex(t) + months);
    HelpersAreMonthStarts(AddUtcMonths(t, months), 0);
    HelperIndexIsMonthIndex(AddUtcMonths(t, months));
  }
}
