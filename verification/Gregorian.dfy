/** Civil dates of the proleptic Gregorian calendar and their day numbers, counted from
    1970-01-01, as the time values of ECMA-262 define them (section 21.4.1, Time Values
    and Time Range, and the operations DayFromYear, YearFromTime and MakeDay). */
module Gregorian {

  const MS_PER_DAY: int := 86_400_000

  datatype Civil = Civil(year: int, month: int, day: int)

  predicate Leap(y: int) {
    y % 4 == 0 && (y % 100 != 0 || y % 400 == 0)
  }

  function DaysInMonth(y: int, m: int): int
    requires 1 <= m <= 12
  {
    if m == 2 then (if Leap(y) then 29 else 28)
    else if m == 4 || m == 6 || m == 9 || m == 11 then 30 else 31
  }

  predicate ValidCivil(c: Civil) {
    1 <= c.month <= 12 && 1 <= c.day <= DaysInMonth(c.year, c.month)
  }

  /** The calendar order on dates. */
  predicate Before(a: Civil, b: Civil) {
    a.year < b.year
    || (a.year == b.year && (a.month < b.month || (a.month == b.month && a.day < b.day)))
  }

  /** The next date, by the rules of the calendar alone: the reference for day numbers. */
  function Tomorrow(c: Civil): Civil
    requires ValidCivil(c)
  {
    if c.day < DaysInMonth(c.year, c.month) then Civil(c.year, c.month, c.day + 1)
    else if c.month < 12 then Civil(c.year, c.month + 1, 1)
    else Civil(c.year + 1, 1, 1)
  }

  // ---- Day numbers ----

  function YearDays(y: int): int {
    if Leap(y) then 366 else 365
  }

  /** The day number of the first of January, counting the years from 1970 one by one. */
  function DayFromYear(y: int): int
    decreases if y < 1970 then 1970 - y else y - 1970
  {
    if y == 1970 then 0
    else if y > 1970 then DayFromYear(y - 1) + YearDays(y - 1)
    else DayFromYear(y + 1) - YearDays(y)
  }

  /** The closed form by which ECMA-262 defines DayFromYear. */
  function DayFromYearFormula(y: int): int {
    365 * (y - 1970) + (y - 1969) / 4 - (y - 1901) / 100 + (y - 1601) / 400
  }

  /** The days of the year before the first of a month; month 13 is the end of the year. */
  function DaysBeforeMonth(y: int, m: int): int
    requires 1 <= m <= 13
  {
    [0, 31, 59, 90, 120, 151, 181, 212, 243, 273, 304, 334, 365][m - 1] + if m > 2 && Leap(y) then 1 else 0
  }

  function DayOf(c: Civil): int
    requires 1 <= c.month <= 12
  {
    DayFromYear(c.year) + DaysBeforeMonth(c.year, c.month) + c.day - 1
  }

  /** The year a day number falls in: the largest whose first day is not after it. */
  function YearOf(n: int): (y: int)
    ensures DayFromYear(y) <= n < DayFromYear(y + 1)
  {
    if n >= 0 then YearUp(n, 1970) else YearDown(n, 1969)
  }

  function YearUp(n: int, y: int): (r: int)
    requires DayFromYear(y) <= n
    ensures DayFromYear(r) <= n < DayFromYear(r + 1)
    decreases n - DayFromYear(y)
  {
    YearStep(y);
    if n < DayFromYear(y + 1) then y else YearUp(n, y + 1)
  }

  function YearDown(n: int, y: int): (r: int)
    requires n < DayFromYear(y + 1)
    ensures DayFromYear(r) <= n < DayFromYear(r + 1)
    decreases DayFromYear(y + 1) - n
  {
    YearStep(y);
    if DayFromYear(y) <= n then y else YearDown(n, y - 1)
  }

  /** The month a zero-based day of the year falls in. */
  function MonthOf(y: int, dayOfYear: int, m: int := 12): (r: int)
    requires 1 <= m <= 12
    requires 0 <= dayOfYear < DaysBeforeMonth(y, m + 1)
    ensures 1 <= r <= m
    ensures DaysBeforeMonth(y, r) <= dayOfYear < DaysBeforeMonth(y, r + 1)
  {
    if DaysBeforeMonth(y, m) <= dayOfYear then m else MonthOf(y, dayOfYear, m - 1)
  }

  function CivilOf(n: int): (c: Civil)
    ensures ValidCivil(c) && DayOf(c) == n
  {
    var y := YearOf(n);
    var d := n - DayFromYear(y);
    YearStep(y);
    var m := MonthOf(y, d);
    MonthLength(y, m);
    Civil(y, m, d - DaysBeforeMonth(y, m) + 1)
  }

  lemma {:induction false} FormulaCountsYears(y: int)
    ensures DayFromYear(y) == DayFromYearFormula(y)
    decreases if y < 1970 then 1970 - y else y - 1970
  {
    if y > 1970 {
      FormulaCountsYears(y - 1);
      FormulaStep(y - 1);
    } else if y < 1970 {
      FormulaCountsYears(y + 1);
      FormulaStep(y);
    }
  }

  lemma FormulaStep(y: int)
    ensures DayFromYearFormula(y + 1) - DayFromYearFormula(y) == YearDays(y)
  {
    Leaps4(y);
    Leaps100(y);
    Leaps400(y);
    CenturiesAreFours(y);
  }

  lemma Leaps4(y: int)
    ensures (y - 1968) / 4 == (y - 1969) / 4 + if y % 4 == 0 then 1 else 0
  {
  }

  lemma Leaps100(y: int)
    ensures (y - 1900) / 100 == (y - 1901) / 100 + if y % 100 == 0 then 1 else 0
  {
    var q, r := y / 100, y % 100;
    assert y - 1900 == 100 * (q - 19) + r;
    assert (y - 1901) / 100 == if r == 0 then q - 20 else q - 19;
  }

  lemma Leaps400(y: int)
    ensures (y - 1600) / 400 == (y - 1601) / 400 + if y % 400 == 0 then 1 else 0
  {
    var q, r := y / 400, y % 400;
    assert y - 1600 == 400 * (q - 4) + r;
    assert (y - 1601) / 400 == if r == 0 then q - 5 else q - 4;
  }

  lemma CenturiesAreFours(y: int)
    ensures y % 100 == 0 ==> y % 4 == 0
    ensures y % 400 == 0 ==> y % 100 == 0
  {
    if y % 100 == 0 {
      Century(y, y / 100);
    }
    if y % 400 == 0 {
      FourCenturies(y, y / 400);
    }
  }

  lemma Century(y: int, k: int)
    requires y == 100 * k
    ensures y % 4 == 0
  {
    assert y == 4 * (25 * k);
  }

  lemma FourCenturies(y: int, k: int)
    requires y == 400 * k
    ensures y % 100 == 0
  {
    assert y == 100 * (4 * k);
  }

  lemma MonthLength(y: int, m: int)
    requires 1 <= m <= 12
    ensures DaysBeforeMonth(y, m + 1) - DaysBeforeMonth(y, m) == DaysInMonth(y, m)
  {
  }

  lemma YearStep(y: int)
    ensures DayFromYear(y + 1) == DayFromYear(y) + YearDays(y)
    ensures DaysBeforeMonth(y, 13) == YearDays(y)
  {
  }

  lemma {:induction false} YearsIncrease(a: int, b: int)
    requires a <= b
    ensures DayFromYear(a) + 365 * (b - a) <= DayFromYear(b)
    decreases b - a
  {
    if a < b {
      YearStep(a);
      YearsIncrease(a + 1, b);
    }
  }

  lemma {:induction false} MonthsIncrease(y: int, a: int, b: int)
    requires 1 <= a <= b <= 13
    ensures DaysBeforeMonth(y, a) <= DaysBeforeMonth(y, b)
    decreases b - a
  {
    if a < b {
      MonthsIncrease(y, a + 1, b);
      MonthLength(y, a);
    }
  }

  /** Day numbers follow the calendar order, so distinct dates have distinct numbers. */
  lemma {:induction false} DayOfOrder(a: Civil, b: Civil)
    requires ValidCivil(a) && ValidCivil(b)
    ensures Before(a, b) <==> DayOf(a) < DayOf(b)
    ensures DayOf(a) == DayOf(b) <==> a == b
  {
    if a == b {
    } else if Before(a, b) {
      DayOfIncreases(a, b);
    } else {
      DayOfIncreases(b, a);
    }
  }

  lemma DayOfIncreases(a: Civil, b: Civil)
    requires ValidCivil(a) && ValidCivil(b) && Before(a, b)
    ensures DayOf(a) < DayOf(b)
  {
    MonthLength(a.year, a.month);
    MonthLength(b.year, b.month);
    if a.year < b.year {
      YearStep(a.year);
      YearsIncrease(a.year + 1, b.year);
      MonthsIncrease(a.year, a.month + 1, 13);
      MonthsIncrease(b.year, 1, b.month);
    } else if a.month < b.month {
      MonthsIncrease(a.year, a.month + 1, b.month);
    }
  }

  /** A date is in or after a year exactly when its number is at or after the year's first day. */
  lemma YearBound(c: Civil, y: int)
    requires ValidCivil(c)
    ensures c.year >= y <==> DayOf(c) >= DayFromYearFormula(y)
  {
    FormulaCountsYears(y);
    MonthLength(c.year, c.month);
    MonthsIncrease(c.year, 1, c.month);
    MonthsIncrease(c.year, c.month + 1, 13);
    YearStep(c.year);
    if c.year >= y { YearsIncrease(y, c.year); } else { YearsIncrease(c.year + 1, y); }
  }

  /** Dates and day numbers are in bijection: `CivilOf` promises one direction, this is the other. */
  lemma {:induction false} CivilRoundTrip(c: Civil)
    requires ValidCivil(c)
    ensures CivilOf(DayOf(c)) == c
  {
    DayOfOrder(CivilOf(DayOf(c)), c);
  }

  /** The numbering is the one that counts tomorrows from 1970-01-01. */
  lemma {:induction false} DayOfTomorrow(c: Civil)
    requires ValidCivil(c)
    ensures ValidCivil(Tomorrow(c)) && DayOf(Tomorrow(c)) == DayOf(c) + 1
    ensures DayOf(Civil(1970, 1, 1)) == 0
  {
    MonthLength(c.year, c.month);
    YearStep(c.year);
  }
}
