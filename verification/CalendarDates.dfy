/** Calendar dates as strings (YYYY-MM-DD): validation, serials and day shifts of
    src/lib/calendar-timezone.ts, and the two other date shifts of the repository. */
module CalendarDates {
  import opened Wrappers
  import opened Decimal
  import opened Gregorian

  // ---- Date values, as in ECMA-262 ----

  /** The largest day number a Date can hold (TimeClip, section 21.4.1 of ECMA-262). */
  const MAX_DAY: int := 100_000_000

  /** MakeDay: the month counts from zero and both month and day may overflow. */
  function MakeDay(year: int, month0: int, date: int): int {
    DayOf(Civil(year + month0 / 12, month0 % 12 + 1, 1)) + date - 1
  }

  /** Date.UTC reads the years 0 to 99 as 1900 to 1999. */
  function FullYear(year: int): int {
    if 0 <= year <= 99 then 1900 + year else year
  }

  function DateUtcDay(year: int, month0: int, date: int): int {
    MakeDay(FullYear(year), month0, date)
  }

  function Pad2(n: nat): string {
    PadStart(Dec(n), 2)
  }

  /** `new Date(day).toISOString().slice(0, 10)`: outside the years 0 to 9999 the year takes
      a sign and six digits, and the cut falls after the month. */
  function IsoDate(n: int): string {
    var c := CivilOf(n);
    if 0 <= c.year <= 9999 then PadStart(Dec(c.year), 4) + "-" + Pad2(c.month) + "-" + Pad2(c.day)
    else if c.year > 9999 then "+" + PadStart(Dec(c.year), 6) + "-" + Pad2(c.month)
    else "-" + PadStart(Dec(-c.year), 6) + "-" + Pad2(c.month)
  }

  // ---- Date strings ----

  /** The regular expression for four digits, two and two, between hyphens. */
  predicate DatePattern(v: string) {
    |v| == 10 && AllDigits(v[..4]) && v[4] == '-' && AllDigits(v[5..7]) && v[7] == '-' && AllDigits(v[8..])
  }

  function Fields(v: string): Civil
    requires DatePattern(v)
  {
    Civil(Nat(v[..4]), Nat(v[5..7]), Nat(v[8..]))
  }

  /** The milliseconds of UTC midnight of the date, or None where the source throws. */
  function CalendarSerial(v: string): Option<int> {
    if !DatePattern(v) then None else
    var c := Fields(v);
    var day := DateUtcDay(c.year, c.month - 1, c.day);
    if CivilOf(day) == c then Some(day * MS_PER_DAY) else None
  }

  predicate InRange(day: int) {
    -MAX_DAY <= day <= MAX_DAY
  }

  /** The time value of a Date: out of range it is NaN, and printing it throws. */
  function TimeClip(day: int): Option<int> {
    if InRange(day) then Some(day) else None
  }

  function Printed(day: Option<int>): Option<string> {
    match day
    case None => None
    case Some(n) => Some(IsoDate(n))
  }

  function AddedDay(c: Civil, days: int): Option<int> {
    TimeClip(DateUtcDay(c.year, c.month - 1, c.day + days))
  }

  function AddCalendarDays(v: string, days: int): Option<string> {
    if DatePattern(v) then Printed(AddedDay(Fields(v), days)) else None
  }

  /** A date in the ISO format of `new Date(...)`, which allows no overflow. */
  predicate IsoReadable(v: string) {
    DatePattern(v) && ValidCivil(Fields(v))
  }

  /** Noon UTC of the date, moved by `setUTCDate`: the last day has no noon in range. */
  function AuditDay(c: Civil, days: int): Option<int>
    requires ValidCivil(c)
  {
    var noon := CivilOf(DayOf(c));
    var day := MakeDay(noon.year, noon.month - 1, noon.day + days);
    if -MAX_DAY <= day < MAX_DAY then Some(day) else None
  }

  /** The audit panel's shift. */
  function ShiftCalendarDate(v: string, days: int): Option<string> {
    if IsoReadable(v) then Printed(AuditDay(Fields(v), days)) else None
  }

  /** UTC midnight of the date less whole days of milliseconds. */
  function DashboardDay(c: Civil, days: int): Option<int>
    requires ValidCivil(c)
  {
    var start := DayOf(c) * MS_PER_DAY - (days - 1) * MS_PER_DAY;
    if -MAX_DAY * MS_PER_DAY <= start <= MAX_DAY * MS_PER_DAY then Some(start / MS_PER_DAY) else None
  }

  /** The dashboard's start of a period of whole days. */
  function DashboardFrom(to: string, days: int): Option<string> {
    if IsoReadable(to) then Printed(DashboardDay(Fields(to), days)) else None
  }

  // ---- What a valid date is ----

  /** The day numbers of 0100-01-01 and of 9999-12-31. */
  const FIRST_DAY: int := -683_003
  const LAST_DAY: int := 2_932_896

  /** A well-formed date the calendar has, from the year 100 on. */
  predicate ValidDate(v: string) {
    DatePattern(v) && ValidCivil(Fields(v)) && Fields(v).year >= 100
  }

  function DayNumber(v: string): int
    requires ValidDate(v)
  {
    DayOf(Fields(v))
  }

  lemma MakeDayOfCivil(c: Civil, days: int)
    requires 1 <= c.month <= 12
    ensures MakeDay(c.year, c.month - 1, c.day + days) == DayOf(c) + days
  {
    assert (c.month - 1) / 12 == 0 && (c.month - 1) % 12 == c.month - 1;
  }

  /** The century rule of Date.UTC moves a date to another year, however the month overflows. */
  lemma RemappedYear(y: int, month0: int, date: int)
    requires 0 <= y <= 99 && -1 <= month0 <= 98 && 0 <= date <= 99
    ensures CivilOf(DateUtcDay(y, month0, date)).year > 99
  {
    var first := Civil(1900 + y + month0 / 12, month0 % 12 + 1, 1);
    YearBound(first, 1899);
    YearBound(CivilOf(DateUtcDay(y, month0, date)), 100);
  }

  /** Writing a date out and comparing its fields finds exactly the dates of the calendar,
      and of those only the years Date.UTC leaves alone. */
  lemma CheckAccepts(c: Civil)
    requires 0 <= c.year && 0 <= c.month <= 99 && 0 <= c.day <= 99
    ensures CivilOf(DateUtcDay(c.year, c.month - 1, c.day)) == c <==> ValidCivil(c) && c.year >= 100
    ensures ValidCivil(c) && c.year >= 100 ==> DateUtcDay(c.year, c.month - 1, c.day) == DayOf(c)
  {
    if c.year <= 99 {
      RemappedYear(c.year, c.month - 1, c.day);
    } else if ValidCivil(c) {
      MakeDayOfCivil(c, 0);
      CivilRoundTrip(c);
    }
  }

  /** `calendarSerial` accepts exactly the dates of the calendar from the year 100 on, and
      gives UTC midnight of the date. */
  lemma {:induction false} SerialAccepts(v: string)
    ensures CalendarSerial(v) == if ValidDate(v) then Some(DayNumber(v) * MS_PER_DAY) else None
  {
    if DatePattern(v) {
      NatBounds(v);
      CheckAccepts(Fields(v));
    }
  }

  lemma NatBounds(v: string)
    requires DatePattern(v)
    ensures 0 <= Fields(v).year <= 9999 && 0 <= Fields(v).month <= 99 && 0 <= Fields(v).day <= 99
  {
    NatBound(v[..4]);
    NatBound(v[5..7]);
    NatBound(v[8..]);
    assert Pow10(2) == 100 && Pow10(4) == 10000;
  }

  lemma ValidRange(v: string)
    requires ValidDate(v)
    ensures FIRST_DAY <= DayNumber(v) <= LAST_DAY
  {
    NatBounds(v);
    YearBound(Fields(v), 100);
    YearBound(Fields(v), 10000);
  }

  lemma CivilInRange(n: int)
    ensures FIRST_DAY <= n <= LAST_DAY <==> 100 <= CivilOf(n).year <= 9999
  {
    YearBound(CivilOf(n), 100);
    YearBound(CivilOf(n), 10000);
  }

  // ---- Printing and reading dates ----

  lemma FixedNumeral(n: nat, width: nat)
    requires width > 0 && n < Pow10(width)
    ensures |PadStart(Dec(n), width)| == width && AllDigits(PadStart(Dec(n), width))
    ensures Nat(PadStart(Dec(n), width)) == n
  {
    DecLength(n, width);
    DecRoundTrip(n);
    PadStartKeepsNat(Dec(n), width);
  }

  lemma IsoDateReads(n: int)
    requires 0 <= CivilOf(n).year <= 9999
    ensures DatePattern(IsoDate(n)) && Fields(IsoDate(n)) == CivilOf(n)
  {
    var c := CivilOf(n);
    assert Pow10(2) == 100 && Pow10(4) == 10000;
    FixedNumeral(c.year, 4);
    FixedNumeral(c.month, 2);
    FixedNumeral(c.day, 2);
    var v := IsoDate(n);
    assert v[..4] == PadStart(Dec(c.year), 4);
    assert v[5..7] == Pad2(c.month);
    assert v[8..] == Pad2(c.day);
  }

  /** Day numbers in range and valid dates are in bijection. */
  lemma {:induction false} IsoDateRoundTrip(n: int)
    requires FIRST_DAY <= n <= LAST_DAY
    ensures ValidDate(IsoDate(n)) && DayNumber(IsoDate(n)) == n
  {
    CivilInRange(n);
    IsoDateReads(n);
  }

  lemma {:induction false} DateRoundTrip(v: string)
    requires ValidDate(v)
    ensures IsoDate(DayNumber(v)) == v
  {
    ValidRange(v);
    CivilInRange(DayNumber(v));
    CivilRoundTrip(Fields(v));
    NatBounds(v);
    PadStartOfNat(v[..4]);
    PadStartOfNat(v[5..7]);
    PadStartOfNat(v[8..]);
    assert v == v[..4] + "-" + v[5..7] + "-" + v[8..];
  }

  /** A printed date of an extended year is no date of the pattern. */
  lemma ExtendedYear(n: int)
    requires -MAX_DAY <= n <= MAX_DAY && !(0 <= CivilOf(n).year <= 9999)
    ensures !DatePattern(IsoDate(n))
  {
    var v := IsoDate(n);
    assert !IsDigit(v[0]);
    assert |v| >= 4 ==> v[..4][0] == v[0];
  }

  // ---- Serials ----

  /** Serials follow the order of the strings. */
  lemma {:induction false} SerialOrder(a: string, b: string)
    requires CalendarSerial(a).Some? && CalendarSerial(b).Some?
    ensures LexLess(a, b) <==> CalendarSerial(a).value < CalendarSerial(b).value
  {
    SerialAccepts(a);
    SerialAccepts(b);
    LexIsCalendarOrder(a, b);
    DayOfOrder(Fields(a), Fields(b));
  }

  lemma LexIsCalendarOrder(a: string, b: string)
    requires DatePattern(a) && DatePattern(b)
    ensures LexLess(a, b) <==> Before(Fields(a), Fields(b))
  {
    SplitDate(a);
    SplitDate(b);
    LexConcat(a[..4], b[..4], "-" + (a[5..7] + ("-" + a[8..])), "-" + (b[5..7] + ("-" + b[8..])));
    LexConcat("-", "-", a[5..7] + ("-" + a[8..]), b[5..7] + ("-" + b[8..]));
    LexConcat(a[5..7], b[5..7], "-" + a[8..], "-" + b[8..]);
    LexConcat("-", "-", a[8..], b[8..]);
    LexIsNumeric(a[..4], b[..4]);
    LexIsNumeric(a[5..7], b[5..7]);
    LexIsNumeric(a[8..], b[8..]);
    if Nat(a[..4]) == Nat(b[..4]) { SameWidth(a[..4], b[..4]); }
    if Nat(a[5..7]) == Nat(b[5..7]) { SameWidth(a[5..7], b[5..7]); }
    assert !LexLess("-", "-");
  }

  lemma SplitDate(v: string)
    requires DatePattern(v)
    ensures v == v[..4] + ("-" + (v[5..7] + ("-" + v[8..])))
  {
  }

  /** The serials are exactly the consecutive multiples of one day, from 0100-01-01 to 9999-12-31. */
  lemma {:induction false} SerialImage(t: int)
    ensures (exists v :: CalendarSerial(v) == Some(t))
       <==> (exists n :: FIRST_DAY <= n <= LAST_DAY && t == n * MS_PER_DAY)
  {
    if v :| CalendarSerial(v) == Some(t) {
      SerialAccepts(v);
      ValidRange(v);
      assert t == DayNumber(v) * MS_PER_DAY;
    }
    if n :| FIRST_DAY <= n <= LAST_DAY && t == n * MS_PER_DAY {
      IsoDateRoundTrip(n);
      SerialAccepts(IsoDate(n));
      assert CalendarSerial(IsoDate(n)) == Some(t);
    }
  }

  // ---- Shifts ----

  /** Where Date.UTC leaves the year alone, a shift adds to the day number. */
  lemma AddedDayIs(c: Civil, days: int, n: int)
    requires ValidCivil(c) && !(0 <= c.year <= 99) && n == DayOf(c) + days
    ensures AddedDay(c, days) == TimeClip(n)
  {
    MakeDayOfCivil(c, days);
  }

  lemma AuditDayIs(c: Civil, days: int, n: int)
    requires ValidCivil(c) && n == DayOf(c) + days
    ensures AuditDay(c, days) == if n == MAX_DAY then None else TimeClip(n)
  {
    CivilRoundTrip(c);
    MakeDayOfCivil(c, days);
  }

  lemma DashboardDayIs(c: Civil, days: int, n: int)
    requires ValidCivil(c) && n == DayOf(c) + 1 - days
    ensures DashboardDay(c, days) == TimeClip(n)
  {
    WholeDays(DayOf(c), days);
  }

  lemma WholeDays(n: int, days: int)
    ensures n * MS_PER_DAY - (days - 1) * MS_PER_DAY == (n + 1 - days) * MS_PER_DAY
    ensures (n + 1 - days) * MS_PER_DAY / MS_PER_DAY == n + 1 - days
  {
  }

  /** What each shift prints on a valid date whose day number, shifted, is n. */
  lemma {:induction false} AddOnValid(v: string, days: int, n: int)
    requires ValidDate(v) && n == DayNumber(v) + days
    ensures AddCalendarDays(v, days) == Printed(TimeClip(n))
  {
    AddedDayIs(Fields(v), days, n);
  }

  lemma {:induction false} AuditOnValid(v: string, days: int, n: int)
    requires ValidDate(v) && n == DayNumber(v) + days && n != MAX_DAY
    ensures ShiftCalendarDate(v, days) == Printed(TimeClip(n))
  {
    AuditDayIs(Fields(v), days, n);
  }

  lemma {:induction false} DashboardOnValid(v: string, days: int, n: int)
    requires ValidDate(v) && n == DayNumber(v) + 1 - days
    ensures DashboardFrom(v, days) == Printed(TimeClip(n))
  {
    DashboardDayIs(Fields(v), days, n);
  }

  /** The three shifts of the repository agree on every valid date and every shift, but for
      the last day of the Date range, which has no noon; the dashboard counts the days of the
      period, the other two the days moved. */
  lemma {:induction false} ShiftsAgree(v: string, days: int, length: int)
    requires ValidDate(v) && DayNumber(v) + days != MAX_DAY && length == 1 - days
    ensures AddCalendarDays(v, days) == ShiftCalendarDate(v, days)
    ensures AddCalendarDays(v, days) == DashboardFrom(v, length)
  {
    var n := DayNumber(v) + days;
    AddOnValid(v, days, n);
    AuditOnValid(v, days, n);
    DashboardOnValid(v, length, n);
  }

  /** The day Date.UTC gives a date: itself, but from the year 0 to 99 one of the 1900s. */
  function UtcDay(c: Civil): int {
    DateUtcDay(c.year, c.month - 1, c.day)
  }

  lemma AddedIsUtc(c: Civil, days: int, n: int)
    requires n == UtcDay(c) + days
    ensures AddedDay(c, days) == TimeClip(n)
  {
  }

  lemma CenturyGap(c: Civil, gap: int)
    requires ValidCivil(c) && 0 <= c.year <= 99 && gap == UtcDay(c) - DayOf(c)
    ensures 693_900 <= gap <= 694_000
  {
    var d := Civil(c.year + 1900, c.month, c.day);
    MakeDayOfCivil(d, 0);
    FormulaCountsYears(c.year);
    FormulaCountsYears(d.year);
    FormulaGap(c.year, d.year);
    SameMonthDays(c.year, d.year, c.month);
  }

  lemma FormulaGap(y: int, later: int)
    requires later == y + 1900
    ensures 693_950 <= DayFromYearFormula(later) - DayFromYearFormula(y) <= 693_970
  {
    assert (later - 1969) / 4 == (y - 1969) / 4 + 475;
    assert (later - 1901) / 100 == (y - 1901) / 100 + 19;
  }

  lemma SameMonthDays(y: int, z: int, m: int)
    requires 1 <= m <= 12
    ensures -1 <= DaysBeforeMonth(y, m) - DaysBeforeMonth(z, m) <= 1
  {
  }

  /** Below the year 100 `addCalendarDays` moves a date to the 1900s, and agrees with a shift that
      does not only where both fail. */
  lemma CenturyDiffers(v: string, days: int, n: int, other: Option<int>)
    requires IsoReadable(v) && 0 <= Fields(v).year <= 99 && n == DayOf(Fields(v)) + days
    requires other.Some? ==> other == Some(n) && InRange(n)
    ensures AddCalendarDays(v, days) == Printed(other) <==> other.None? && !InRange(UtcDay(Fields(v)) + days)
    ensures UtcDay(Fields(v)) + days > n + 366
  {
    var c := Fields(v);
    var moved := UtcDay(c) + days;
    CenturyGap(c, UtcDay(c) - DayOf(c));
    AddedIsUtc(c, days, moved);
    if InRange(n) && InRange(moved) {
      DistantPrints(n, moved);
    }
  }

  lemma AuditAgrees(v: string, days: int, n: int)
    requires IsoReadable(v) && n == DayOf(Fields(v)) + days
    ensures AddCalendarDays(v, days) == ShiftCalendarDate(v, days)
       <==> if Fields(v).year >= 100 then n != MAX_DAY
            else n >= MAX_DAY || UtcDay(Fields(v)) + days < -MAX_DAY
  {
    NatBounds(v);
    AuditDayIs(Fields(v), days, n);
    if Fields(v).year >= 100 {
      AddedDayIs(Fields(v), days, n);
    } else {
      CenturyDiffers(v, days, n, AuditDay(Fields(v), days));
      CenturyGap(Fields(v), UtcDay(Fields(v)) - DayOf(Fields(v)));
    }
  }

  lemma DashboardAgrees(v: string, days: int, n: int, length: int)
    requires IsoReadable(v) && n == DayOf(Fields(v)) + days && length == 1 - days
    ensures AddCalendarDays(v, days) == DashboardFrom(v, length)
       <==> Fields(v).year >= 100 || n > MAX_DAY || UtcDay(Fields(v)) + days < -MAX_DAY
  {
    NatBounds(v);
    DashboardDayIs(Fields(v), length, n);
    if Fields(v).year >= 100 {
      AddedDayIs(Fields(v), days, n);
    } else {
      CenturyDiffers(v, days, n, DashboardDay(Fields(v), length));
      CenturyGap(Fields(v), UtcDay(Fields(v)) - DayOf(Fields(v)));
    }
  }

  /** On every date that can be read the other two shifts agree with `addCalendarDays` if and
      only if its year is at least 100, but for the last Date, which has no noon, or both fail. */
  lemma {:induction false} ShiftsAgreeExactly(v: string, days: int, n: int, length: int)
    requires IsoReadable(v) && n == DayOf(Fields(v)) + days && length == 1 - days
    ensures AddCalendarDays(v, days) == ShiftCalendarDate(v, days)
       <==> if Fields(v).year >= 100 then n != MAX_DAY
            else n >= MAX_DAY || UtcDay(Fields(v)) + days < -MAX_DAY
    ensures AddCalendarDays(v, days) == DashboardFrom(v, length)
       <==> Fields(v).year >= 100 || n > MAX_DAY || UtcDay(Fields(v)) + days < -MAX_DAY
  {
    AuditAgrees(v, days, n);
    DashboardAgrees(v, days, n, length);
  }

  /** The day before 0100-01-01 is such a date: moved by no day at all, it is another one. */
  lemma {:induction false} ShiftsDiffer(v: string)
    requires v == IsoDate(FIRST_DAY - 1)
    ensures IsoReadable(v) && ShiftCalendarDate(v, 0) == DashboardFrom(v, 1)
    ensures AddCalendarDays(v, 0) != ShiftCalendarDate(v, 0)
  {
    var n := FIRST_DAY - 1;
    YearBound(CivilOf(n), 0);
    YearBound(CivilOf(n), 100);
    IsoDateReads(n);
    AuditDayIs(Fields(v), 0, n);
    DashboardDayIs(Fields(v), 1, n);
    CenturyGap(Fields(v), UtcDay(Fields(v)) - n);
    AuditAgrees(v, 0, n);
  }

  // ---- What a printed day tells ----

  /** Outside the years 0 to 9999 a printed day begins with a sign and the year in six digits. */
  lemma ExtendedReads(n: int)
    requires InRange(n) && !(0 <= CivilOf(n).year <= 9999)
    ensures var s, y := IsoDate(n), CivilOf(n).year;
            && |s| >= 7 && AllDigits(s[1..7]) && !IsDigit(s[0])
            && (s[0] == '+' <==> y > 9999) && Nat(s[1..7]) == if y > 9999 then y else -y
  {
    var y := CivilOf(n).year;
    YearBound(CivilOf(n), 300_000);
    YearBound(CivilOf(n), -300_000);
    assert Pow10(6) == 1_000_000;
    FixedNumeral(if y > 9999 then y else -y, 6);
    assert IsoDate(n)[1..7] == PadStart(Dec(if y > 9999 then y else -y), 6);
  }

  /** Whatever its range, a printed day tells its year. */
  lemma PrintTellsYear(a: int, b: int)
    requires InRange(a) && InRange(b) && IsoDate(a) == IsoDate(b)
    ensures CivilOf(a).year == CivilOf(b).year
  {
    if 0 <= CivilOf(a).year <= 9999 {
      IsoDateReads(a);
      if 0 <= CivilOf(b).year <= 9999 {
        IsoDateReads(b);
      } else {
        ExtendedYear(b);
      }
    } else if 0 <= CivilOf(b).year <= 9999 {
      IsoDateReads(b);
      ExtendedYear(a);
    } else {
      ExtendedReads(a);
      ExtendedReads(b);
    }
  }

  lemma ExtendedMonth(n: int)
    requires InRange(n) && !(0 <= CivilOf(n).year <= 9999)
    ensures |IsoDate(n)| == 10 && AllDigits(IsoDate(n)[8..]) && Nat(IsoDate(n)[8..]) == CivilOf(n).month
  {
    ExtendedReads(n);
    var y := CivilOf(n).year;
    YearBound(CivilOf(n), 300_000);
    YearBound(CivilOf(n), -300_000);
    assert Pow10(2) == 100 && Pow10(6) == 1_000_000;
    FixedNumeral(CivilOf(n).month, 2);
    FixedNumeral(if y > 9999 then y else -y, 6);
    assert IsoDate(n)[8..] == Pad2(CivilOf(n).month);
  }

  /** Two days are printed alike exactly if they are the same, or of one month of a year that takes six
      digits. */
  lemma {:induction false} PrintsAgreeExactly(a: int, b: int)
    requires InRange(a) && InRange(b)
    ensures IsoDate(a) == IsoDate(b)
       <==> a == b || (CivilOf(a).year == CivilOf(b).year && CivilOf(a).month == CivilOf(b).month
                       && !(0 <= CivilOf(a).year <= 9999))
  {
    if IsoDate(a) == IsoDate(b) {
      PrintTellsYear(a, b);
      if 0 <= CivilOf(a).year <= 9999 {
        IsoDateReads(a);
        IsoDateReads(b);
        assert DayOf(CivilOf(a)) == DayOf(CivilOf(b));
      } else {
        ExtendedMonth(a);
        ExtendedMonth(b);
      }
    }
  }

  lemma LaterYear(a: int, b: int)
    requires b >= a + 366
    ensures CivilOf(a).year < CivilOf(b).year
  {
    var y := CivilOf(a).year;
    YearBound(CivilOf(a), y);
    YearBound(CivilOf(b), y + 1);
    FormulaCountsYears(y);
    FormulaCountsYears(y + 1);
    YearStep(y);
  }

  lemma DistantPrints(a: int, b: int)
    requires InRange(a) && InRange(b) && b >= a + 366
    ensures IsoDate(a) != IsoDate(b)
  {
    LaterYear(a, b);
    if IsoDate(a) == IsoDate(b) {
      PrintTellsYear(a, b);
    }
  }

  lemma PrintableDay(n: int)
    requires 0 <= CivilOf(n).year <= 9999
    ensures -MAX_DAY <= n < MAX_DAY
  {
    YearBound(CivilOf(n), 0);
    YearBound(CivilOf(n), 10000);
  }

  /** A day printed with a four-digit year shares its text with no other day. */
  lemma DistinctPrints(n: int, other: Option<int>)
    requires 0 <= CivilOf(n).year <= 9999 && other != Some(n)
    requires other.Some? ==> -MAX_DAY <= other.value <= MAX_DAY
    ensures Some(IsoDate(n)) != Printed(other)
  {
    IsoDateReads(n);
    if other.Some? {
      if 0 <= CivilOf(other.value).year <= 9999 {
        IsoDateReads(other.value);
      } else {
        ExtendedYear(other.value);
      }
    }
  }

  /** One shift after another, as `addCalendarDays(addCalendarDays(v, m), n)`. */
  function AddTwice(v: string, m: int, n: int): Option<string> {
    match AddCalendarDays(v, m)
    case None => None
    case Some(w) => AddCalendarDays(w, n)
  }

  /** The second shift starts from the day the first one printed, if that reads back. */
  lemma AddAfterPrint(mid: int, n: int)
    requires -MAX_DAY <= mid <= MAX_DAY
    ensures AddCalendarDays(IsoDate(mid), n)
         == if 0 <= CivilOf(mid).year <= 9999 then Printed(AddedDay(CivilOf(mid), n)) else None
  {
    if 0 <= CivilOf(mid).year <= 9999 {
      IsoDateReads(mid);
    } else {
      ExtendedYear(mid);
    }
  }

  /** The single shift and the second of two both leave the range of a Date. */
  predicate BothFail(mid: int, n: int, end: int) {
    !InRange(end) && (0 <= CivilOf(mid).year <= 99 ==> !InRange(UtcDay(CivilOf(mid)) + n))
  }

  /** Shifting by m and then by n is shifting by their sum exactly when the date in between is
      one `calendarSerial` accepts, or both fail. */
  lemma {:induction false} ShiftIsAction(v: string, m: int, n: int, sum: int)
    requires ValidDate(v) && sum == m + n
    ensures AddTwice(v, m, n) == AddCalendarDays(v, sum)
       <==> FIRST_DAY <= DayNumber(v) + m <= LAST_DAY || BothFail(DayNumber(v) + m, n, DayNumber(v) + sum)
  {
    var mid, end := DayNumber(v) + m, DayNumber(v) + sum;
    AddOnValid(v, m, mid);
    AddOnValid(v, sum, end);
    if InRange(mid) {
      SecondOfTwo(mid, n, end);
    } else {
      FarYears(mid);
    }
  }

  /** The shift of the day in between. */
  lemma SecondOfTwo(mid: int, n: int, end: int)
    requires InRange(mid) && end == mid + n
    ensures AddCalendarDays(IsoDate(mid), n) == Printed(TimeClip(end))
       <==> FIRST_DAY <= mid <= LAST_DAY || BothFail(mid, n, end)
  {
    CivilInRange(mid);
    AddAfterPrint(mid, n);
    SecondShift(mid, n, end);
  }

  lemma FarYears(n: int)
    requires !InRange(n)
    ensures !(0 <= CivilOf(n).year <= 9999)
  {
    if 0 <= CivilOf(n).year <= 9999 {
      PrintableDay(n);
    }
  }

  /** The second shift, from a day that was printed with four digits. */
  lemma SecondShift(mid: int, n: int, end: int)
    requires end == mid + n
    ensures 100 <= CivilOf(mid).year <= 9999 ==> AddedDay(CivilOf(mid), n) == TimeClip(end)
    ensures 0 <= CivilOf(mid).year <= 99 ==>
      (Printed(AddedDay(CivilOf(mid), n)) == Printed(TimeClip(end))
       <==> !InRange(end) && !InRange(UtcDay(CivilOf(mid)) + n))
  {
    var c := CivilOf(mid);
    if 100 <= c.year <= 9999 {
      AddedDayIs(c, n, end);
    } else if 0 <= c.year <= 99 {
      var moved := UtcDay(c) + n;
      CenturyGap(c, UtcDay(c) - DayOf(c));
      AddedIsUtc(c, n, moved);
      if InRange(end) && InRange(moved) {
        DistantPrints(end, moved);
      }
    }
  }

  /** Shifting back undoes a shift exactly when the shifted date is still accepted. */
  lemma {:induction false} ShiftUndoes(v: string, m: int, back: int)
    requires ValidDate(v) && back == -m
    ensures AddTwice(v, m, back) == Some(v) <==> FIRST_DAY <= DayNumber(v) + m <= LAST_DAY
  {
    NoShift(v);
    ValidRange(v);
    ShiftIsAction(v, m, back, 0);
  }

  /** One day back from 0100-01-01 and one day on again is another date. */
  lemma {:induction false} BackAndForthMoves(v: string)
    requires v == IsoDate(FIRST_DAY)
    ensures ValidDate(v) && AddTwice(v, -1, 1) != Some(v)
  {
    IsoDateRoundTrip(FIRST_DAY);
    ShiftUndoes(v, -1, 1);
  }

  lemma NoShift(v: string)
    requires ValidDate(v)
    ensures AddCalendarDays(v, 0) == Some(v) && 0 <= CivilOf(DayNumber(v) + 0).year <= 9999
  {
    var n := DayNumber(v);
    ValidRange(v);
    CivilInRange(n);
    PrintableDay(n);
    AddOnValid(v, 0, n);
    DateRoundTrip(v);
  }
}
