/** The amounts of the staff dashboard, in minor units: the short `compactMinor` and the exact
    `formatMinor` of src/components/StaffDashboardPanel.tsx. */
module DashboardAmounts {
  import opened Decimal
  import opened JsText
  import opened MoneyInput
  import opened Wrappers

  /** An integer in the es-MX format. */
  function Formatted(n: int): string {
    if n < 0 then "-" + Grouped(Dec(-n)) else Grouped(Dec(n))
  }

  /** A number of tenths, without a decimal if there is none. */
  function Tenths(tenths: nat): string {
    Formatted(tenths / 10) + if tenths % 10 != 0 then "." + Dec(tenths % 10) else ""
  }

  /** The three scales of the short form. */
  datatype Short = Millions(tenths: nat) | Thousands(n: nat) | Pesos(major: int)

  function ShortOf(minor: int): Short {
    var major := TruncatedDiv(minor, 100);
    if major >= 1000000 then Millions(major / 100000)
    else if major >= 10000 then Thousands(major / 1000)
    else Pesos(major)
  }

  function Compact(minor: int): string {
    Text(ShortOf(minor))
  }

  function Text(short: Short): string {
    match short
    case Millions(tenths) => "$" + (Tenths(tenths) + " M")
    case Thousands(n) => "$" + (Formatted(n) + " mil")
    case Pesos(major) => "$" + Formatted(major)
  }

  function FormatMinor(minor: int, currency: string): string {
    var absolute := if minor < 0 then -minor else minor;
    var fraction := PadStart(Dec(absolute % 100), 2);
    (if minor < 0 then "-" else "") + (currency + (" " + (Grouped(Dec(absolute / 100)) + ("." + fraction))))
  }

  // ---- The value the short form denotes ----

  /** The amount, in minor units, that a short form stands for. */
  function Value(short: Short): int {
    match short
    case Millions(tenths) => tenths * 10000000
    case Thousands(n) => n * 100000
    case Pesos(major) => major * 100
  }

  function Denoted(minor: int): int {
    Value(ShortOf(minor))
  }

  /** The short form never overstates an amount, except a negative one with a fraction. */
  lemma {:induction false} NeverOverstatesExactly(minor: int)
    ensures Denoted(minor) <= minor <==> minor >= 0 || minor % 100 == 0
  {
    if minor < 0 {
      TruncatedNegative(minor);
    } else {
      RoundsDown(minor / 100, 100000);
      RoundsDown(minor / 100, 1000);
    }
  }

  /** A debt of one peso and a half shows as one peso. */
  lemma {:induction false} FractionOverstated()
    ensures Compact(-150) == "$-1" && Denoted(-150) == -100 > -150
  {
    assert TruncatedDiv(-150, 100) == -1;
    assert Formatted(-1) == "-" + Grouped(Dec(1)) && Dec(1) == "1";
  }

  lemma TruncatedNegative(minor: int)
    requires minor < 0
    ensures TruncatedDiv(minor, 100) <= 0
    ensures 100 * TruncatedDiv(minor, 100) <= minor <==> minor % 100 == 0
  {
  }

  lemma RoundsDown(n: nat, unit: nat)
    requires unit > 0
    ensures n / unit * unit <= n < n / unit * unit + unit
  {
  }

  /** How far it may fall short: less than one peso below 10,000 pesos, less than a tenth of
      what it shows from there up. */
  lemma {:induction false} FallsShortBy(minor: nat)
    ensures minor < 1000000 ==> 0 <= minor - Denoted(minor) < 100
    ensures minor >= 1000000 ==> 10 * Denoted(minor) <= 10 * minor < 11 * Denoted(minor)
  {
    var major := minor / 100;
    if major >= 1000000 {
      TenthsBound(major, 100000);
    } else if major >= 10000 {
      TenthsBound(major, 1000);
    }
  }

  lemma TenthsBound(major: nat, unit: nat)
    requires unit > 0 && major >= 10 * unit
    ensures 10 * unit <= major / unit * unit <= major < major / unit * unit + unit
  {
    RoundsDown(major, unit);
    if major / unit < 10 {
      AtMostNine(major / unit, unit);
    }
  }

  lemma AtMostNine(k: nat, unit: nat)
    requires k < 10
    ensures k * unit <= 9 * unit
  {
  }

  /** A larger amount never shows a smaller value, across the three scales. */
  lemma {:induction false} DenotedMonotone(a: int, b: int)
    requires a <= b
    ensures Denoted(a) <= Denoted(b)
  {
    var m, n := TruncatedDiv(a, 100), TruncatedDiv(b, 100);
    assert m <= n;
    if 10000 <= n < 1000000 {
      TenthsBound(n, 1000);
      if m >= 10000 {
        Unit(m, n, 1000);
      }
    } else if n >= 1000000 {
      TenthsBound(n, 100000);
      if m >= 1000000 {
        Unit(m, n, 100000);
      } else if m >= 10000 {
        RoundsDown(m, 1000);
      }
    }
  }

  lemma Times(i: nat, j: nat, unit: nat)
    requires i <= j
    ensures i * unit <= j * unit
  {
  }

  lemma Unit(m: nat, n: nat, unit: nat)
    requires unit > 0 && m <= n
    ensures m / unit * unit <= n / unit * unit
  {
    RoundsDown(m, unit);
    RoundsDown(n, unit);
    Multiples(m, n, unit, m / unit, n / unit);
  }

  lemma Multiples(m: nat, n: nat, unit: nat, i: nat, j: nat)
    requires m <= n && i * unit <= m && n < j * unit + unit
    ensures i * unit <= j * unit
  {
    if i > j {
      NextMultiple(i, j, unit);
    } else {
      Times(i, j, unit);
    }
  }

  lemma NextMultiple(i: nat, j: nat, unit: nat)
    requires i > j
    ensures i * unit >= j * unit + unit
  {
    Times(j + 1, i, unit);
    assert (j + 1) * unit == j * unit + unit;
  }

  // ---- Reading the short form ----

  predicate EndsIn(s: string, unit: string) {
    |s| >= |unit| && s[|s| - |unit|..] == unit
  }

  function Scaled(minor: Option<string>, unit: int): Option<int> {
    if minor.Some? && AllDigits(minor.value) then Some(Nat(minor.value) * unit) else None
  }

  /** A short amount read back, in minor units: a money input followed by its unit, or a negative
      one without. */
  function Read(s: string): Option<int> {
    var amount := After(s, "$");
    if amount.None? then None else
    var t := amount.value;
    if t != "" && t[0] == '-' then Scaled(Parse(t[1..]), -1)
    else if EndsIn(t, " M") then Scaled(Parse(t[..|t| - 2]), 1000000)
    else if EndsIn(t, " mil") then Scaled(Parse(t[..|t| - 4]), 1000)
    else Scaled(Parse(t), 1)
  }

  lemma FormattedShape(n: nat)
    ensures Formatted(n) != "" && IsDigit(Formatted(n)[0]) && IsDigit(Formatted(n)[|Formatted(n)| - 1])
  {
    DecRoundTrip(n);
    GroupedBegins(Dec(n));
    GroupedEnds(Dec(n));
  }

  lemma ScaledNumeral(n: nat, unit: int)
    ensures Scaled(Some(Dec(n)), unit) == Some(n * unit)
  {
    DecRoundTrip(n);
  }

  lemma FormattedStrips(n: nat)
    ensures StripCommas(Trim(Formatted(n))) == Dec(n)
  {
    FormattedShape(n);
    TrimFixes(Formatted(n));
    DecRoundTrip(n);
    GroupedStrips(Dec(n));
  }

  lemma FormattedParses(n: nat, minor: nat)
    requires minor == 100 * n
    ensures Parse(Formatted(n)) == Some(Dec(minor))
  {
    FormattedStrips(n);
    DecRoundTrip(n);
    ParseOfWhole(Formatted(n), Dec(n), minor);
  }

  lemma DecimalStrips(whole: nat, tenth: nat, s: string)
    requires s == Formatted(whole) + ("." + Dec(tenth))
    ensures StripCommas(Trim(s)) == Dec(whole) + ("." + Dec(tenth))
  {
    FormattedShape(whole);
    DecRoundTrip(whole);
    DecRoundTrip(tenth);
    TrimFixes(s);
    GroupsStrip(Dec(whole), Dec(tenth));
  }

  lemma DecimalParses(whole: nat, tenth: nat, minor: nat)
    requires 0 < tenth < 10 && minor == whole * 100 + tenth * 10
    ensures Parse(Formatted(whole) + ("." + Dec(tenth))) == Some(Dec(minor))
  {
    var s := Formatted(whole) + ("." + Dec(tenth));
    DecimalStrips(whole, tenth, s);
    DecRoundTrip(whole);
    DecRoundTrip(tenth);
    ParseOfDecimal(s, Dec(whole), Dec(tenth), minor) by {
      PaddedOne(Dec(tenth), Dec(tenth) + "0");
    }
  }

  lemma TenthsParse(t: nat, minor: nat)
    requires minor == 10 * t
    ensures Parse(Tenths(t)) == Some(Dec(minor))
  {
    if t % 10 == 0 {
      FormattedParses(t / 10, minor);
      assert Tenths(t) == Formatted(t / 10) && t / 10 * 100 == minor;
    } else {
      DecimalParses(t / 10, t % 10, minor);
    }
  }

  lemma UnitEnds(s: string, unit: string)
    ensures EndsIn(s + unit, unit) && (s + unit)[..|s + unit| - |unit|] == s
  {
  }

  lemma ReadMillions(core: string, n: nat)
    requires core != "" && core[0] != '-' && Parse(core) == Some(Dec(n))
    ensures Read("$" + (core + " M")) == Some(n * 1000000)
  {
    AfterConcat("$", core + " M");
    UnitEnds(core, " M");
    ScaledNumeral(n, 1000000);
  }

  lemma ReadThousands(core: string, n: nat)
    requires core != "" && core[0] != '-' && Parse(core) == Some(Dec(n))
    ensures Read("$" + (core + " mil")) == Some(n * 1000)
  {
    AfterConcat("$", core + " mil");
    UnitEnds(core, " mil");
    NotMillions(core + " mil");
    ScaledNumeral(n, 1000);
  }

  lemma NotMillions(s: string)
    requires s != "" && s[|s| - 1] == 'l'
    ensures !EndsIn(s, " M")
  {
    assert |s| >= 2 ==> s[|s| - 2..][1] == 'l';
  }

  lemma ReadPlain(core: string, n: nat)
    requires core != "" && core[0] != '-' && IsDigit(core[|core| - 1]) && Parse(core) == Some(Dec(n))
    ensures Read("$" + core) == Some(n)
  {
    AfterConcat("$", core);
    NoUnit(core);
    ScaledNumeral(n, 1);
  }

  lemma NoUnit(core: string)
    requires core != "" && IsDigit(core[|core| - 1])
    ensures !EndsIn(core, " M") && !EndsIn(core, " mil")
  {
    assert |core| >= 2 ==> core[|core| - 2..][1] == core[|core| - 1];
    assert |core| >= 4 ==> core[|core| - 4..][3] == core[|core| - 1];
  }

  lemma MillionsRead(tenths: nat, minor: nat, value: nat)
    requires minor == 10 * tenths && value == minor * 1000000
    ensures Read("$" + (Tenths(tenths) + " M")) == Some(value)
  {
    TenthsParse(tenths, minor);
    FormattedShape(tenths / 10);
    ReadMillions(Tenths(tenths), minor);
  }

  lemma ThousandsRead(n: nat, minor: nat, value: nat)
    requires minor == 100 * n && value == minor * 1000
    ensures Read("$" + (Formatted(n) + " mil")) == Some(value)
  {
    FormattedParses(n, minor);
    FormattedShape(n);
    ReadThousands(Formatted(n), minor);
  }

  lemma PesosRead(n: nat, minor: nat)
    requires minor == 100 * n
    ensures Read("$" + Formatted(n)) == Some(minor)
  {
    FormattedShape(n);
    FormattedParses(n, minor);
    ReadPlain(Formatted(n), minor);
  }

  lemma ReadNegative(core: string, n: nat, value: int)
    requires Parse(core) == Some(Dec(n)) && value == 0 - n
    ensures Read("$" + ("-" + core)) == Some(value)
  {
    AfterConcat("$", "-" + core);
    assert ("-" + core)[1..] == core;
    ScaledNumeral(n, -1);
  }

  lemma NegativeRead(n: nat, minor: nat, major: int, value: int)
    requires n > 0 && minor == 100 * n && major == 0 - n && value == 0 - minor
    ensures Read("$" + Formatted(major)) == Some(value)
  {
    FormattedParses(n, minor);
    ReadNegative(Formatted(n), minor, value);
    NegativeIs(n, major);
  }

  lemma NegativeIs(n: nat, major: int)
    requires n > 0 && major == 0 - n
    ensures Formatted(major) == "-" + Formatted(n)
  {
  }

  lemma TextReads(short: Short, value: int)
    requires value == Value(short)
    ensures Read(Text(short)) == Some(value)
  {
    match short
    case Millions(tenths) => MillionsRead(tenths, 10 * tenths, value);
    case Thousands(n) => ThousandsRead(n, 100 * n, value);
    case Pesos(major) =>
      if major < 0 {
        NegativeRead(-major, -value, major, value);
      } else {
        PesosRead(major, value);
      }
  }

  /** The short form of an amount, read as a money input with its sign and unit, is the value
      denoted. */
  lemma {:induction false} CompactReads(minor: int)
    ensures Read(Compact(minor)) == Some(Denoted(minor))
  {
    TextReads(ShortOf(minor), Denoted(minor));
  }

  // ---- Which unit is shown ----

  lemma LacksPoint(s: string)
    requires AllDigits(s) && s != ""
    ensures Lacks(Grouped(s), '.')
  {
    forall i | 0 <= i < |Grouped(s)| ensures Grouped(s)[i] != '.' {
      GroupedInThrees(s, |Grouped(s)| - i);
    }
  }

  lemma FormattedLacksPoint(n: int)
    ensures Lacks(Formatted(n), '.') && Formatted(n) != "" && IsDigit(Formatted(n)[|Formatted(n)| - 1])
  {
    var m := if n < 0 then -n else n;
    DecRoundTrip(m);
    LacksPoint(Dec(m));
    FormattedShape(m);
  }

  /** An amount is shown in millions from a million pesos, in thousands from ten thousand, and in
      pesos below and whenever it is negative; only millions have a decimal, and never a zero. */
  lemma {:induction false} UnitExactly(minor: int)
    ensures EndsIn(Compact(minor), " M") <==> minor >= 100_000_000
    ensures EndsIn(Compact(minor), " mil") <==> 1_000_000 <= minor < 100_000_000
    ensures Lacks(Compact(minor), '.') <==> minor < 100_000_000 || minor / 10_000_000 % 10 == 0
  {
    var short, s := ShortOf(minor), Compact(minor);
    match short
    case Millions(tenths) =>
      assert tenths == minor / 10_000_000;
      MillionsLook(tenths, s);
    case Thousands(n) => ThousandsLook(n, s);
    case Pesos(major) => PesosLook(major, s);
  }

  lemma PesosLook(major: int, s: string)
    requires s == Text(Pesos(major))
    ensures !EndsIn(s, " M") && !EndsIn(s, " mil") && Lacks(s, '.')
  {
    FormattedLacksPoint(major);
    assert s[|s| - 1] == Formatted(major)[|Formatted(major)| - 1];
  }

  lemma ThousandsLook(n: nat, s: string)
    requires s == Text(Thousands(n))
    ensures !EndsIn(s, " M") && EndsIn(s, " mil") && Lacks(s, '.')
  {
    FormattedLacksPoint(n);
    assert s == "$" + Formatted(n) + " mil";
    UnitEnds("$" + Formatted(n), " mil");
    NotMillions(s);
  }

  lemma LacksConcat(a: string, b: string, c: char)
    ensures Lacks(a + b, c) <==> Lacks(a, c) && Lacks(b, c)
  {
    forall i | 0 <= i < |a| ensures (a + b)[i] == a[i] {
    }
    forall i | 0 <= i < |b| ensures (a + b)[|a| + i] == b[i] {
    }
  }

  lemma TenthsLackPoint(tenths: nat)
    ensures Lacks(Tenths(tenths), '.') <==> tenths % 10 == 0
  {
    FormattedLacksPoint(tenths / 10);
    if tenths % 10 != 0 {
      var decimal := "." + Dec(tenths % 10);
      assert decimal[0] == '.';
      LacksConcat(Formatted(tenths / 10), decimal, '.');
    }
  }

  lemma MillionsLook(tenths: nat, s: string)
    requires s == Text(Millions(tenths))
    ensures EndsIn(s, " M") && !EndsIn(s, " mil") && (Lacks(s, '.') <==> tenths % 10 == 0)
  {
    TenthsLackPoint(tenths);
    LacksConcat(Tenths(tenths), " M", '.');
    LacksConcat("$", Tenths(tenths) + " M", '.');
    assert s == "$" + Tenths(tenths) + " M";
    UnitEnds("$" + Tenths(tenths), " M");
    assert s[|s| - 1] == 'M';
  }

  // ---- The exact form ----

  predicate CurrencyCode(code: string) {
    code != "" && forall i | 0 <= i < |code| :: 'A' <= code[i] <= 'Z'
  }

  function Figures(absolute: nat): string {
    Grouped(Dec(absolute / 100)) + ("." + PadStart(Dec(absolute % 100), 2))
  }

  lemma FiguresAreTheLabel(absolute: nat)
    ensures AllDigits(Dec(absolute)) && Dec(absolute) != "" && Figures(absolute) == Label(Dec(absolute))
  {
    DecRoundTrip(absolute);
  }

  /** The exact form read back, without a sign: the currency up to the space, and the figures. */
  function ReadFigures(s: string): Option<(string, nat)> {
    var space := IndexOf(s, ' ');
    if space >= |s| then None else
    var minor := Parse(s[space + 1..]);
    if minor.None? || !AllDigits(minor.value) then None else Some((s[..space], Nat(minor.value)))
  }

  function ReadExact(s: string): Option<(string, int)> {
    if s != "" && s[0] == '-' then
      var read := ReadFigures(s[1..]);
      if read.None? then None else Some((read.value.0, 0 - read.value.1))
    else
      ReadFigures(s)
  }

  lemma SplitRead(code: string, figures: string, digits: string)
    requires Lacks(code, ' ') && Parse(figures) == Some(digits) && AllDigits(digits)
    ensures ReadFigures(code + (" " + figures)) == Some((code, Nat(digits)))
  {
    var s := code + (" " + figures);
    IndexAfter(code, figures, ' ');
    assert s[..|code|] == code && s[|code| + 1..] == figures;
  }

  lemma FiguresRead(m: nat, code: string)
    requires CurrencyCode(code)
    ensures ReadFigures(code + (" " + Figures(m))) == Some((code, m))
  {
    FiguresAreTheLabel(m);
    LabelRoundTrip(Dec(m));
    DecRoundTrip(m);
    SplitRead(code, Figures(m), Dec(m));
  }

  /** The exact form of an amount reads back as it, to the last minor unit, with sign and currency. */
  lemma {:induction false} FormatReads(minor: int, code: string)
    requires CurrencyCode(code)
    ensures ReadExact(FormatMinor(minor, code)) == Some((code, minor))
  {
    var m := if minor < 0 then 0 - minor else minor;
    FiguresRead(m, code);
    var s, t := FormatMinor(minor, code), code + (" " + Figures(m));
    assert s == (if minor < 0 then "-" else "") + t;
    SignReads(minor < 0, t, m, code);
  }

  lemma SignReads(negative: bool, t: string, m: nat, code: string)
    requires t != "" && t[0] != '-' && ReadFigures(t) == Some((code, m))
    ensures ReadExact((if negative then "-" else "") + t) == Some((code, if negative then 0 - m else m))
  {
    assert ("-" + t)[1..] == t && "" + t == t;
  }

  /** So it tells every signed amount and every currency apart. */
  lemma {:induction false} FormatInjective(a: int, code: string, b: int, other: string)
    requires CurrencyCode(code) && CurrencyCode(other) && FormatMinor(a, code) == FormatMinor(b, other)
    ensures a == b && code == other
  {
    FormatReads(a, code);
    FormatReads(b, other);
  }
}
