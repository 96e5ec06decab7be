/** Money as the staff types and reads it: src/lib/money-input.ts. Amounts are digit strings
    counting minor units; labels are decimals with thousands separators. */
module MoneyInput {
  import opened Decimal
  import opened JsText
  import opened Wrappers

  /** `toLocaleString` of an integer numeral: commas between groups of three. */
  function Grouped(s: string): string {
    if |s| <= 3 then s else Grouped(s[..|s| - 3]) + ("," + s[|s| - 3..])
  }

  function Label(value: string): string {
    if value == "" || !AllDigits(value) then ""
    else Grouped(Dec(Nat(value) / 100)) + ("." + PadStart(Dec(Nat(value) % 100), 2))
  }

  function StripCommas(s: string): string {
    if s == "" then "" else StripCommas(s[..|s| - 1]) + if s[|s| - 1] == ',' then "" else [s[|s| - 1]]
  }

  /** The minor units of a whole part and at most two decimals. */
  function Minor(whole: string, decimals: string): nat
    requires AllDigits(whole) && AllDigits(PadEnd(decimals, 2))
  {
    Nat(whole) * 100 + Nat(PadEnd(decimals, 2))
  }

  /** `\.(\d{0,2})` up to the end of the text. */
  predicate Decimals(s: string) {
    s != "" && s[0] == '.' && |s| <= 3 && AllDigits(s[1..])
  }

  function Parse(value: string): Option<string> {
    var normalized := StripCommas(Trim(value));
    var run := DigitRun(normalized);
    var rest := normalized[run..];
    if run == 0 then None
    else if rest == "" then
      PaddedDigits("");
      Some(Dec(Minor(normalized[..run], "")))
    else if Decimals(rest) then
      PaddedDigits(rest[1..]);
      Some(Dec(Minor(normalized[..run], rest[1..])))
    else None
  }

  lemma PaddedDigits(decimals: string)
    requires AllDigits(decimals) && |decimals| <= 2
    ensures AllDigits(PadEnd(decimals, 2)) && |PadEnd(decimals, 2)| == 2
  {
    if |decimals| == 0 {
      PaddedNone();
      assert decimals == "";
    } else if |decimals| == 1 {
      PaddedOne(decimals, decimals + "0");
    } else {
      PaddedTwo(decimals);
    }
  }

  lemma PaddedNone()
    ensures PadEnd("", 2) == "00" && Nat("00") == 0
  {
    assert "" + "0" == "0" && "0" + "0" == "00";
    assert "00"[..1] == "0" && "0"[..0] == "";
  }

  lemma PaddedOne(decimals: string, padded: string)
    requires AllDigits(decimals) && |decimals| == 1 && padded == decimals + "0"
    ensures PadEnd(decimals, 2) == padded && Nat(padded) == 10 * Nat(decimals) && Pow10(1) == 10
  {
    assert PadEnd(padded, 2) == padded;
    assert padded[..1] == decimals;
    assert Pow10(0) == 1;
  }

  lemma PaddedTwo(decimals: string)
    requires |decimals| == 2
    ensures PadEnd(decimals, 2) == decimals && Pow10(2) == 100
  {
    assert Pow10(1) == 10 * Pow10(0);
  }

  // ---- What the parser accepts, and what it makes of it ----

  lemma ParseOfWhole(value: string, whole: string, minor: nat)
    requires whole != "" && AllDigits(whole) && StripCommas(Trim(value)) == whole && minor == Nat(whole) * 100
    ensures Parse(value) == Some(Dec(minor))
  {
    assert whole[..|whole|] == whole;
    DigitRunIs(whole, |whole|);
    PaddedNone();
  }

  lemma ParseOfDecimal(value: string, whole: string, decimals: string, minor: nat)
    requires whole != "" && AllDigits(whole) && AllDigits(decimals) && |decimals| <= 2
    requires StripCommas(Trim(value)) == whole + ("." + decimals)
    requires AllDigits(PadEnd(decimals, 2)) && minor == Minor(whole, decimals)
    ensures Parse(value) == Some(Dec(minor))
  {
    var normalized := whole + ("." + decimals);
    assert normalized[..|whole|] == whole && normalized[|whole|..] == "." + decimals;
    DigitRunIs(normalized, |whole|);
    assert ("." + decimals)[1..] == decimals;
  }

  lemma AcceptedShape(value: string, normalized: string, run: nat)
    requires Parse(value).Some? && normalized == StripCommas(Trim(value)) && run == DigitRun(normalized)
    ensures 0 < run <= |normalized| && (run < |normalized| ==> Decimals(normalized[run..]))
  {
  }

  lemma DecimalSplits(s: string, run: nat) returns (whole: string, decimals: string)
    requires 0 < run < |s| && AllDigits(s[..run]) && Decimals(s[run..])
    ensures whole != "" && AllDigits(whole) && AllDigits(decimals) && |decimals| <= 2
    ensures s == whole + ("." + decimals)
  {
    whole, decimals := s[..run], s[run..][1..];
    assert s[run..] == "." + decimals;
    assert s == s[..run] + s[run..];
  }

  /** Whatever is accepted is, without its commas and outer white space, a numeral with at
      most two decimals, and the result counts exactly 100 times the decimal it denotes. */
  lemma {:induction false} ParsedDenotes(value: string) returns (whole: string, decimals: string, minor: nat)
    requires Parse(value).Some?
    ensures whole != "" && AllDigits(whole) && AllDigits(decimals) && |decimals| <= 2
    ensures StripCommas(Trim(value)) == whole + ("." + decimals)
         || (decimals == "" && StripCommas(Trim(value)) == whole)
    ensures Parse(value) == Some(Dec(minor))
    ensures AllDigits(whole + decimals) && minor * Pow10(|decimals|) == 100 * Nat(whole + decimals)
  {
    var normalized := StripCommas(Trim(value));
    var run := DigitRun(normalized);
    AcceptedShape(value, normalized, run);
    if run == |normalized| {
      whole, decimals := normalized, "";
      minor := WholeDenotes(value, whole);
    } else {
      whole, decimals := DecimalSplits(normalized, run);
      minor := DecimalDenotes(value, whole, decimals);
    }
  }

  lemma WholeDenotes(value: string, whole: string) returns (minor: nat)
    requires whole != "" && whole == StripCommas(Trim(value)) && DigitRun(whole) == |whole|
    ensures AllDigits(whole) && AllDigits(whole + "") && Parse(value) == Some(Dec(minor))
    ensures minor * Pow10(|""|) == 100 * Nat(whole + "")
  {
    assert whole[..|whole|] == whole && whole + "" == whole;
    minor := Nat(whole) * 100;
    ParseOfWhole(value, whole, minor);
  }

  lemma DecimalDenotes(value: string, whole: string, decimals: string) returns (minor: nat)
    requires whole != "" && AllDigits(whole) && AllDigits(decimals) && |decimals| <= 2
    requires StripCommas(Trim(value)) == whole + ("." + decimals)
    ensures AllDigits(whole + decimals) && Parse(value) == Some(Dec(minor))
    ensures minor * Pow10(|decimals|) == 100 * Nat(whole + decimals)
  {
    PaddedDigits(decimals);
    minor := Minor(whole, decimals);
    ParseOfDecimal(value, whole, decimals, minor);
    MinorIs(whole, decimals, minor);
  }

  lemma MinorIs(whole: string, decimals: string, minor: nat)
    requires AllDigits(whole) && AllDigits(decimals) && |decimals| <= 2 && AllDigits(PadEnd(decimals, 2))
    requires minor == Minor(whole, decimals)
    ensures AllDigits(whole + decimals)
    ensures minor * Pow10(|decimals|) == 100 * Nat(whole + decimals)
  {
    if |decimals| == 0 {
      NoDecimals(whole, decimals);
      PowersAre(minor, |decimals|);
    } else if |decimals| == 1 {
      OneDecimal(whole, decimals);
      PowersAre(minor, |decimals|);
    } else {
      TwoDecimals(whole, decimals);
      PowersAre(minor, |decimals|);
    }
  }

  lemma PowersAre(m: nat, k: nat)
    requires k <= 2
    ensures m * Pow10(k) == if k == 0 then m else if k == 1 then 10 * m else 100 * m
  {
    assert Pow10(0) == 1 && Pow10(1) == 10 * Pow10(0) && Pow10(2) == 10 * Pow10(1);
  }

  lemma NoDecimals(whole: string, decimals: string)
    requires AllDigits(whole) && decimals == "" && AllDigits(PadEnd(decimals, 2))
    ensures AllDigits(whole + decimals) && Minor(whole, decimals) == 100 * Nat(whole + decimals)
  {
    PaddedNone();
    assert whole + decimals == whole;
  }

  lemma OneDecimal(whole: string, decimals: string)
    requires AllDigits(whole) && AllDigits(decimals) && |decimals| == 1 && AllDigits(PadEnd(decimals, 2))
    ensures AllDigits(whole + decimals) && 10 * Minor(whole, decimals) == 100 * Nat(whole + decimals)
  {
    PaddedOne(decimals, decimals + "0");
    assert (whole + decimals)[..|whole|] == whole && decimals[..0] == "";
  }

  lemma TwoDecimals(whole: string, decimals: string)
    requires AllDigits(whole) && AllDigits(decimals) && |decimals| == 2 && AllDigits(PadEnd(decimals, 2))
    ensures AllDigits(whole + decimals) && 100 * Minor(whole, decimals) == 100 * Nat(whole + decimals)
  {
    PaddedTwo(decimals);
    var a, b := decimals[0], decimals[1];
    assert decimals == [a] + [b] && whole + decimals == (whole + [a]) + [b];
    NatAppend(whole, a);
    NatAppend(whole + [a], b);
    assert "" + [a] == [a];
    NatAppend("", a);
    NatAppend([a], b);
  }

  lemma NatAppend(s: string, c: char)
    requires AllDigits(s) && IsDigit(c)
    ensures AllDigits(s + [c]) && Nat(s + [c]) == 10 * Nat(s) + DigitValue(c)
  {
    assert (s + [c])[..|s|] == s;
  }

  /** The language of the parser, both ways. */
  lemma {:induction false} AcceptsExactly(value: string)
    ensures Parse(value).Some? <==> Numeral(StripCommas(Trim(value)))
  {
    if Parse(value).Some? {
      var whole, decimals, _ := ParsedDenotes(value);
      NumeralIs(whole, decimals);
    }
    if Numeral(StripCommas(Trim(value))) {
      var whole, decimals := NumeralSplits(StripCommas(Trim(value)));
      if StripCommas(Trim(value)) == whole {
        ParseOfWhole(value, whole, Nat(whole) * 100);
      } else {
        PaddedDigits(decimals);
        ParseOfDecimal(value, whole, decimals, Minor(whole, decimals));
      }
    }
  }

  /** A numeral: digits, the first character among them, with at most one point that leaves at
      most two of them behind it. */
  predicate Numeral(s: string) {
    && s != "" && IsDigit(s[0])
    && (forall i | 0 <= i < |s| :: IsDigit(s[i]) || (s[i] == '.' && |s| - i <= 3))
    && (forall i, j | 0 <= i < j < |s| :: IsDigit(s[i]) || IsDigit(s[j]))
  }

  lemma NumeralIs(whole: string, decimals: string)
    requires whole != "" && AllDigits(whole) && AllDigits(decimals) && |decimals| <= 2
    ensures Numeral(whole) && Numeral(whole + ("." + decimals))
  {
  }

  lemma NumeralSplits(s: string) returns (whole: string, decimals: string)
    requires Numeral(s)
    ensures whole != "" && AllDigits(whole) && AllDigits(decimals) && |decimals| <= 2
    ensures s == whole + ("." + decimals) || (decimals == "" && s == whole)
  {
    var run := DigitRun(s);
    whole, decimals := s[..run], if run < |s| then s[run + 1..] else "";
    if run < |s| {
      assert s[run] == '.';
      assert forall k | 0 <= k < |decimals| :: decimals[k] == s[run + 1 + k];
      assert s == whole + ("." + decimals);
    }
  }

  // ---- Grouping ----

  lemma {:induction false} StripConcat(s: string, t: string)
    ensures StripCommas(s + t) == StripCommas(s) + StripCommas(t)
  {
    if t == "" {
      assert s + t == s;
    } else {
      assert (s + t)[..|s + t| - 1] == s + t[..|t| - 1];
      StripConcat(s, t[..|t| - 1]);
    }
  }

  lemma {:induction false} StripKeeps(s: string)
    requires ',' !in s
    ensures StripCommas(s) == s
  {
    if s != "" {
      StripKeeps(s[..|s| - 1]);
    }
  }

  lemma NoCommas(s: string)
    requires AllDigits(s)
    ensures ',' !in s
  {
  }

  lemma {:induction false} GroupedStrips(s: string)
    requires AllDigits(s)
    ensures StripCommas(Grouped(s)) == s
  {
    NoCommas(s);
    if |s| <= 3 {
      StripKeeps(s);
    } else {
      var front, last := s[..|s| - 3], s[|s| - 3..];
      GroupedStrips(front);
      NoCommas(last);
      StripGroup(Grouped(front), last);
      assert s == front + last;
    }
  }

  lemma StripGroup(g: string, last: string)
    requires ',' !in last
    ensures StripCommas(g + ("," + last)) == StripCommas(g) + last
  {
    StripConcat(g, "," + last);
    StripComma(last);
  }

  lemma StripComma(last: string)
    requires ',' !in last
    ensures StripCommas("," + last) == last
  {
    StripConcat(",", last);
    StripKeeps(last);
    assert StripCommas(",") == "";
  }

  /** Counted from the right, every fourth character is a comma, and no other. */
  lemma {:induction false} GroupedInThrees(s: string, d: nat)
    requires AllDigits(s) && s != "" && 1 <= d <= |Grouped(s)|
    ensures if d % 4 == 0 then Grouped(s)[|Grouped(s)| - d] == ',' else IsDigit(Grouped(s)[|Grouped(s)| - d])
  {
    if |s| > 3 {
      var g, last := Grouped(s[..|s| - 3]), s[|s| - 3..];
      if d > 4 {
        GroupedInThrees(s[..|s| - 3], d - 4);
        LeftOf(g, "," + last, d - 4);
      } else {
        assert Grouped(s)[|Grouped(s)| - d] == ("," + last)[4 - d];
      }
    }
  }

  lemma LeftOf(g: string, t: string, d: nat)
    requires 1 <= d <= |g|
    ensures (g + t)[|g + t| - (d + |t|)] == g[|g| - d]
  {
  }

  /** A grouped numeral begins with a digit, never with a comma. */
  lemma {:induction false} GroupedBegins(s: string)
    requires AllDigits(s) && s != ""
    ensures Grouped(s) != "" && Grouped(s)[0] == s[0]
  {
    if |s| > 3 {
      GroupedBegins(s[..|s| - 3]);
    }
  }

  lemma GroupedEnds(s: string)
    requires AllDigits(s) && s != ""
    ensures Grouped(s) != "" && IsDigit(Grouped(s)[|Grouped(s)| - 1])
  {
    GroupedBegins(s);
    GroupedInThrees(s, 1);
  }

  // ---- Round trips ----

  lemma LabelShape(value: string)
    requires value != "" && AllDigits(value)
    ensures var cents := PadStart(Dec(Nat(value) % 100), 2);
            |cents| == 2 && AllDigits(cents) && Nat(cents) == Nat(value) % 100
    ensures Trim(Label(value)) == Label(value)
  {
    DecRoundTrip(Nat(value) % 100);
    DecLength(Nat(value) % 100, 2) by { assert Pow10(2) == 10 * Pow10(1) && Pow10(1) == 10 * Pow10(0); }
    PadStartKeepsNat(Dec(Nat(value) % 100), 2);
    var whole := Dec(Nat(value) / 100);
    DecRoundTrip(Nat(value) / 100);
    GroupedBegins(whole);
    DigitsAreNotSpace(Label(value));
    TrimFixes(Label(value));
  }

  /** A label is shown in full: two digits behind a point, and before it, counted from the right,
      a comma at every fourth place and digits elsewhere. What is not a digit string has none. */
  lemma {:induction false} LabelLooks(value: string)
    ensures Label(value) == "" <==> value == "" || !AllDigits(value)
    ensures var s := Label(value);
            s != "" ==> |s| >= 4 && s[|s| - 3] == '.' && IsDigit(s[|s| - 2]) && IsDigit(s[|s| - 1])
    ensures var s := Label(value);
            forall d | 1 <= d <= |s| - 3 :: if d % 4 == 0 then s[|s| - 3 - d] == ',' else IsDigit(s[|s| - 3 - d])
  {
    if value != "" && AllDigits(value) {
      var whole, cents := Dec(Nat(value) / 100), PadStart(Dec(Nat(value) % 100), 2);
      DecRoundTrip(Nat(value) / 100);
      LabelShape(value);
      GroupedBegins(whole);
      Looks(whole, cents, Label(value));
    }
  }

  lemma Looks(whole: string, cents: string, s: string)
    requires AllDigits(whole) && whole != "" && AllDigits(cents) && |cents| == 2 && Grouped(whole) != ""
    requires s == Grouped(whole) + ("." + cents)
    ensures |s| >= 4 && s[|s| - 3] == '.' && IsDigit(s[|s| - 2]) && IsDigit(s[|s| - 1])
    ensures forall d | 1 <= d <= |s| - 3 :: if d % 4 == 0 then s[|s| - 3 - d] == ',' else IsDigit(s[|s| - 3 - d])
  {
    var g := Grouped(whole);
    forall d | 1 <= d <= |s| - 3 ensures if d % 4 == 0 then s[|s| - 3 - d] == ',' else IsDigit(s[|s| - 3 - d]) {
      GroupedInThrees(whole, d);
      assert s[|s| - 3 - d] == g[|g| - d];
    }
  }

  lemma DigitsAreNotSpace(s: string)
    requires s != "" && IsDigit(s[0]) && IsDigit(s[|s| - 1])
    ensures Trimmed(s)
  {
  }

  lemma GroupsStrip(whole: string, cents: string)
    requires AllDigits(whole) && AllDigits(cents)
    ensures StripCommas(Grouped(whole) + ("." + cents)) == whole + ("." + cents)
  {
    StripConcat(Grouped(whole), "." + cents);
    GroupedStrips(whole);
    NoCommas(cents);
    StripKeeps("." + cents);
  }

  /** The label of a digit string parses to its canonical numeral. */
  lemma {:induction false} LabelRoundTrip(value: string)
    requires value != "" && AllDigits(value)
    ensures Parse(Label(value)) == Some(Dec(Nat(value)))
  {
    var whole, cents := Dec(Nat(value) / 100), PadStart(Dec(Nat(value) % 100), 2);
    DecRoundTrip(Nat(value) / 100);
    LabelShape(value);
    GroupsStrip(whole, cents);
    PaddedTwo(cents);
    MinorOf(whole, cents, Nat(value));
    ParseOfDecimal(Label(value), whole, cents, Nat(value));
  }

  lemma MinorOf(whole: string, cents: string, n: nat)
    requires AllDigits(whole) && AllDigits(cents) && |cents| == 2 && AllDigits(PadEnd(cents, 2))
    requires Nat(whole) == n / 100 && Nat(cents) == n % 100
    ensures Minor(whole, cents) == n
  {
    PaddedTwo(cents);
  }

  /** Labelling what was parsed and parsing the label changes nothing, from the first time on. */
  lemma {:induction false} RelabelIsFixed(value: string)
    requires Parse(value).Some?
    ensures Parse(Label(Parse(value).value)) == Parse(value)
  {
    var _, _, minor := ParsedDenotes(value);
    DecRoundTrip(minor);
    LabelRoundTrip(Dec(minor));
  }

  /** Different amounts have different labels. */
  lemma {:induction false} LabelInjective(a: string, b: string)
    requires a != "" && AllDigits(a) && b != "" && AllDigits(b) && Label(a) == Label(b)
    ensures Nat(a) == Nat(b)
  {
    LabelRoundTrip(a);
    LabelRoundTrip(b);
    DecInjective(Nat(a), Nat(b));
  }
}
