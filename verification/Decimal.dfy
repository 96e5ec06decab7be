/** Decimal numerals as JavaScript reads and writes them: `String(n)` and `BigInt(s)` for
    non-negative integers, `padStart` and `padEnd` with zeros, and the order of strings. */
module Decimal {

  predicate IsDigit(c: char) {
    '0' <= c <= '9'
  }

  predicate AllDigits(s: string) {
    forall i | 0 <= i < |s| :: IsDigit(s[i])
  }

  function DigitValue(c: char): (v: nat)
    requires IsDigit(c)
    ensures v < 10
  {
    c as int - '0' as int
  }

  function DigitChar(v: nat): (c: char)
    requires v < 10
    ensures IsDigit(c) && DigitValue(c) == v
  {
    ('0' as int + v) as char
  }

  /** The number a digit string denotes; the empty string denotes 0. */
  function Nat(s: string): nat
    requires AllDigits(s)
  {
    if s == "" then 0 else 10 * Nat(s[..|s| - 1]) + DigitValue(s[|s| - 1])
  }

  /** The canonical numeral of a number. */
  function Dec(n: nat): string {
    if n < 10 then [DigitChar(n)] else Dec(n / 10) + [DigitChar(n % 10)]
  }

  predicate Canonical(s: string) {
    s != "" && AllDigits(s) && (s[0] != '0' || |s| == 1)
  }

  function Pow10(k: nat): (p: nat)
    ensures p > 0
  {
    if k == 0 then 1 else 10 * Pow10(k - 1)
  }

  /** `s.padStart(width, '0')` */
  function PadStart(s: string, width: nat): string
    decreases width - |s|
  {
    if |s| >= width then s else PadStart("0" + s, width)
  }

  /** `s.padEnd(width, '0')` */
  function PadEnd(s: string, width: nat): string
    decreases width - |s|
  {
    if |s| >= width then s else PadEnd(s + "0", width)
  }

  /** How many characters at the front of the text are digits. */
  function DigitRun(s: string): (n: nat)
    ensures n <= |s| && AllDigits(s[..n])
    ensures n < |s| ==> !IsDigit(s[n])
  {
    if s != "" && IsDigit(s[0]) then 1 + DigitRun(s[1..]) else 0
  }

  /** The run is where the digits stop, however the text is put together. */
  lemma DigitRunIs(s: string, n: nat)
    requires n <= |s| && AllDigits(s[..n])
    requires n < |s| ==> !IsDigit(s[n])
    ensures DigitRun(s) == n
  {
    assert forall i | 0 <= i < n :: s[..n][i] == s[i];
    var r := DigitRun(s);
    assert forall i | 0 <= i < r :: s[..r][i] == s[i];
  }

  // ---- Numerals and numbers ----

  lemma {:induction false} DecRoundTrip(n: nat)
    ensures Canonical(Dec(n)) && (n > 0 ==> Dec(n)[0] != '0')
    ensures Nat(Dec(n)) == n
  {
    if n < 10 {
      assert Dec(n)[..0] == "";
    } else {
      DecRoundTrip(n / 10);
      assert Dec(n)[..|Dec(n)| - 1] == Dec(n / 10);
    }
  }

  lemma {:induction false} CanonicalRoundTrip(s: string)
    requires Canonical(s)
    ensures Dec(Nat(s)) == s
    ensures s[0] != '0' ==> Nat(s) > 0
  {
    if |s| == 1 {
      assert s[..0] == "";
    } else {
      CanonicalRoundTrip(s[..|s| - 1]);
      assert s == s[..|s| - 1] + [s[|s| - 1]];
    }
  }

  lemma DecInjective(m: nat, n: nat)
    requires Dec(m) == Dec(n)
    ensures m == n
  {
    DecRoundTrip(m);
    DecRoundTrip(n);
  }

  lemma {:induction false} NatBound(s: string)
    requires AllDigits(s)
    ensures Nat(s) < Pow10(|s|)
  {
    if s != "" {
      NatBound(s[..|s| - 1]);
    }
  }

  lemma {:induction false} NatConcat(a: string, b: string)
    requires AllDigits(a) && AllDigits(b)
    ensures AllDigits(a + b) && Nat(a + b) == Nat(a) * Pow10(|b|) + Nat(b)
  {
    if b == "" {
      assert a + b == a;
    } else {
      var front, last := b[..|b| - 1], b[|b| - 1];
      NatConcat(a, front);
      assert (a + b)[..|a + b| - 1] == a + front;
      assert Nat(a + b) == 10 * (Nat(a) * Pow10(|front|) + Nat(front)) + DigitValue(last);
      assert 10 * (Nat(a) * Pow10(|front|)) == Nat(a) * (10 * Pow10(|front|)) by {
        Reassociate(10, Nat(a), Pow10(|front|));
      }
    }
  }

  lemma Reassociate(a: int, b: int, c: int)
    ensures a * (b * c) == b * (a * c)
  {
  }

  lemma {:induction false} PadStartKeepsNat(s: string, width: nat)
    requires AllDigits(s)
    ensures AllDigits(PadStart(s, width)) && |PadStart(s, width)| == (if |s| < width then width else |s|)
    ensures Nat(PadStart(s, width)) == Nat(s)
    decreases width - |s|
  {
    if |s| < width {
      NatConcat("0", s);
      assert "0"[..0] == "";
      PadStartKeepsNat("0" + s, width);
    }
  }

  lemma {:induction false} DecLength(n: nat, width: nat)
    requires width > 0 && n < Pow10(width)
    ensures |Dec(n)| <= width
  {
    if n >= 10 {
      DecLength(n / 10, width - 1);
    }
  }

  /** A number below 10^width, padded to the width, is the digit string of that width. */
  lemma PadStartOfNat(s: string)
    requires AllDigits(s) && s != ""
    ensures PadStart(Dec(Nat(s)), |s|) == s
  {
    NatBound(s);
    DecLength(Nat(s), |s|);
    var r := PadStart(Dec(Nat(s)), |s|);
    DecRoundTrip(Nat(s));
    PadStartKeepsNat(Dec(Nat(s)), |s|);
    SameWidth(r, s);
  }

  lemma {:induction false} SameWidth(a: string, b: string)
    requires AllDigits(a) && AllDigits(b) && |a| == |b| && Nat(a) == Nat(b)
    ensures a == b
  {
    if a != "" {
      var n := |a| - 1;
      LastDigit(Nat(a[..n]), DigitValue(a[n]), Nat(b[..n]), DigitValue(b[n]));
      SameWidth(a[..n], b[..n]);
      SameDigit(a[n], b[n]);
      assert a == a[..n] + [a[n]] && b == b[..n] + [b[n]];
    }
  }

  lemma LastDigit(m: nat, x: nat, n: nat, y: nat)
    requires x < 10 && y < 10 && 10 * m + x == 10 * n + y
    ensures m == n && x == y
  {
  }

  lemma SameDigit(c: char, d: char)
    requires IsDigit(c) && IsDigit(d) && DigitValue(c) == DigitValue(d)
    ensures c == d
  {
  }

  // ---- The order of strings ----

  /** `a < b` on JavaScript strings. */
  predicate LexLess(a: string, b: string) {
    b != "" && (a == "" || a[0] < b[0] || (a[0] == b[0] && LexLess(a[1..], b[1..])))
  }

  lemma {:induction false} LexConcat(a: string, b: string, c: string, d: string)
    requires |a| == |b|
    ensures LexLess(a + c, b + d) <==> LexLess(a, b) || (a == b && LexLess(c, d))
  {
    if a == "" {
      assert a + c == c && b + d == d;
    } else {
      LexConcat(a[1..], b[1..], c, d);
      assert (a + c)[1..] == a[1..] + c;
      assert (b + d)[1..] == b[1..] + d;
      assert a == [a[0]] + a[1..] && b == [b[0]] + b[1..];
    }
  }

  /** Numerals of one width are ordered as the numbers they denote. */
  lemma {:induction false} LexIsNumeric(a: string, b: string)
    requires AllDigits(a) && AllDigits(b) && |a| == |b|
    ensures LexLess(a, b) <==> Nat(a) < Nat(b)
  {
    if a != "" {
      var a', b' := a[..|a| - 1], b[..|b| - 1];
      LexIsNumeric(a', b');
      LexConcat(a', b', [a[|a| - 1]], [b[|b| - 1]]);
      assert a == a' + [a[|a| - 1]] && b == b' + [b[|b| - 1]];
      if a' != b' && Nat(a') == Nat(b') {
        SameWidth(a', b');
      }
    }
  }
}
