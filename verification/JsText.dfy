/** JavaScript strings and numbers as far as the message and money formats use them: `trim`,
    `length`, `startsWith` and `slice`, `Number` of a digit string. */
module JsText {
  import opened Decimal
  import opened Wrappers

  const MAX_SAFE: int := 9007199254740991

  type SafeInteger = n: int | -MAX_SAFE <= n <= MAX_SAFE

  /** A number, as far as `Number.isSafeInteger` tells numbers apart. */
  datatype Number = Integer(n: SafeInteger) | NotSafeInteger

  /** `Number(digits)`: past the safe integers the value is rounded, and stays past them. */
  function ToNumber(digits: string): Number
    requires AllDigits(digits)
  {
    if Nat(digits) <= MAX_SAFE then Integer(Nat(digits)) else NotSafeInteger
  }

  function IntegerText(n: SafeInteger): string {
    if n < 0 then "-" + Dec(-n) else Dec(n)
  }

  /** BigInt division truncates toward zero. */
  function TruncatedDiv(a: int, b: nat): int
    requires b > 0
  {
    if a < 0 then -(-a / b) else a / b
  }

  /** The white space and line terminators of ECMA-262. */
  predicate IsSpace(c: char) {
    || '\t' <= c <= '\r' || c == ' ' || c == '\U{A0}' || c == '\U{1680}' || '\U{2000}' <= c <= '\U{200A}'
    || c == '\U{2028}' || c == '\U{2029}' || c == '\U{202F}' || c == '\U{205F}' || c == '\U{3000}' || c == '\U{FEFF}'
  }

  /** The same, one by one. */
  const WHITE_SPACE: string :=
    "\t\n\U{b}\U{c}\r \U{A0}\U{1680}\U{2000}\U{2001}\U{2002}\U{2003}\U{2004}\U{2005}\U{2006}\U{2007}"
    + "\U{2008}\U{2009}\U{200A}\U{2028}\U{2029}\U{202F}\U{205F}\U{3000}\U{FEFF}"

  lemma {:induction false} SpacesAre(c: char)
    ensures IsSpace(c) <==> c in WHITE_SPACE
  {
  }

  predicate AllSpace(s: string) {
    forall i | 0 <= i < |s| :: IsSpace(s[i])
  }

  function TrimStart(s: string): string {
    if s != "" && IsSpace(s[0]) then TrimStart(s[1..]) else s
  }

  function TrimEnd(s: string): string {
    if s != "" && IsSpace(s[|s| - 1]) then TrimEnd(s[..|s| - 1]) else s
  }

  function Trim(s: string): string {
    TrimEnd(TrimStart(s))
  }

  predicate Trimmed(s: string) {
    s != "" ==> !IsSpace(s[0]) && !IsSpace(s[|s| - 1])
  }

  /** `length` counts UTF-16 code units: two for a character past the basic plane. */
  function Length(s: string): (n: nat)
    ensures n >= |s|
  {
    if s == "" then 0 else Length(s[..|s| - 1]) + if s[|s| - 1] as int > 0xFFFF then 2 else 1
  }

  lemma {:induction false} LengthConcat(s: string, t: string)
    ensures Length(s + t) == Length(s) + Length(t)
  {
    if t == "" {
      assert s + t == s;
    } else {
      assert (s + t)[..|s + t| - 1] == s + t[..|t| - 1];
      LengthConcat(s, t[..|t| - 1]);
    }
  }

  /** A text has a unit for each character, and one more for each past the basic plane. */
  lemma {:induction false} LengthBound(s: string)
    ensures |s| <= Length(s) <= 2 * |s|
    ensures Length(s) == |s| <==> forall i | 0 <= i < |s| :: s[i] < '\U{10000}'
  {
    if s != "" {
      LengthBound(s[..|s| - 1]);
    }
  }

  /** What follows the prefix, when the text starts with it. */
  function After(s: string, prefix: string): Option<string> {
    if prefix <= s then Some(s[|prefix|..]) else None
  }

  lemma AfterConcat(prefix: string, rest: string)
    ensures After(prefix + rest, prefix) == Some(rest)
  {
  }

  lemma AfterIs(s: string, prefix: string, rest: string)
    requires After(s, prefix) == Some(rest)
    ensures s == prefix + rest
  {
  }

  lemma IntegerTextInjective(m: SafeInteger, n: SafeInteger)
    requires IntegerText(m) == IntegerText(n)
    ensures m == n
  {
    DecRoundTrip(if m < 0 then -m else m);
    DecRoundTrip(if n < 0 then -n else n);
    if m < 0 && n < 0 {
      assert Dec(-m) == IntegerText(m)[1..] && Dec(-n) == IntegerText(n)[1..];
    }
  }

  /** The character does not occur in the text. */
  predicate Lacks(s: string, c: char) {
    forall i | 0 <= i < |s| :: s[i] != c
  }

  function IndexOf(s: string, c: char): nat {
    if s == "" || s[0] == c then 0 else 1 + IndexOf(s[1..], c)
  }

  lemma {:induction false} IndexAfter(a: string, x: string, c: char)
    requires Lacks(a, c)
    ensures IndexOf(a + ([c] + x), c) == |a|
  {
    if a == "" {
      assert a + ([c] + x) == [c] + x;
    } else {
      assert (a + ([c] + x))[1..] == a[1..] + ([c] + x);
      IndexAfter(a[1..], x, c);
    }
  }

  /** A text has one place where a character first occurs. */
  lemma SplitsOnce(a: string, x: string, b: string, y: string, c: char, s: string)
    requires Lacks(a, c) && Lacks(b, c) && s == a + ([c] + x) && s == b + ([c] + y)
    ensures a == b && x == y
  {
    IndexAfter(a, x, c);
    IndexAfter(b, y, c);
    assert s[..|a|] == a && s[..|b|] == b;
    assert s[|a| + 1..] == x && s[|b| + 1..] == y;
  }

  // ---- Trimming ----

  lemma {:induction false} TrimStartIs(pre: string, s: string)
    requires AllSpace(pre) && (s != "" ==> !IsSpace(s[0]))
    ensures TrimStart(pre + s) == s
  {
    if pre == "" {
      assert pre + s == s;
    } else {
      assert (pre + s)[1..] == pre[1..] + s;
      TrimStartIs(pre[1..], s);
    }
  }

  lemma {:induction false} TrimEndIs(s: string, post: string)
    requires AllSpace(post) && (s != "" ==> !IsSpace(s[|s| - 1]))
    ensures TrimEnd(s + post) == s
  {
    if post == "" {
      assert s + post == s;
    } else {
      assert (s + post)[..|s + post| - 1] == s + post[..|post| - 1];
      TrimEndIs(s, post[..|post| - 1]);
    }
  }

  lemma {:induction false} TrimStartSplits(s: string) returns (pre: string)
    ensures AllSpace(pre) && s == pre + TrimStart(s)
    ensures TrimStart(s) != "" ==> !IsSpace(TrimStart(s)[0])
  {
    if s != "" && IsSpace(s[0]) {
      pre := TrimStartSplits(s[1..]);
      pre := [s[0]] + pre;
    } else {
      pre := "";
    }
  }

  lemma {:induction false} TrimEndSplits(s: string) returns (post: string)
    ensures AllSpace(post) && s == TrimEnd(s) + post
    ensures TrimEnd(s) != "" ==> !IsSpace(TrimEnd(s)[|TrimEnd(s)| - 1])
  {
    if s != "" && IsSpace(s[|s| - 1]) {
      post := TrimEndSplits(s[..|s| - 1]);
      post := post + [s[|s| - 1]];
    } else {
      post := "";
    }
  }

  /** Trimming takes white space off both ends and stops at the first other character. */
  lemma TrimSplits(s: string) returns (pre: string, post: string)
    ensures AllSpace(pre) && AllSpace(post) && Trimmed(Trim(s))
    ensures s == pre + Trim(s) + post
  {
    pre := TrimStartSplits(s);
    post := TrimEndSplits(TrimStart(s));
    if Trim(s) != "" {
      assert TrimStart(s)[0] == Trim(s)[0];
    }
  }

  /** Whatever white space surrounds it, a text without any at its ends comes back. */
  lemma {:induction false} TrimIs(pre: string, s: string, post: string)
    requires AllSpace(pre) && AllSpace(post) && Trimmed(s)
    ensures Trim(pre + s + post) == s
  {
    if s == "" {
      assert pre + s + post == (pre + post) + "";
      TrimStartIs(pre + post, "");
    } else {
      assert pre + s + post == pre + (s + post);
      TrimStartIs(pre, s + post);
      TrimEndIs(s, post);
    }
  }

  lemma TrimsToNothing(s: string)
    ensures Trim(s) == "" <==> AllSpace(s)
  {
    var pre, post := TrimSplits(s);
    if AllSpace(s) {
      assert s == s + "" + "";
      TrimIs(s, "", "");
    } else {
      assert Trim(s) == "" ==> s == pre + post;
    }
  }

  lemma TrimFixes(s: string)
    requires Trimmed(s)
    ensures Trim(s) == s
  {
    TrimIs("", s, "");
    assert "" + s + "" == s;
  }

  lemma TrimTwice(s: string)
    ensures Trimmed(Trim(s)) && Trim(Trim(s)) == Trim(s)
  {
    var pre, post := TrimSplits(s);
    TrimFixes(Trim(s));
  }
}
