/** The text `JSON.stringify` writes for an object of strings, and its length in UTF-8 (RFC 3629,
    section 3). */
module JsonText {

  /** A digit of base 16. */
  function HexDigit(n: nat): char
    requires n < 16
  {
    "0123456789abcdef"[n]
  }

  /** A character inside a JSON string. */
  function Escaped(c: char): string {
    if c == '"' then "\\\"" else if c == '\\' then "\\\\"
    else if c == '\U{8}' then "\\b" else if c == '\t' then "\\t" else if c == '\n' then "\\n"
    else if c == '\U{c}' then "\\f" else if c == '\r' then "\\r"
    else if c < ' ' then "\\u00" + [HexDigit(c as int / 16), HexDigit(c as int % 16)]
    else [c]
  }

  function EscapedText(s: string): string {
    if s == "" then "" else Escaped(s[0]) + EscapedText(s[1..])
  }

  datatype Value = Str(s: string) | True

  datatype Entry = Entry(key: string, value: Value)

  function Quoted(s: string): string {
    "\"" + EscapedText(s) + "\""
  }

  function EntryText(e: Entry): string {
    Quoted(e.key) + (":" + if e.value.True? then "true" else Quoted(e.value.s))
  }

  function EntriesText(entries: seq<Entry>): string {
    if entries == [] then ""
    else if |entries| == 1 then EntryText(entries[0])
    else EntriesText(entries[..|entries| - 1]) + ("," + EntryText(entries[|entries| - 1]))
  }

  function ObjectText(entries: seq<Entry>): string {
    "{" + EntriesText(entries) + "}"
  }

  // ---- Reading ----

  /** The character that an escape of two stands for; any other stands for itself. */
  function Unescaped(c: char): char {
    if c == 'b' then '\U{8}' else if c == 't' then '\t' else if c == 'n' then '\n' else if c == 'f' then '\U{c}'
    else if c == 'r' then '\r' else c
  }

  function HexValue(c: char): nat {
    if '0' <= c <= '9' then c as int - '0' as int else if 'a' <= c <= 'f' then c as int - 'a' as int + 10 else 0
  }

  /** A text inside a JSON string, read back. */
  function ReadText(s: string): string {
    if s == "" then ""
    else if s[0] != '\\' || |s| == 1 then [s[0]] + ReadText(s[1..])
    else if s[1] == 'u' && |s| >= 6 then [(16 * HexValue(s[4]) + HexValue(s[5])) as char] + ReadText(s[6..])
    else [Unescaped(s[1])] + ReadText(s[2..])
  }

  lemma EscapedReads(c: char, rest: string)
    ensures ReadText(Escaped(c) + rest) == [c] + ReadText(rest)
  {
    var e := Escaped(c);
    var s := e + rest;
    assert s[|e|..] == rest;
    EscapedShape(c);
    if |e| == 6 {
      HexEscapeReads(c, e, s, rest);
    } else if |e| == 2 {
      assert s[0] == '\\' && s[1] == e[1];
    } else {
      assert s[0] == c;
    }
  }

  /** The three forms of an escaped character. */
  lemma EscapedShape(c: char)
    ensures var e := Escaped(c);
            || (e == [c] && c != '\\')
            || (|e| == 2 && e[0] == '\\' && e[1] != 'u' && Unescaped(e[1]) == c)
            || (c < ' ' && e == "\\u00" + [HexDigit(c as int / 16), HexDigit(c as int % 16)])
  {
  }

  lemma HexEscapeReads(c: char, e: string, s: string, rest: string)
    requires c < ' ' && s == e + rest && |s| >= 6 && s[6..] == rest
    requires e == "\\u00" + [HexDigit(c as int / 16), HexDigit(c as int % 16)]
    ensures ReadText(s) == [c] + ReadText(rest)
  {
    HexReads(c as int / 16);
    HexReads(c as int % 16);
    assert s[0] == '\\' && s[1] == 'u' && s[4] == HexDigit(c as int / 16) && s[5] == HexDigit(c as int % 16);
  }

  lemma HexReads(n: nat)
    requires n < 16
    ensures HexValue(HexDigit(n)) == n
  {
  }

  /** What is written reads back as it was, whatever had to be escaped. */
  lemma {:induction false} TextReads(s: string)
    ensures ReadText(EscapedText(s)) == s
  {
    if s != "" {
      EscapedReads(s[0], EscapedText(s[1..]));
      TextReads(s[1..]);
      assert s == [s[0]] + s[1..];
    }
  }

  // ---- Lengths ----

  function Utf8Length(s: string): nat {
    if s == "" then 0 else Utf8Length(s[..|s| - 1]) + Utf8Bytes(s[|s| - 1])
  }

  function Utf8Bytes(c: char): nat {
    if c < '\U{80}' then 1 else if c < '\U{800}' then 2 else if c < '\U{10000}' then 3 else 4
  }

  /** The bytes of a character inside a JSON string. */
  function CharBytes(c: char): nat {
    if c == '"' || c == '\\' || '\U{8}' <= c <= '\n' || c == '\U{c}' || c == '\r' then 2
    else if c < ' ' then 6
    else Utf8Bytes(c)
  }

  function TextBytes(s: string): nat {
    if s == "" then 0 else CharBytes(s[0]) + TextBytes(s[1..])
  }

  function EntryBytes(e: Entry): nat {
    TextBytes(e.key) + 3 + if e.value.True? then 4 else TextBytes(e.value.s) + 2
  }

  /** The entries, with a comma before each but the first. */
  function EntriesBytes(entries: seq<Entry>): nat {
    if entries == [] then 0
    else if |entries| == 1 then EntryBytes(entries[0])
    else EntriesBytes(entries[..|entries| - 1]) + 1 + EntryBytes(entries[|entries| - 1])
  }

  function ObjectBytes(entries: seq<Entry>): nat {
    EntriesBytes(entries) + 2
  }

  lemma {:induction false} Utf8Concat(s: string, t: string)
    ensures Utf8Length(s + t) == Utf8Length(s) + Utf8Length(t)
  {
    if t == "" {
      assert s + t == s;
    } else {
      assert (s + t)[..|s + t| - 1] == s + t[..|t| - 1];
      Utf8Concat(s, t[..|t| - 1]);
    }
  }

  predicate Ascii(s: string) {
    forall i | 0 <= i < |s| :: s[i] < '\U{80}'
  }

  lemma {:induction false} AsciiLength(s: string)
    requires Ascii(s)
    ensures Utf8Length(s) == |s|
  {
    if s != "" {
      AsciiLength(s[..|s| - 1]);
    }
  }

  lemma EscapedBytes(c: char)
    ensures Utf8Length(Escaped(c)) == CharBytes(c)
  {
    if |Escaped(c)| == 1 {
      assert Utf8Length([c]) == Utf8Bytes(c) by { assert [c][..0] == ""; }
    } else {
      AsciiLength(Escaped(c));
    }
  }

  /** The bytes of a text are those of what is written for it. */
  lemma {:induction false} EscapedTextBytes(s: string)
    ensures Utf8Length(EscapedText(s)) == TextBytes(s)
  {
    if s != "" {
      EscapedBytes(s[0]);
      EscapedTextBytes(s[1..]);
      Utf8Concat(Escaped(s[0]), EscapedText(s[1..]));
    }
  }

  lemma QuotedLength(s: string)
    ensures Utf8Length(Quoted(s)) == TextBytes(s) + 2
  {
    EscapedTextBytes(s);
    AsciiLength("\"");
    Utf8Concat("\"", EscapedText(s));
    Utf8Concat("\"" + EscapedText(s), "\"");
  }

  lemma EntryLength(e: Entry)
    ensures Utf8Length(EntryText(e)) == EntryBytes(e)
  {
    var value := if e.value.True? then "true" else Quoted(e.value.s);
    AsciiLength("true");
    AsciiLength(":");
    QuotedLength(e.key);
    if e.value.Str? {
      QuotedLength(e.value.s);
    }
    Utf8Concat(":", value);
    Utf8Concat(Quoted(e.key), ":" + value);
  }

  lemma {:induction false} EntriesLength(entries: seq<Entry>)
    ensures Utf8Length(EntriesText(entries)) == EntriesBytes(entries)
  {
    if |entries| == 1 {
      EntryLength(entries[0]);
    } else if entries != [] {
      var front, last := entries[..|entries| - 1], EntryText(entries[|entries| - 1]);
      EntriesLength(front);
      EntryLength(entries[|entries| - 1]);
      AsciiLength(",");
      Utf8Concat(",", last);
      Utf8Concat(EntriesText(front), "," + last);
    }
  }

  /** The bytes added up are those of the text that is sent, whatever it has to escape. */
  lemma {:induction false} ObjectLength(entries: seq<Entry>)
    ensures Utf8Length(ObjectText(entries)) == ObjectBytes(entries)
  {
    EntriesLength(entries);
    AsciiLength("{");
    AsciiLength("}");
    Utf8Concat("{", EntriesText(entries));
    Utf8Concat("{" + EntriesText(entries), "}");
  }

  lemma {:induction false} TextBytesBound(s: string)
    ensures TextBytes(s) <= 6 * |s|
  {
    if s != "" {
      TextBytesBound(s[1..]);
    }
  }

  predicate Short(e: Entry) {
    |e.key| <= 20 && (e.value.Str? ==> |e.value.s| <= 40)
  }

  lemma {:induction false} ShortEntries(entries: seq<Entry>)
    requires forall i | 0 <= i < |entries| :: Short(entries[i])
    ensures EntriesBytes(entries) <= 366 * |entries|
  {
    if entries != [] {
      var last := entries[|entries| - 1];
      TextBytesBound(last.key);
      if last.value.Str? {
        TextBytesBound(last.value.s);
      }
      ShortEntries(entries[..|entries| - 1]);
    }
  }
}
