/** The change request of a quote version, carried as a chat message: printer and parsers of
    src/lib/change-request.ts. */
module ChangeRequest {
  import opened Decimal
  import opened JsText
  import opened Wrappers
  import DeclineRequest

  datatype Change = Change(version: Number, message: string)

  const OPENING := "Solicitud de cambios en la propuesta V"

  function Prefix(version: SafeInteger): string {
    OPENING + (IntegerText(version) + ":")
  }

  function Body(version: SafeInteger, message: string): string {
    Prefix(version) + ("\n\n" + Trim(message))
  }

  /** `parseChangeRequestBody`: the message, if the text asks for changes of that version. */
  function Parse(body: string, version: SafeInteger): Option<string> {
    var rest := After(body, Prefix(version));
    if rest.None? then None else Some(Trim(rest.value))
  }

  /** The digits between the fixed opening and what ends them. */
  function Numeral(body: string): string {
    var opening := After(body, OPENING);
    if opening.None? then "" else opening.value[..DigitRun(opening.value)]
  }

  function ParseAny(body: string): Option<Change> {
    var opening := After(body, OPENING);
    if opening.None? then None else
    var run := DigitRun(opening.value);
    var rest := After(opening.value[run..], ":");
    if run == 0 || rest.None? then None
    else Some(Change(ToNumber(opening.value[..run]), Trim(rest.value)))
  }

  lemma PrefixSplits(version: SafeInteger, rest: string)
    ensures Prefix(version) + rest == OPENING + (IntegerText(version) + (":" + rest))
  {
  }

  lemma TextHasNoColon(version: SafeInteger)
    ensures Lacks(IntegerText(version), ':')
  {
    DecRoundTrip(if version < 0 then -version else version);
  }

  /** A version's text is read up to the colon, so 1 is never found at the front of 12. */
  lemma OneVersion(v: SafeInteger, w: SafeInteger, x: string, y: string)
    requires IntegerText(v) + (":" + x) == IntegerText(w) + (":" + y)
    ensures v == w && x == y
  {
    TextHasNoColon(v);
    TextHasNoColon(w);
    SplitsOnce(IntegerText(v), x, IntegerText(w), y, ':', IntegerText(v) + (":" + x));
    IntegerTextInjective(v, w);
  }

  /** Read with the version it was printed for, a text gives the trimmed message back; read
      with any other version it is not a change request. */
  lemma {:induction false} ChangeRoundTrip(v: SafeInteger, message: string, w: SafeInteger)
    ensures Parse(Body(v, message), w) == if v == w then Some(Trim(message)) else None
  {
    var rest := "\n\n" + Trim(message);
    if v == w {
      AfterConcat(Prefix(v), rest);
      TrimTwice(message);
      TrimIs("\n\n", Trim(message), "");
      assert "\n\n" + Trim(message) + "" == rest;
    } else if After(Body(v, message), Prefix(w)).Some? {
      var other := After(Body(v, message), Prefix(w)).value;
      AfterIs(Body(v, message), Prefix(w), other);
      PrefixSplits(v, rest);
      PrefixSplits(w, other);
      AfterConcat(OPENING, IntegerText(v) + (":" + rest));
      AfterConcat(OPENING, IntegerText(w) + (":" + other));
      OneVersion(v, w, rest, other);
    }
  }

  /** The text as the conversation shows it, with an empty line after the version. */
  lemma {:induction false} ChangeReads(version: SafeInteger, message: string)
    requires Trimmed(message)
    ensures Body(version, message)
         == "Solicitud de cambios en la propuesta V" + IntegerText(version) + ":\n\n" + message
  {
    TrimFixes(message);
  }

  /** A text asks for changes of at most one version. */
  lemma {:induction false} ParsedOnce(body: string, v: SafeInteger, w: SafeInteger)
    requires Parse(body, v).Some? && Parse(body, w).Some?
    ensures v == w
  {
    var x, y := After(body, Prefix(v)).value, After(body, Prefix(w)).value;
    AfterIs(body, Prefix(v), x);
    AfterIs(body, Prefix(w), y);
    PrefixSplits(v, x);
    PrefixSplits(w, y);
    AfterConcat(OPENING, IntegerText(v) + (":" + x));
    AfterConcat(OPENING, IntegerText(w) + (":" + y));
    OneVersion(v, w, x, y);
  }

  lemma ParseAnyOf(digits: string, rest: string)
    requires digits != "" && AllDigits(digits)
    ensures ParseAny(OPENING + (digits + (":" + rest))) == Some(Change(ToNumber(digits), Trim(rest)))
    ensures Numeral(OPENING + (digits + (":" + rest))) == digits
  {
    var opening := digits + (":" + rest);
    AfterConcat(OPENING, opening);
    assert opening[..|digits|] == digits && opening[|digits|..] == ":" + rest;
    DigitRunIs(opening, |digits|);
    AfterConcat(":", rest);
  }

  lemma ParsedAnySplits(body: string) returns (rest: string)
    requires ParseAny(body).Some?
    ensures Numeral(body) != "" && AllDigits(Numeral(body))
    ensures body == OPENING + (Numeral(body) + (":" + rest))
    ensures ParseAny(body).value == Change(ToNumber(Numeral(body)), Trim(rest))
  {
    var opening := After(body, OPENING).value;
    AfterIs(body, OPENING, opening);
    var run := DigitRun(opening);
    rest := After(opening[run..], ":").value;
    AfterIs(opening[run..], ":", rest);
    assert opening == opening[..run] + opening[run..];
  }

  /** The parser of one version agrees with the parser of any version, and the converse holds
      exactly for numerals without leading zeros; a negative version, which the printer would
      print all the same, only the first of them reads. */
  lemma {:induction false} ParsersAgreeExactly(body: string, version: SafeInteger, message: string)
    ensures version >= 0 && Parse(body, version) == Some(message)
       <==> ParseAny(body) == Some(Change(Integer(version), message)) && Canonical(Numeral(body))
    ensures version < 0 && Parse(body, version).Some? ==> ParseAny(body).None?
  {
    if version >= 0 {
      DecRoundTrip(version);
      if Parse(body, version).Some? {
        var rest := After(body, Prefix(version)).value;
        AfterIs(body, Prefix(version), rest);
        PrefixSplits(version, rest);
        ParseAnyOf(Dec(version), rest);
      }
      if ParseAny(body) == Some(Change(Integer(version), message)) && Canonical(Numeral(body)) {
        CanonicalParses(body, version);
      }
    } else if Parse(body, version).Some? {
      NegativeOnlyOne(body, version);
    }
  }

  lemma CanonicalParses(body: string, version: SafeInteger)
    requires ParseAny(body).Some? && ParseAny(body).value.version == Integer(version) && Canonical(Numeral(body))
    ensures version >= 0 && Parse(body, version) == Some(ParseAny(body).value.message)
  {
    var rest := ParsedAnySplits(body);
    CanonicalRoundTrip(Numeral(body));
    PrefixSplits(version, rest);
    AfterConcat(Prefix(version), rest);
  }

  lemma NegativeOnlyOne(body: string, version: SafeInteger)
    requires version < 0 && Parse(body, version).Some?
    ensures ParseAny(body).None?
  {
    var rest := After(body, Prefix(version)).value;
    AfterIs(body, Prefix(version), rest);
    PrefixSplits(version, rest);
    var opening := IntegerText(version) + (":" + rest);
    AfterConcat(OPENING, opening);
    assert opening[0] == '-';
  }

  /** With leading zeros only the parser of any version takes the text. */
  lemma {:induction false} LeadingZerosDisagree()
    ensures var body := OPENING + ("07" + (":" + "x"));
            ParseAny(body) == Some(Change(Integer(7), "x")) && Parse(body, 7) == None
  {
    var body := OPENING + ("07" + (":" + "x"));
    ParseAnyOf("07", "x");
    TrimFixes("x");
    assert "07"[..1] == "0" && "0"[..0] == "";
    assert !Canonical(Numeral(body));
    if Parse(body, 7).Some? {
      ParsersAgreeExactly(body, 7, Parse(body, 7).value);
    }
  }

  /** Every printed text is read by the parser of any version as well, unless the version is
      negative. */
  lemma {:induction false} AnyRoundTrip(version: SafeInteger, message: string)
    ensures ParseAny(Body(version, message))
         == if version >= 0 then Some(Change(Integer(version), Trim(message))) else None
  {
    ChangeRoundTrip(version, message, version);
    ParsersAgreeExactly(Body(version, message), version, Trim(message));
  }

  /** A message read from a text is printed to a text that reads the same. */
  lemma {:induction false} ReprintReadsTheSame(body: string, version: SafeInteger)
    requires Parse(body, version).Some?
    ensures Parse(Body(version, Parse(body, version).value), version) == Parse(body, version)
  {
    var rest := After(body, Prefix(version)).value;
    ChangeRoundTrip(version, Trim(rest), version);
    TrimTwice(rest);
  }

  /** No text is both a change request and a decline. */
  lemma {:induction false} NeverBoth(body: string, version: SafeInteger)
    requires DeclineRequest.Parse(body).Some?
    ensures ParseAny(body).None? && Parse(body, version).None?
  {
    assert body[0] == DeclineRequest.OPENING[0];
    assert body[0] != OPENING[0] == Prefix(version)[0];
  }
}
