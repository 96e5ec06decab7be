/** The decline of a quote version, carried as a chat message: printer and parser of
    src/lib/decline-request.ts. */
module DeclineRequest {
  import opened Decimal
  import opened JsText
  import opened Wrappers

  /** The reason codes; `Unlisted` is any other string a caller may pass. */
  datatype Reason = Price | Scope | Timing | ChoseOther | Postponed | Other | Unlisted(code: string)

  datatype InputError = InvalidReason | InvalidVersion | CommentRequired | CommentTooLong

  datatype Decline = Decline(version: SafeInteger, reason: Reason, comment: Option<string>)

  const MAX_COMMENT := 1000

  function Label(reason: Reason): string
    requires !reason.Unlisted?
  {
    match reason
    case Price => "El precio"
    case Scope => "Lo que incluye"
    case Timing => "Los tiempos"
    case ChoseOther => "Elegí otra opción"
    case Postponed => "Lo voy a posponer"
    case Other => "Otro motivo"
  }

  function NormalizeComment(reason: Reason, comment: Option<string>): Result<Option<string>, InputError> {
    var normalized := if comment.Some? then Trim(comment.value) else "";
    if reason.Unlisted? then Failure(InvalidReason)
    else if reason.Other? && normalized == "" then Failure(CommentRequired)
    else if Length(normalized) > MAX_COMMENT then Failure(CommentTooLong)
    else Success(if normalized == "" then None else Some(normalized))
  }

  predicate ValidVersion(version: Number) {
    version.Integer? && version.n > 0
  }

  const OPENING := "Propuesta V"
  const DECLINED := " declinada: "

  function Head(version: nat, reason: Reason): string
    requires !reason.Unlisted?
  {
    OPENING + (Dec(version) + (DECLINED + (Label(reason) + ".")))
  }

  function Tail(comment: Option<string>): string {
    if comment.Some? then " " + comment.value else ""
  }

  function Body(version: Number, reason: Reason, comment: Option<string>): Result<string, InputError> {
    if !ValidVersion(version) then Failure(InvalidVersion)
    else if reason.Unlisted? then Failure(InvalidReason)
    else
      var normalized := NormalizeComment(reason, comment);
      if normalized.Failure? then Failure(normalized.error)
      else Success(Head(version.n, reason) + Tail(normalized.value))
  }

  predicate Labelled(s: string, reason: Reason)
    requires !reason.Unlisted?
  {
    Label(reason) + "." <= s
  }

  /** The alternatives of the pattern, with the full stop after them. */
  function LabelAt(s: string): (reason: Option<Reason>)
    ensures reason.Some? ==> !reason.value.Unlisted? && Labelled(s, reason.value)
  {
    if Labelled(s, Price) then Some(Price)
    else if Labelled(s, Scope) then Some(Scope)
    else if Labelled(s, Timing) then Some(Timing)
    else if Labelled(s, ChoseOther) then Some(ChoseOther)
    else if Labelled(s, Postponed) then Some(Postponed)
    else if Labelled(s, Other) then Some(Other)
    else None
  }

  /** The optional last group of the pattern: nothing, or a space and any text. */
  function CommentAt(s: string): Option<Option<string>> {
    if s == "" then Some(None)
    else if s[0] == ' ' then Some(Some(s[1..]))
    else None
  }

  /** The pattern after the version. */
  function ParseReason(version: Number, s: string): Option<Decline> {
    var declined := After(s, DECLINED);
    if declined.None? then None else
    var reason := LabelAt(declined.value);
    if reason.None? then None else
    var comment := CommentAt(declined.value[|Label(reason.value)| + 1..]);
    if comment.None? || !ValidVersion(version) then None else
    var normalized := NormalizeComment(reason.value, comment.value);
    if normalized.Failure? then None else Some(Decline(version.n, reason.value, normalized.value))
  }

  function Parse(body: string): Option<Decline> {
    var opening := After(body, OPENING);
    if opening.None? then None else
    var digits := opening.value[..DigitRun(opening.value)];
    if digits == "" || digits[0] == '0' then None
    else ParseReason(ToNumber(digits), opening.value[|digits|..])
  }

  // ---- The pattern, piece by piece ----

  /** No label starts another, so the order of the alternatives does not matter. */
  lemma LabelsDiffer(s: string, a: Reason, b: Reason)
    requires !a.Unlisted? && !b.Unlisted? && Labelled(s, a) && Labelled(s, b)
    ensures a == b
  {
    assert s[0] == Label(a)[0] == Label(b)[0];
    assert s[2] == Label(a)[2] == Label(b)[2];
    assert s[3] == Label(a)[3] == Label(b)[3];
  }

  lemma LabelAtIs(reason: Reason, rest: string)
    requires !reason.Unlisted?
    ensures LabelAt(Label(reason) + "." + rest) == Some(reason)
  {
    var s := Label(reason) + "." + rest;
    assert Labelled(s, reason);
    var found := LabelAt(s);
    LabelFound(s, reason);
    LabelsDiffer(s, reason, found.value);
  }

  lemma LabelFound(s: string, reason: Reason)
    requires !reason.Unlisted? && Labelled(s, reason)
    ensures LabelAt(s).Some?
  {
  }

  function Accepted(version: Number, reason: Reason, tail: string): Option<Decline>
    requires !reason.Unlisted?
  {
    if CommentAt(tail).None? || !ValidVersion(version) then None else
    var normalized := NormalizeComment(reason, CommentAt(tail).value);
    if normalized.Failure? then None else Some(Decline(version.n, reason, normalized.value))
  }

  lemma ParseReasonOf(version: Number, reason: Reason, tail: string)
    requires !reason.Unlisted?
    ensures ParseReason(version, DECLINED + (Label(reason) + "." + tail)) == Accepted(version, reason, tail)
  {
    var rest := Label(reason) + "." + tail;
    AfterConcat(DECLINED, rest);
    LabelAtIs(reason, tail);
    assert rest[|Label(reason)| + 1..] == tail;
  }

  lemma HeadSplits(version: nat, reason: Reason, tail: string)
    requires !reason.Unlisted?
    ensures Head(version, reason) + tail == OPENING + (Dec(version) + (DECLINED + (Label(reason) + "." + tail)))
  {
  }

  lemma VersionAt(version: nat, rest: string)
    requires rest != "" && !IsDigit(rest[0])
    ensures DigitRun(Dec(version) + rest) == |Dec(version)|
  {
    DecRoundTrip(version);
    DigitRunIs(Dec(version) + rest, |Dec(version)|);
  }

  /** What the parser makes of any text of the pattern, for every positive version, however
      large: the versions it accepts are exactly 1 to 2^53 - 1. */
  lemma {:induction false} ParseOfPattern(version: nat, reason: Reason, tail: string)
    requires version > 0 && !reason.Unlisted?
    ensures Parse(Head(version, reason) + tail)
         == Accepted(if version <= MAX_SAFE then Integer(version) else NotSafeInteger, reason, tail)
  {
    var rest := DECLINED + (Label(reason) + "." + tail);
    HeadSplits(version, reason, tail);
    AfterConcat(OPENING, Dec(version) + rest);
    VersionAt(version, rest);
    var opening := Dec(version) + rest;
    assert opening[..|Dec(version)|] == Dec(version) && opening[|Dec(version)|..] == rest;
    DecRoundTrip(version);
    ParseReasonOf(ToNumber(Dec(version)), reason, tail);
  }

  lemma PatternRest(version: Number, s: string) returns (tail: string)
    requires ParseReason(version, s).Some?
    ensures var d := ParseReason(version, s).value;
            Integer(d.version) == version && !d.reason.Unlisted? && s == DECLINED + (Label(d.reason) + "." + tail)
  {
    var declined := After(s, DECLINED).value;
    AfterIs(s, DECLINED, declined);
    var labelled := Label(LabelAt(declined).value) + ".";
    tail := declined[|labelled|..];
    AfterIs(declined, labelled, tail);
  }

  /** Every accepted text is of the pattern, with a canonical version. */
  lemma {:induction false} ParsedIsPattern(body: string) returns (tail: string)
    requires Parse(body).Some?
    ensures var d := Parse(body).value;
            d.version > 0 && !d.reason.Unlisted? && body == Head(d.version, d.reason) + tail
  {
    var opening := After(body, OPENING).value;
    AfterIs(body, OPENING, opening);
    var run := DigitRun(opening);
    CanonicalRoundTrip(opening[..run]);
    tail := PatternRest(ToNumber(opening[..run]), opening[run..]);
    var d := Parse(body).value;
    HeadIs(body, opening, run, d.version, d.reason, tail);
  }

  lemma HeadIs(body: string, opening: string, run: nat, version: nat, reason: Reason, tail: string)
    requires run <= |opening| && !reason.Unlisted? && body == OPENING + opening && opening[..run] == Dec(version)
    requires opening[run..] == DECLINED + (Label(reason) + "." + tail)
    ensures body == Head(version, reason) + tail
  {
    assert opening == opening[..run] + opening[run..];
    HeadSplits(version, reason, tail);
  }

  // ---- Round trips ----

  lemma NormalizedIsTrimmed(reason: Reason, comment: Option<string>)
    requires NormalizeComment(reason, comment).Success?
    ensures var normalized := NormalizeComment(reason, comment).value;
            NormalizeComment(reason, normalized) == Success(normalized)
  {
    if comment.Some? {
      TrimTwice(comment.value);
    }
  }

  lemma CommentAtTail(comment: Option<string>)
    ensures CommentAt(Tail(comment)) == Some(comment)
  {
  }

  /** What is kept of a comment: nothing of white space, and the rest without it at the ends. */
  function Kept(comment: Option<string>): Option<string> {
    if comment.None? || AllSpace(comment.value) then None else Some(Trim(comment.value))
  }

  /** Parsing what was printed gives the version, the reason and the comment back, but for the white
      space around it, for every input the printer takes. */
  lemma {:induction false} DeclineRoundTrip(version: Number, reason: Reason, comment: Option<string>)
    requires Body(version, reason, comment).Success?
    ensures NormalizeComment(reason, comment) == Success(Kept(comment))
    ensures Parse(Body(version, reason, comment).value) == Some(Decline(version.n, reason, Kept(comment)))
  {
    if comment.Some? {
      TrimsToNothing(comment.value);
    }
    var normalized := NormalizeComment(reason, comment).value;
    ParseOfPattern(version.n, reason, Tail(normalized));
    CommentAtTail(normalized);
    NormalizedIsTrimmed(reason, comment);
  }

  /** The text as the conversation shows it, the comment behind the label's full stop. */
  lemma {:induction false} DeclineReads(version: SafeInteger, reason: Reason, comment: string)
    requires version > 0 && !reason.Unlisted? && Trimmed(comment) && comment != ""
    requires Length(comment) <= MAX_COMMENT
    ensures var told := (match reason
                         case Price => "El precio"
                         case Scope => "Lo que incluye"
                         case Timing => "Los tiempos"
                         case ChoseOther => "Elegí otra opción"
                         case Postponed => "Lo voy a posponer"
                         case Other => "Otro motivo");
            Body(Integer(version), reason, Some(comment))
            == Success("Propuesta V" + Dec(version) + " declinada: " + (told + ".") + (" " + comment))
  {
    TrimFixes(comment);
    HeadReads(version, reason, " " + comment);
  }

  lemma HeadReads(version: nat, reason: Reason, tail: string)
    requires !reason.Unlisted?
    ensures Head(version, reason) + tail
         == "Propuesta V" + Dec(version) + " declinada: " + (Label(reason) + ".") + tail
  {
  }

  /** Which error an input raises: that of the version comes before that of the reason, and that before
      those of the comment. */
  lemma {:induction false} RaisesExactly(version: Number, reason: Reason, comment: Option<string>)
    ensures Body(version, reason, comment) == Failure(InvalidVersion) <==> !ValidVersion(version)
    ensures Body(version, reason, comment) == Failure(InvalidReason) <==> ValidVersion(version) && reason.Unlisted?
    ensures Body(version, reason, comment) == Failure(CommentRequired)
       <==> ValidVersion(version) && reason.Other? && (comment.None? || AllSpace(comment.value))
    ensures Body(version, reason, comment) == Failure(CommentTooLong)
       <==> ValidVersion(version) && !reason.Unlisted? && comment.Some? && Length(Trim(comment.value)) > MAX_COMMENT
  {
    if comment.Some? {
      TrimsToNothing(comment.value);
    }
  }

  /** The printer takes exactly the inputs with a version, a listed reason, a comment where
      the reason asks for one, and at most 1000 UTF-16 units of it once trimmed. */
  lemma {:induction false} PrintsExactly(version: Number, reason: Reason, comment: Option<string>)
    ensures Body(version, reason, comment).Success?
       <==> ValidVersion(version) && !reason.Unlisted?
            && (reason.Other? ==> comment.Some? && !AllSpace(comment.value))
            && (comment.Some? ==> Length(Trim(comment.value)) <= MAX_COMMENT)
  {
    if comment.Some? {
      TrimsToNothing(comment.value);
    }
  }

  /** Two inputs print the same text only if they are the same up to the trimming. */
  lemma {:induction false} BodyInjective(v: Number, r: Reason, c: Option<string>,
                                           w: Number, s: Reason, d: Option<string>)
    requires Body(v, r, c).Success? && Body(v, r, c) == Body(w, s, d)
    ensures v == w && r == s && NormalizeComment(r, c) == NormalizeComment(s, d)
  {
    DeclineRoundTrip(v, r, c);
    DeclineRoundTrip(w, s, d);
  }

  /** An accepted text reprints to a canonical text that parses to the same value. */
  lemma {:induction false} ReprintIsCanonical(body: string)
    requires Parse(body).Some?
    ensures var d := Parse(body).value;
            var reprinted := Body(Integer(d.version), d.reason, d.comment);
            reprinted.Success? && Parse(reprinted.value) == Some(d)
  {
    var d := Parse(body).value;
    var tail := ParsedIsPattern(body);
    ParseOfPattern(d.version, d.reason, tail);
    NormalizedIsTrimmed(d.reason, CommentAt(tail).value);
    DeclineRoundTrip(Integer(d.version), d.reason, d.comment);
  }

  /** The language of the parser: a text is accepted exactly if it is the head of a version of
      1 to 2^53 - 1 and a listed reason, followed by nothing or a space and a comment that the
      reason allows. */
  lemma {:induction false} AcceptsExactly(version: nat, reason: Reason, tail: string)
    requires version > 0 && !reason.Unlisted?
    ensures Parse(Head(version, reason) + tail).Some?
       <==> version <= MAX_SAFE && CommentAt(tail).Some?
            && NormalizeComment(reason, CommentAt(tail).value).Success?
  {
    ParseOfPattern(version, reason, tail);
  }

  lemma HeadCancels(head: string, s: string, t: string)
    ensures head + s == head + t <==> s == t
  {
    assert (head + s)[|head|..] == s && (head + t)[|head|..] == t;
  }

  /** A tail is printed back exactly if it is empty, or a comment with nothing to trim. */
  lemma TailExactly(reason: Reason, tail: string)
    requires CommentAt(tail).Some? && NormalizeComment(reason, CommentAt(tail).value).Success?
    ensures Tail(NormalizeComment(reason, CommentAt(tail).value).value) == tail
       <==> tail == "" || (tail[1..] != "" && Trimmed(tail[1..]))
  {
    if tail != "" {
      var comment := tail[1..];
      TrimTwice(comment);
      assert tail == " " + comment;
      HeadCancels(" ", Trim(comment), comment);
      if Trimmed(comment) {
        TrimFixes(comment);
      }
    }
  }

  /** An accepted text is the canonical one exactly if it has no comment, or one without white
      space to trim that is not empty. */
  lemma {:induction false} CanonicalExactly(version: SafeInteger, reason: Reason, tail: string)
    requires version > 0 && !reason.Unlisted? && Parse(Head(version, reason) + tail).Some?
    ensures (var d := Parse(Head(version, reason) + tail).value;
             Body(Integer(d.version), d.reason, d.comment) == Success(Head(version, reason) + tail))
       <==> tail == "" || (tail[1..] != "" && Trimmed(tail[1..]))
  {
    ParseOfPattern(version, reason, tail);
    var normalized := NormalizeComment(reason, CommentAt(tail).value).value;
    NormalizedIsTrimmed(reason, CommentAt(tail).value);
    HeadCancels(Head(version, reason), Tail(normalized), tail);
    TailExactly(reason, tail);
  }
}
