/** The texts of a quote request: `normalizeQuoteRequestText` of
    src/server/modules/quote-requests/domain.ts, and the words it keeps. */
module QuoteText {
  import opened JsText

  /** `replace(/\s+/gu, ' ')` */
  function Squeezed(s: string): string {
    if s == "" then ""
    else if !IsSpace(s[0]) then [s[0]] + Squeezed(s[1..])
    else if |s| > 1 && IsSpace(s[1]) then Squeezed(s[1..])
    else " " + Squeezed(s[1..])
  }

  function Text(s: string): string {
    Squeezed(Trim(s))
  }

  predicate IsWord(word: string) {
    word != "" && forall i | 0 <= i < |word| :: !IsSpace(word[i])
  }

  /** The longest stretches without white space, in order. */
  function Words(s: string): (words: seq<string>)
    ensures s != "" && !IsSpace(s[0]) ==> words != []
  {
    if s == "" then []
    else if IsSpace(s[0]) then Words(s[1..])
    else if |s| == 1 || IsSpace(s[1]) then [[s[0]]] + Words(s[1..])
    else Lengthened(s[0], Words(s[1..]))
  }

  /** The first word, with a character in front. */
  function Lengthened(c: char, words: seq<string>): (longer: seq<string>)
    requires words != []
    ensures longer != []
  {
    [[c] + words[0]] + words[1..]
  }

  /** Words with a single space between them. */
  function Joined(words: seq<string>): string {
    if words == [] then "" else if |words| == 1 then words[0] else words[0] + (" " + Joined(words[1..]))
  }

  /** Nothing to trim, and only single spaces inside. */
  predicate Clean(s: string) {
    Trimmed(s) && forall i | 0 <= i < |s| && IsSpace(s[i]) :: s[i] == ' ' && i + 1 < |s| && !IsSpace(s[i + 1])
  }

  // ---- What words are ----

  lemma {:induction false} WordsAreWords(s: string)
    ensures forall i | 0 <= i < |Words(s)| :: IsWord(Words(s)[i])
  {
    if s != "" {
      WordsAreWords(s[1..]);
    }
  }

  lemma {:induction false} WordAlone(word: string)
    requires IsWord(word)
    ensures Words(word) == [word]
  {
    if |word| > 1 {
      WordAlone(word[1..]);
      assert [word[0]] + word[1..] == word;
    } else {
      assert Words(word) == [[word[0]]] + Words("") && [word[0]] == word;
    }
  }

  lemma {:induction false} NoWords(gap: string)
    requires AllSpace(gap)
    ensures Words(gap) == []
  {
    if gap != "" {
      NoWords(gap[1..]);
    }
  }

  lemma {:induction false} WordsAfterGap(gap: string, s: string)
    requires AllSpace(gap)
    ensures Words(gap + s) == Words(s)
  {
    if gap == "" {
      assert gap + s == s;
    } else {
      assert (gap + s)[1..] == gap[1..] + s;
      WordsAfterGap(gap[1..], s);
    }
  }

  lemma LengthenedConcat(c: char, words: seq<string>, rest: seq<string>)
    requires words != []
    ensures Lengthened(c, words + rest) == Lengthened(c, words) + rest
  {
    assert (words + rest)[1..] == words[1..] + rest;
  }

  /** A further character in front does not change the words that end the text. */
  lemma WordsCons(s: string, longer: string, rest: seq<string>)
    requires s != "" && longer != "" && s[0] == longer[0] && Words(longer[1..]) == Words(s[1..]) + rest
    requires longer[1..] != "" && (if |s| == 1 then IsSpace(longer[1]) else s[1] == longer[1])
    ensures Words(longer) == Words(s) + rest
  {
    if IsSpace(s[0]) {
    } else if |s| == 1 || IsSpace(s[1]) {
      Reassociate([[s[0]]], Words(s[1..]), rest);
    } else {
      LengthenedConcat(s[0], Words(s[1..]), rest);
    }
  }

  lemma Reassociate(a: seq<string>, b: seq<string>, c: seq<string>)
    ensures a + (b + c) == a + b + c
  {
  }

  lemma {:induction false} WordsBeforeSpace(s: string, tail: string)
    requires tail != "" && IsSpace(tail[0])
    ensures Words(s + tail) == Words(s) + Words(tail)
  {
    if s == "" {
      assert s + tail == tail;
    } else {
      WordsBeforeSpace(s[1..], tail);
      var longer := s + tail;
      assert longer[1..] == s[1..] + tail && longer[0] == s[0];
      assert |s| == 1 ==> longer[1] == tail[0];
      WordsCons(s, longer, Words(tail));
    }
  }

  /** White space between two texts separates their words. */
  lemma {:induction false} WordsOfGap(s: string, gap: string, t: string)
    requires AllSpace(gap) && gap != ""
    ensures Words(s + gap + t) == Words(s) + Words(t)
  {
    WordsBeforeSpace(s, gap + t);
    WordsAfterGap(gap, t);
    assert s + gap + t == s + (gap + t);
  }

  // ---- What the text is ----

  /** White space at the front shows as a single space. */
  function Opening(s: string): string {
    if s != "" && IsSpace(s[0]) then " " else ""
  }

  lemma SqueezedSpace(s: string, rest: string)
    requires s != "" && IsSpace(s[0]) && rest == s[1..] && rest != "" && Words(rest) != []
    requires Squeezed(rest) == Opening(rest) + Joined(Words(rest))
    ensures Words(s) == Words(rest) && Squeezed(s) == " " + Joined(Words(s))
  {
    assert IsSpace(rest[0]) <==> IsSpace(s[1]);
  }

  lemma JoinedBreak(word: string, words: seq<string>)
    requires words != []
    ensures Joined([word] + words) == word + (" " + Joined(words))
  {
    assert ([word] + words)[1..] == words;
  }

  lemma SqueezedBreak(s: string, rest: string)
    requires s != "" && !IsSpace(s[0]) && rest == s[1..] && rest != "" && IsSpace(rest[0]) && Words(rest) != []
    requires Squeezed(rest) == " " + Joined(Words(rest))
    ensures Words(s) != [] && Squeezed(s) == Joined(Words(s))
  {
    assert IsSpace(s[1]);
    JoinedBreak([s[0]], Words(rest));
  }

  lemma SqueezedWord(s: string, rest: string)
    requires s != "" && !IsSpace(s[0]) && rest == s[1..] && rest != "" && !IsSpace(rest[0])
    requires Squeezed(rest) == Joined(Words(rest))
    ensures Words(s) != [] && Squeezed(s) == Joined(Words(s))
  {
    assert !IsSpace(s[1]);
    JoinedGrows(s[0], Words(rest));
  }

  lemma {:induction false} SqueezedIs(s: string)
    requires s != "" && !IsSpace(s[|s| - 1])
    ensures Words(s) != []
    ensures Squeezed(s) == Opening(s) + Joined(Words(s))
  {
    if |s| > 1 {
      var rest := s[1..];
      SqueezedIs(rest);
      if IsSpace(s[0]) {
        SqueezedSpace(s, rest);
      } else if IsSpace(rest[0]) {
        SqueezedBreak(s, rest);
      } else {
        SqueezedWord(s, rest);
      }
    }
  }

  lemma JoinedGrows(c: char, words: seq<string>)
    requires words != []
    ensures Joined(Lengthened(c, words)) == [c] + Joined(words)
  {
    assert Lengthened(c, words)[1..] == words[1..];
  }

  /** A normalized text is the words of the text, with a single space between them. */
  lemma {:induction false} TextIs(s: string)
    ensures Text(s) == Joined(Words(s))
  {
    var pre, post := TrimSplits(s);
    var t := Trim(s);
    WordsAfterGap(pre, t + post);
    assert s == pre + (t + post);
    if post != "" {
      WordsOfGap(t, post, "");
      assert t + post + "" == t + post;
    } else {
      assert t + post == t;
    }
    assert Words(s) == Words(t);
    if t == "" {
      assert Joined(Words("")) == "";
    } else {
      SqueezedIs(t);
    }
  }

  lemma {:induction false} WordsOfJoined(words: seq<string>)
    requires forall i | 0 <= i < |words| :: IsWord(words[i])
    ensures Words(Joined(words)) == words
  {
    if |words| == 1 {
      WordAlone(words[0]);
    } else if words != [] {
      WordAlone(words[0]);
      WordsOfJoined(words[1..]);
      var rest := Joined(words[1..]);
      WordsOfGap(words[0], " ", rest);
      assert words[0] + " " + rest == words[0] + (" " + rest);
    }
  }

  /** Two texts are normalized to the same exactly if they have the same words. */
  lemma {:induction false} TextsAgreeExactly(s: string, t: string)
    ensures Text(s) == Text(t) <==> Words(s) == Words(t)
  {
    TextIs(s);
    TextIs(t);
    WordsAreWords(s);
    WordsAreWords(t);
    WordsOfJoined(Words(s));
    WordsOfJoined(Words(t));
  }

  // ---- Which texts stay as they are ----

  lemma {:induction false} CleanStays(s: string)
    requires forall i | 0 <= i < |s| && IsSpace(s[i]) :: s[i] == ' ' && i + 1 < |s| && !IsSpace(s[i + 1])
    ensures Squeezed(s) == s
  {
    if s != "" {
      CleanStays(s[1..]);
      assert s == [s[0]] + s[1..];
    }
  }

  lemma {:induction false} JoinedIsClean(words: seq<string>)
    requires words != [] && forall i | 0 <= i < |words| :: IsWord(words[i])
    ensures Joined(words) != "" && Clean(Joined(words))
  {
    if |words| > 1 {
      var rest := Joined(words[1..]);
      JoinedIsClean(words[1..]);
      var s := words[0] + " " + rest;
      forall i | 0 <= i < |s| && IsSpace(s[i]) ensures s[i] == ' ' && i + 1 < |s| && !IsSpace(s[i + 1]) {
        if i > |words[0]| {
          assert s[i] == rest[i - |words[0]| - 1];
        }
      }
    }
  }

  /** Exactly the clean texts are stored as they were typed. */
  lemma {:induction false} TextFixesExactly(s: string)
    ensures Text(s) == s <==> Clean(s)
  {
    if Clean(s) {
      TrimFixes(s);
      CleanStays(s);
    }
    TextIs(s);
    WordsAreWords(s);
    if Words(s) != [] {
      JoinedIsClean(Words(s));
    }
  }

  // ---- Its length ----

  lemma {:induction false} SqueezedIsShorter(s: string)
    ensures Length(Squeezed(s)) <= Length(s)
    ensures s != "" ==> Squeezed(s) != ""
  {
    if s != "" {
      assert s == [s[0]] + s[1..];
      LengthConcat([s[0]], s[1..]);
      LengthConcat([s[0]], Squeezed(s[1..]));
      LengthConcat(" ", Squeezed(s[1..]));
      SqueezedIsShorter(s[1..]);
    }
  }

  /** Normalizing makes no text longer, and empty only one of white space: a text of which the
      schema took the trimmed length is never refused for its length afterwards. */
  lemma {:induction false} TextIsShorter(s: string)
    ensures Length(Text(s)) <= Length(Trim(s)) && (Text(s) == "" <==> AllSpace(s))
  {
    SqueezedIsShorter(Trim(s));
    TrimsToNothing(s);
  }
}
