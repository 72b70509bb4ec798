/**
 * The participant list (components/tools/hash-random/ParticipantList.tsx):
 * the text box is cut into names by `split(/[\n\s]+/).filter(Boolean)`.
 *
 * `Split` follows `String.prototype.split` with a regular expression of the
 * form `[class]+` (ECMA-262, 10th edition, clause 21.2.5.13): every maximal
 * run of code units in the class is a separator, a run at the very start or
 * end leaves an empty piece there, and the empty string splits into one
 * empty piece. `Tokens` then drops the empty pieces. The class is a
 * parameter `sep` of the definitions and lemmas; the panel uses `[\n\s]`,
 * which is the white-space set (`\s` already holds the line feed). The
 * lemmas characterise `Tokens` without reference to `Split`: a separator
 * separates, a word without separators is one token, and text made of
 * separators has none.
 */
module ParticipantList {
  import opened Text
  import opened Lists
  import HashRandomPage

  /** A character class. */
  type CharClass = CodeUnit -> bool

  /** Nothing in `s` is in the class. */
  predicate IsWord(s: JsString, sep: CharClass)
  {
    forall i :: 0 <= i < |s| ==> !sep(s[i])
  }

  /** Everything in `s` is in the class (the empty string included). */
  predicate AllIn(s: JsString, sep: CharClass)
  {
    forall i :: 0 <= i < |s| ==> sep(s[i])
  }

  /** The index of the first separator in `s`, or `|s|` when there is none. */
  function FirstSep(s: JsString, sep: CharClass): (k: nat)
    ensures k <= |s|
    ensures forall i :: 0 <= i < k ==> !sep(s[i])
    ensures k < |s| ==> sep(s[k])
  {
    if s == [] || sep(s[0]) then 0 else 1 + FirstSep(s[1..], sep)
  }

  /** The length of the separator run at the start of `s`. */
  function LeadingSeps(s: JsString, sep: CharClass): (k: nat)
    ensures k <= |s|
    ensures forall i :: 0 <= i < k ==> sep(s[i])
    ensures k < |s| ==> !sep(s[k])
  {
    if s == [] || !sep(s[0]) then 0 else 1 + LeadingSeps(s[1..], sep)
  }

  /** `s.split(/[class]+/)` */
  function Split(s: JsString, sep: CharClass): (r: seq<JsString>)
    ensures r != []
    decreases |s|
  {
    var k := FirstSep(s, sep);
    if k == |s| then [s]
    else
      var e := k + LeadingSeps(s[k..], sep);
      [s[..k]] + Split(s[e..], sep)
  }

  predicate NonEmpty(s: JsString)
  {
    s != []
  }

  /** `s.split(/[class]+/).filter(Boolean)` */
  function Tokens(s: JsString, sep: CharClass): seq<JsString>
  {
    Filter(Split(s, sep), NonEmpty)
  }

  /**
   * The maximal runs of code units outside the class, in order: the
   * reference the lemmas below hold `Tokens` to.
   */
  function Words(s: JsString, sep: CharClass): seq<JsString>
    decreases |s|
  {
    if s == [] then []
    else if sep(s[0]) then Words(s[1..], sep)
    else
      var k := FirstSep(s, sep);
      [s[..k]] + Words(s[k..], sep)
  }

  /** Every word is non-empty and holds no separator. */
  lemma {:induction false} WordsAreWords(s: JsString, sep: CharClass)
    ensures forall t :: t in Words(s, sep) ==> t != [] && IsWord(t, sep)
    decreases |s|
  {
    if s != [] {
      if sep(s[0]) {
        WordsAreWords(s[1..], sep);
      } else {
        var k := FirstSep(s, sep);
        WordsAreWords(s[k..], sep);
        assert IsWord(s[..k], sep) by {
          forall i | 0 <= i < k ensures !sep(s[..k][i]) {
            assert s[..k][i] == s[i];
          }
        }
      }
    }
  }

  /** The first separator of a word followed by a separator is where the word ends. */
  lemma FirstSepAfterWord(w: JsString, s: JsString, sep: CharClass)
    requires IsWord(w, sep)
    requires s == [] || sep(s[0])
    ensures FirstSep(w + s, sep) == |w|
  {
    var t := w + s;
    assert forall i :: 0 <= i < |w| ==> t[i] == w[i];
    assert s != [] ==> t[|w|] == s[0];
  }

  /** A prefix of separators contributes no word. */
  lemma {:induction false} WordsSkipSeps(s: JsString, n: nat, sep: CharClass)
    requires n <= |s| && forall i :: 0 <= i < n ==> sep(s[i])
    ensures Words(s, sep) == Words(s[n..], sep)
  {
    if n > 0 {
      WordsSkipSeps(s[1..], n - 1, sep);
      assert s[1..][n - 1..] == s[n..];
    }
  }

  /** A word followed by a separator or by nothing is the next word. */
  lemma WordsAfterWord(w: JsString, s: JsString, sep: CharClass)
    requires w != [] && IsWord(w, sep)
    requires s == [] || sep(s[0])
    ensures Words(w + s, sep) == [w] + Words(s, sep)
  {
    var t := w + s;
    assert t[0] == w[0];
    FirstSepAfterWord(w, s, sep);
    assert t[..|w|] == w && t[|w|..] == s;
  }

  /** A leading separator contributes no word. */
  lemma WordsSkipFirst(s: JsString, sep: CharClass)
    requires s != [] && sep(s[0])
    ensures Words(s, sep) == Words(s[1..], sep)
  {
  }

  /** A separator splits the words: those before it, then those after it. */
  lemma {:induction false} WordsSplitAt(a: JsString, c: CodeUnit, b: JsString, sep: CharClass)
    requires sep(c)
    ensures Words(a + [c] + b, sep) == Words(a, sep) + Words(b, sep)
    decreases |a|
  {
    var t := a + [c] + b;
    if a == [] {
      assert t[0] == c && t[1..] == b;
      WordsSkipFirst(t, sep);
    } else if sep(a[0]) {
      assert t[0] == a[0] && t[1..] == a[1..] + [c] + b;
      WordsSkipFirst(t, sep);
      WordsSkipFirst(a, sep);
      WordsSplitAt(a[1..], c, b, sep);
    } else {
      var k := FirstSep(a, sep);
      WordsAtWord(a, k, sep);
      WordsSplitAtWord(a, k, c, b, sep);
      WordsSplitAt(a[k..], c, b, sep);
    }
  }

  /** The first word of `a` is also the first word of `a + [c] + b`. */
  lemma WordsSplitAtWord(a: JsString, k: nat, c: CodeUnit, b: JsString, sep: CharClass)
    requires sep(c) && 0 < k == FirstSep(a, sep)
    ensures Words(a + [c] + b, sep) == [a[..k]] + Words(a[k..] + [c] + b, sep)
  {
    var w, rest := a[..k], a[k..];
    var tail := rest + [c] + b;
    assert IsWord(w, sep) by {
      forall i | 0 <= i < k ensures !sep(w[i]) {
        assert w[i] == a[i];
      }
    }
    assert tail[0] == if rest == [] then c else rest[0];
    assert a + [c] + b == w + tail;
    WordsAfterWord(w, tail, sep);
  }

  /** Text without separators: its one piece, kept unless it is empty. */
  lemma TokensWithoutSeps(s: JsString, sep: CharClass)
    requires FirstSep(s, sep) == |s|
    ensures Tokens(s, sep) == Words(s, sep)
  {
    if s != [] {
      assert s[..|s|] == s && s[|s|..] == [];
      assert Words(s, sep) == [s] + Words([], sep);
    }
  }

  /** The first piece, then the tokens after the separator run that follows it. */
  lemma TokensStep(s: JsString, k: nat, e: nat, sep: CharClass)
    requires k == FirstSep(s, sep) < |s| && e == k + LeadingSeps(s[k..], sep)
    ensures Tokens(s, sep) == Filter([s[..k]], NonEmpty) + Tokens(s[e..], sep)
  {
    SplitStep(s, k, e, sep);
    FilterAppend([s[..k]], Split(s[e..], sep), NonEmpty);
  }

  lemma SplitStep(s: JsString, k: nat, e: nat, sep: CharClass)
    requires k == FirstSep(s, sep) < |s| && e == k + LeadingSeps(s[k..], sep)
    ensures Split(s, sep) == [s[..k]] + Split(s[e..], sep)
  {
  }

  /** Text that starts with a word: that word, then the words of the rest. */
  lemma WordsAtWord(s: JsString, k: nat, sep: CharClass)
    requires 0 < k == FirstSep(s, sep)
    ensures Words(s, sep) == [s[..k]] + Words(s[k..], sep)
  {
  }

  /** The separator run after the first word contributes no word. */
  lemma WordsSkipRun(s: JsString, k: nat, e: nat, sep: CharClass)
    requires k <= |s| && e == k + LeadingSeps(s[k..], sep)
    ensures Words(s[k..], sep) == Words(s[e..], sep)
  {
    WordsSkipSeps(s[k..], e - k, sep);
    assert s[k..][e - k..] == s[e..];
  }

  /** The first word, if the text does not start with a separator, then the words after the run. */
  lemma WordsStep(s: JsString, k: nat, e: nat, sep: CharClass)
    requires k == FirstSep(s, sep) < |s| && e == k + LeadingSeps(s[k..], sep)
    ensures Words(s, sep) == (if k == 0 then [] else [s[..k]]) + Words(s[e..], sep)
  {
    WordsSkipRun(s, k, e, sep);
    if k == 0 {
      assert s[k..] == s;
    } else {
      WordsAtWord(s, k, sep);
    }
  }

  /** `split(/[class]+/).filter(Boolean)` yields exactly the maximal runs outside the class. */
  lemma {:induction false} TokensAreWords(s: JsString, sep: CharClass)
    ensures Tokens(s, sep) == Words(s, sep)
    decreases |s|
  {
    var k := FirstSep(s, sep);
    if k == |s| {
      TokensWithoutSeps(s, sep);
    } else {
      var e := k + LeadingSeps(s[k..], sep);
      TokensStep(s, k, e, sep);
      WordsStep(s, k, e, sep);
      TokensAreWords(s[e..], sep);
    }
  }

  /** Text made of separators only, the empty string included, has no tokens. */
  lemma TokensOfSeps(s: JsString, sep: CharClass)
    requires AllIn(s, sep)
    ensures Tokens(s, sep) == []
  {
    TokensAreWords(s, sep);
    WordsSkipSeps(s, |s|, sep);
  }

  /** A non-empty word without separators is exactly one token. */
  lemma TokensOfWord(w: JsString, sep: CharClass)
    requires w != [] && IsWord(w, sep)
    ensures Tokens(w, sep) == [w]
  {
    TokensAreWords(w, sep);
    WordsAfterWord(w, [], sep);
    assert w + [] == w;
  }

  /** A separator separates: the tokens on either side of it, in order. */
  lemma TokensSplitAt(a: JsString, c: CodeUnit, b: JsString, sep: CharClass)
    requires sep(c)
    ensures Tokens(a + [c] + b, sep) == Tokens(a, sep) + Tokens(b, sep)
  {
    TokensAreWords(a + [c] + b, sep);
    TokensAreWords(a, sep);
    TokensAreWords(b, sep);
    WordsSplitAt(a, c, b, sep);
  }

  /** `tokens.join(String.fromCharCode(c))` */
  function Join(tokens: seq<JsString>, c: CodeUnit): JsString
  {
    if tokens == [] then []
    else if |tokens| == 1 then tokens[0]
    else tokens[0] + [c] + Join(tokens[1..], c)
  }

  /** Words joined by one separator each split back into the same words. */
  lemma {:induction false} TokensOfJoin(tokens: seq<JsString>, c: CodeUnit, sep: CharClass)
    requires sep(c)
    requires forall t :: t in tokens ==> t != [] && IsWord(t, sep)
    ensures Tokens(Join(tokens, c), sep) == tokens
  {
    if tokens == [] {
      TokensOfSeps([], sep);
    } else if |tokens| == 1 {
      assert tokens[0] in tokens;
      TokensOfWord(tokens[0], sep);
    } else {
      TokensSplitAt(tokens[0], c, Join(tokens[1..], c), sep);
      assert tokens[0] in tokens;
      TokensOfWord(tokens[0], sep);
      assert forall t :: t in tokens[1..] ==> t in tokens;
      TokensOfJoin(tokens[1..], c, sep);
      assert tokens == [tokens[0]] + tokens[1..];
    }
  }

  /** The participant names in the text box: `split(/[\n\s]+/).filter(Boolean)`. */
  function Participants(text: JsString): seq<JsString>
  {
    Tokens(text, IsWhitespace)
  }

  /** Blank text, the empty string included, names nobody. */
  lemma ParticipantsOfBlank(text: JsString)
    requires IsBlank(text)
    ensures Participants(text) == []
  {
    TokensOfSeps(text, IsWhitespace);
  }

  /** Reading the names is idempotent: the names re-entered one space apart give the same list. */
  lemma ParticipantsIdempotent(text: JsString)
    ensures Participants(Join(Participants(text), Space)) == Participants(text)
  {
    TokensAreWords(text, IsWhitespace);
    WordsAreWords(text, IsWhitespace);
    TokensOfJoin(Participants(text), Space, IsWhitespace);
  }

  /** The participant panel: its text box and the roll button. */
  class ParticipantList {
    var participantText: JsString

    constructor ()
      ensures participantText == []
    {
      participantText := [];
    }

    /** `handleRoll`: the page's participants become the names in the text box. */
    method HandleRoll(page: HashRandomPage.Page)
      modifies page
      ensures page.participants == Participants(participantText)
      ensures page.salt == old(page.salt) && page.count == old(page.count)
    {
      page.participants := Participants(participantText);
    }
  }
}
