/**
 * The nickname generator (components/tools/CatgirlGenerator/NicknameGenerator.tsx):
 * a prefix followed by the suffix wrapped in the Unicode isolate controls
 * U+2067 RIGHT-TO-LEFT ISOLATE and U+2066 LEFT-TO-RIGHT ISOLATE. The first
 * result stores the suffix reversed, so that a right-to-left display shows
 * it in reading order; the second stores it as typed.
 */
module NicknameGenerator {
  import opened Text
  import opened TextReversal

  /** U+2067 RIGHT-TO-LEFT ISOLATE */
  const RLI: CodeUnit := 0x2067

  /** U+2066 LEFT-TO-RIGHT ISOLATE */
  const LRI: CodeUnit := 0x2066

  /** The initial prefix, 爱蜜莉雅. */
  const DefaultPrefix: JsString := [0x7231, 0x871C, 0x8389, 0x96C5]

  /** The initial suffix, 碳~. */
  const DefaultSuffix: JsString := [0x78B3, 0x7E]

  /** `result`: the prefix, then the reversed suffix between the two controls. */
  function Result(prefix: JsString, suffix: JsString): JsString
  {
    prefix + ([RLI] + Reverse(suffix) + [LRI])
  }

  /** `result2`: the prefix, then the suffix as typed between the two controls. */
  function Result2(prefix: JsString, suffix: JsString): JsString
  {
    prefix + [RLI] + suffix + [LRI]
  }

  /**
   * Both results start with the prefix, are two code units longer than
   * prefix and suffix together, and hold the suffix between U+2067 and
   * U+2066: reversed in `result`, as typed in `result2`.
   */
  lemma NicknameShape(prefix: JsString, suffix: JsString)
    ensures var r, r2, n := Result(prefix, suffix), Result2(prefix, suffix), |prefix|;
      |r| == |r2| == |prefix| + |suffix| + 2 &&
      r[..n] == prefix && r2[..n] == prefix &&
      r[n] == RLI && r2[n] == RLI && r[|r| - 1] == LRI && r2[|r2| - 1] == LRI &&
      r2[n + 1..|r2| - 1] == suffix &&
      r[n + 1..|r| - 1] == Reverse(r2[n + 1..|r2| - 1])
  {
    var r, r2, n := Result(prefix, suffix), Result2(prefix, suffix), |prefix|;
    assert r[n + 1..|r| - 1] == Reverse(suffix);
    assert r2[n + 1..|r2| - 1] == suffix;
  }

  /** The middle of `result`, reversed back, is the suffix as typed. */
  lemma ResultRecoversSuffix(prefix: JsString, suffix: JsString)
    ensures var r := Result(prefix, suffix);
      Reverse(r[|prefix| + 1..|r| - 1]) == suffix
  {
    var r := Result(prefix, suffix);
    assert r[|prefix| + 1..|r| - 1] == Reverse(suffix);
    ReverseInvolution(suffix);
  }

  /** With the initial fields: 爱蜜莉雅, U+2067, ~碳, U+2066. */
  lemma DefaultNickname()
    ensures Result(DefaultPrefix, DefaultSuffix) == [0x7231, 0x871C, 0x8389, 0x96C5, 0x2067, 0x7E, 0x78B3, 0x2066]
    ensures Result2(DefaultPrefix, DefaultSuffix) == [0x7231, 0x871C, 0x8389, 0x96C5, 0x2067, 0x78B3, 0x7E, 0x2066]
  {
    assert Reverse(DefaultSuffix) == [0x7E, 0x78B3] by {
      assert Reverse(DefaultSuffix[1..]) == [0x7E];
    }
  }
}
