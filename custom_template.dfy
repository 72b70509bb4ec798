/**
 * The custom template (components/tools/CatgirlGenerator/CustomTemplate.tsx):
 * `input.replace(/#r/g, '\u2067').replace(/#l/g, '\u2066')`. Each global
 * replace scans left to right and replaces every occurrence; two
 * occurrences of `#r` (or of `#l`) can never overlap.
 */
module CustomTemplate {
  import opened Text
  import NicknameGenerator

  const Hash: CodeUnit := 0x23
  const LowerR: CodeUnit := 0x72
  const LowerL: CodeUnit := 0x6C

  /** `s` starts with `#` followed by `tag`. */
  predicate TagAt(s: JsString, tag: CodeUnit)
  {
    |s| >= 2 && s[0] == Hash && s[1] == tag
  }

  /** `s.replace(/#<tag>/g, unit)` */
  function ReplaceTag(s: JsString, tag: CodeUnit, unit: CodeUnit): (r: JsString)
    ensures |r| <= |s|
    ensures s != [] ==> r != [] && r[0] == if TagAt(s, tag) then unit else s[0]
    decreases |s|
  {
    if s == [] then []
    else if TagAt(s, tag) then [unit] + ReplaceTag(s[2..], tag, unit)
    else [s[0]] + ReplaceTag(s[1..], tag, unit)
  }

  /** `generateTemplate`'s output. */
  function Template(input: JsString): JsString
  {
    ReplaceTag(ReplaceTag(input, LowerR, NicknameGenerator.RLI), LowerL, NicknameGenerator.LRI)
  }

  /** No `#` directly followed by `r` or `l`. */
  predicate NoTags(s: JsString)
  {
    forall i :: 0 <= i < |s| - 1 ==> !(s[i] == Hash && (s[i + 1] == LowerR || s[i + 1] == LowerL))
  }

  /**
   * The reference: one scan that replaces `#r` by U+2067 and `#l` by
   * U+2066 wherever it meets them, and keeps every other code unit.
   */
  function OnePass(s: JsString): (r: JsString)
    ensures (r == []) == (s == [])
    ensures r != [] ==>
      r[0] == if TagAt(s, LowerR) then NicknameGenerator.RLI else if TagAt(s, LowerL) then NicknameGenerator.LRI else s[0]
    ensures NoTags(r)
    decreases |s|
  {
    if s == [] then []
    else if TagAt(s, LowerR) then [NicknameGenerator.RLI] + OnePass(s[2..])
    else if TagAt(s, LowerL) then [NicknameGenerator.LRI] + OnePass(s[2..])
    else
      var rest := OnePass(s[1..]);
      var r := [s[0]] + rest;
      assert forall i :: 1 <= i < |r| - 1 ==> r[i] == rest[i - 1] && r[i + 1] == rest[i];
      r
  }

  /** The two chained replaces do what the single scan does. */
  lemma {:induction false} TemplateIsOnePass(s: JsString)
    ensures Template(s) == OnePass(s)
    decreases |s|
  {
    var rli, lri := NicknameGenerator.RLI, NicknameGenerator.LRI;
    if s == [] {
    } else if TagAt(s, LowerR) {
      var x := ReplaceTag(s[2..], LowerR, rli);
      assert ReplaceTag(s, LowerR, rli) == [rli] + x;
      assert ReplaceTag([rli] + x, LowerL, lri) == [rli] + ReplaceTag(x, LowerL, lri) by {
        assert ([rli] + x)[1..] == x;
      }
      TemplateIsOnePass(s[2..]);
    } else if TagAt(s, LowerL) {
      var x := ReplaceTag(s[2..], LowerR, rli);
      assert s[1..][1..] == s[2..];
      assert ReplaceTag(s, LowerR, rli) == [Hash, LowerL] + x;
      assert ([Hash, LowerL] + x)[2..] == x;
      TemplateIsOnePass(s[2..]);
    } else {
      var y := ReplaceTag(s[1..], LowerR, rli);
      assert ReplaceTag(s, LowerR, rli) == [s[0]] + y;
      assert ([s[0]] + y)[1..] == y;
      assert !TagAt([s[0]] + y, LowerL);
      TemplateIsOnePass(s[1..]);
    }
  }

  /** The output holds neither `#r` nor `#l`. */
  lemma TemplateHasNoTags(s: JsString)
    ensures NoTags(Template(s))
  {
    TemplateIsOnePass(s);
  }

  /** An input without `#` comes out unchanged. */
  lemma {:induction false} NoHashUnchanged(s: JsString)
    requires Hash !in s
    ensures Template(s) == s
    decreases |s|
  {
    TemplateIsOnePass(s);
    if s != [] {
      assert s[0] != Hash;
      assert forall c :: c in s[1..] ==> c in s;
      NoHashUnchanged(s[1..]);
      TemplateIsOnePass(s[1..]);
      assert s == [s[0]] + s[1..];
    }
  }

  /** The number of positions where `#` is followed by `tag`. */
  function CountTag(s: JsString, tag: CodeUnit): nat
    decreases |s|
  {
    if |s| < 2 then 0 else (if TagAt(s, tag) then 1 else 0) + CountTag(s[1..], tag)
  }

  /** Each `#r` and each `#l` shrinks two code units to one. */
  lemma {:induction false} TemplateLength(s: JsString)
    ensures |Template(s)| == |s| - CountTag(s, LowerR) - CountTag(s, LowerL)
    decreases |s|
  {
    TemplateIsOnePass(s);
    OnePassLength(s);
  }

  lemma {:induction false} OnePassLength(s: JsString)
    ensures |OnePass(s)| == |s| - CountTag(s, LowerR) - CountTag(s, LowerL)
    decreases |s|
  {
    if s == [] {
    } else if TagAt(s, LowerR) || TagAt(s, LowerL) {
      assert s[1..][1..] == s[2..];
      assert !TagAt(s[1..], LowerR) && !TagAt(s[1..], LowerL);
      OnePassLength(s[2..]);
    } else {
      OnePassLength(s[1..]);
    }
  }
}
