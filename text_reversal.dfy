/**
 * Text reversal (components/tools/CatgirlGenerator/TextReversal.tsx):
 * `input.split('').reverse().join('')` reverses the string code unit by code
 * unit, so a surrogate pair comes out with its halves swapped.
 */
module TextReversal {
  import opened Text

  /** `s.split('').reverse().join('')` */
  function Reverse(s: JsString): (r: JsString)
    ensures |r| == |s|
    ensures forall i :: 0 <= i < |s| ==> r[i] == s[|s| - 1 - i]
  {
    if s == [] then [] else Reverse(s[1..]) + [s[0]]
  }

  /** Reversing twice gives the input back. */
  lemma ReverseInvolution(s: JsString)
    ensures Reverse(Reverse(s)) == s
  {
    var r := Reverse(Reverse(s));
    forall i | 0 <= i < |s| ensures r[i] == s[i] {
    }
  }

  /** Reversing a concatenation reverses the parts and swaps them. */
  lemma ReverseAppend(a: JsString, b: JsString)
    ensures Reverse(a + b) == Reverse(b) + Reverse(a)
  {
    var r, t := Reverse(a + b), Reverse(b) + Reverse(a);
    forall i | 0 <= i < |a| + |b| ensures r[i] == t[i] {
    }
  }
}
