/**
 * Array.prototype.sort, slice and splice (ECMA-262, Array.prototype, clauses
 * 22.1.3.25, 22.1.3.27 and 22.1.3.28 of the 10th edition).
 *
 * `sort` has been required to be stable since that edition: elements that
 * the comparator calls equal keep their order. For a consistent comparator
 * the stable order is unique, so every stable sort returns `SortBy` below,
 * an insertion sort in which each element goes in front of the first
 * already-sorted element that the comparator puts after it.
 */
module JsArray {
  import opened Text

  /** Insert `x` just before the first element of `s` that `cmp` orders after it. */
  function InsertBy<T>(x: T, s: seq<T>, cmp: (T, T) -> int): (r: seq<T>)
    ensures |r| == |s| + 1
  {
    if s == [] || cmp(x, s[0]) < 0 then [x] + s else [s[0]] + InsertBy(x, s[1..], cmp)
  }

  /** The result of a stable sort of `s` under the comparator `cmp`. */
  function SortBy<T>(s: seq<T>, cmp: (T, T) -> int): (r: seq<T>)
    ensures |r| == |s|
  {
    if s == [] then [] else InsertBy(s[|s| - 1], SortBy(s[..|s| - 1], cmp), cmp)
  }

  lemma {:induction false} InsertByPermutes<T>(x: T, s: seq<T>, cmp: (T, T) -> int)
    ensures multiset(InsertBy(x, s, cmp)) == multiset(s) + multiset{x}
  {
    if s != [] && cmp(x, s[0]) >= 0 {
      InsertByPermutes(x, s[1..], cmp);
      assert s == [s[0]] + s[1..];
    }
  }

  /** Sorting only reorders: the output is a permutation of the input. */
  lemma {:induction false} SortByPermutes<T>(s: seq<T>, cmp: (T, T) -> int)
    ensures multiset(SortBy(s, cmp)) == multiset(s)
  {
    if s != [] {
      var n := |s| - 1;
      SortByPermutes(s[..n], cmp);
      InsertByPermutes(s[n], SortBy(s[..n], cmp), cmp);
      assert s == s[..n] + [s[n]];
    }
  }

  /**
   * A comparator that sorts consistently: the sign flips when the arguments
   * are swapped, and "not after" is transitive.
   */
  ghost predicate Consistent<T(!new)>(cmp: (T, T) -> int)
  {
    (forall a, b :: cmp(a, b) < 0 <==> cmp(b, a) > 0) &&
    (forall a, b, c :: cmp(a, b) <= 0 && cmp(b, c) <= 0 ==> cmp(a, c) <= 0)
  }

  /** No element is placed after one that `cmp` orders after it. */
  ghost predicate SortedBy<T>(s: seq<T>, cmp: (T, T) -> int)
  {
    forall i, j :: 0 <= i < j < |s| ==> cmp(s[i], s[j]) <= 0
  }

  /** Where `InsertBy` puts `x`: after the leading run of elements it does not precede. */
  lemma {:induction false} InsertByAt<T>(x: T, s: seq<T>, p: nat, cmp: (T, T) -> int)
    requires p <= |s|
    requires forall k :: 0 <= k < p ==> cmp(x, s[k]) >= 0
    requires p < |s| ==> cmp(x, s[p]) < 0
    ensures InsertBy(x, s, cmp) == s[..p] + [x] + s[p..]
  {
    if p == 0 {
      assert s[..0] == [] && s[0..] == s;
    } else {
      var t := s[1..];
      forall k | 0 <= k < p - 1 ensures cmp(x, t[k]) >= 0 {
        assert t[k] == s[k + 1];
      }
      assert p - 1 < |t| ==> t[p - 1] == s[p];
      InsertByAt(x, t, p - 1, cmp);
      assert cmp(x, s[0]) >= 0;
      assert t[..p - 1] == s[1..p] && t[p - 1..] == s[p..];
      calc {
        InsertBy(x, s, cmp);
        [s[0]] + InsertBy(x, t, cmp);
        [s[0]] + (s[1..p] + [x] + s[p..]);
        { assert s[..p] == [s[0]] + s[1..p]; }
        s[..p] + [x] + s[p..];
      }
    }
  }

  /** An element that `cmp` puts no later than `x` and every element of `s` is no later than any element of the insertion. */
  lemma {:induction false} InsertByBounded<T>(y: T, x: T, s: seq<T>, cmp: (T, T) -> int)
    requires cmp(y, x) <= 0
    requires forall k :: 0 <= k < |s| ==> cmp(y, s[k]) <= 0
    ensures forall k :: 0 <= k < |s| + 1 ==> cmp(y, InsertBy(x, s, cmp)[k]) <= 0
  {
    if s != [] && cmp(x, s[0]) >= 0 {
      InsertByBounded(y, x, s[1..], cmp);
    }
  }

  lemma {:induction false} InsertBySorted<T(!new)>(x: T, s: seq<T>, cmp: (T, T) -> int)
    requires Consistent(cmp)
    requires SortedBy(s, cmp)
    ensures SortedBy(InsertBy(x, s, cmp), cmp)
  {
    var r := InsertBy(x, s, cmp);
    if s == [] {
    } else if cmp(x, s[0]) < 0 {
      PrependSorted(x, s, cmp);
    } else {
      var rest := InsertBy(x, s[1..], cmp);
      assert SortedBy(s[1..], cmp);
      InsertBySorted(x, s[1..], cmp);
      InsertByBounded(s[0], x, s[1..], cmp);
      assert r == [s[0]] + rest;
    }
  }

  /** An element that `cmp` orders before the head of a sorted list can go in front of it. */
  lemma PrependSorted<T(!new)>(x: T, s: seq<T>, cmp: (T, T) -> int)
    requires Consistent(cmp)
    requires SortedBy(s, cmp) && s != [] && cmp(x, s[0]) < 0
    ensures SortedBy([x] + s, cmp)
  {
    var r := [x] + s;
    forall i, j | 0 <= i < j < |r| ensures cmp(r[i], r[j]) <= 0 {
      if i == 0 {
        assert r[j] == s[j - 1];
        assert cmp(s[0], s[j - 1]) <= 0;
      } else {
        assert r[i] == s[i - 1] && r[j] == s[j - 1];
      }
    }
  }

  /** With a consistent comparator the stable sort's output is in order. */
  lemma {:induction false} SortBySorted<T(!new)>(s: seq<T>, cmp: (T, T) -> int)
    requires Consistent(cmp)
    ensures SortedBy(SortBy(s, cmp), cmp)
  {
    if s != [] {
      SortBySorted(s[..|s| - 1], cmp);
      InsertBySorted(s[|s| - 1], SortBy(s[..|s| - 1], cmp), cmp);
    }
  }

  /**
   * `a.sort(cmp)`, in place: each element in turn is inserted into the sorted
   * prefix in front of the first element `cmp` orders after it.
   */
  method Sort<T>(a: array<T>, cmp: (T, T) -> int)
    modifies a
    ensures a[..] == SortBy(old(a[..]), cmp)
  {
    ghost var input := a[..];
    var i := 0;
    while i < a.Length
      invariant 0 <= i <= a.Length
      invariant a[..i] == SortBy(input[..i], cmp)
      invariant a[i..] == input[i..]
    {
      InsertNext(a, i, cmp);
      assert input[..i + 1][..i] == input[..i];
      i := i + 1;
    }
    assert input[..a.Length] == input;
  }

  /** One step of `Sort`: insert `a[i]` into the sorted prefix `a[..i]`. */
  method InsertNext<T>(a: array<T>, i: nat, cmp: (T, T) -> int)
    requires i < a.Length
    modifies a
    ensures a[..i + 1] == InsertBy(old(a[i]), old(a[..i]), cmp)
    ensures a[i + 1..] == old(a[i + 1..])
  {
    var x := a[i];
    ghost var sorted := a[..i];
    var p := 0;
    while p < i && cmp(x, a[p]) >= 0
      invariant 0 <= p <= i
      invariant forall k :: 0 <= k < p ==> cmp(x, sorted[k]) >= 0
    {
      p := p + 1;
    }
    InsertByAt(x, sorted, p, cmp);
    ShiftRight(a, p, i);
    a[p] := x;
    ghost var inserted := sorted[..p] + [x] + sorted[p..];
    forall k | 0 <= k <= i ensures a[k] == inserted[k] {
      if k < p {
        assert inserted[k] == sorted[k];
      } else if p < k {
        assert inserted[k] == sorted[k - 1];
      }
    }
    assert a[..i + 1] == inserted;
    assert a[i + 1..] == old(a[i + 1..]);
  }

  /** Moves `a[p..i]` one place up, over `a[i]`; `a[p]` keeps its value. */
  method ShiftRight<T>(a: array<T>, p: nat, i: nat)
    requires p <= i < a.Length
    modifies a
    ensures forall k :: 0 <= k <= p ==> a[k] == old(a[k])
    ensures forall k :: p < k <= i ==> a[k] == old(a[k - 1])
    ensures forall k :: i < k < a.Length ==> a[k] == old(a[k])
  {
    var j := i;
    while j > p
      invariant p <= j <= i
      invariant forall k :: 0 <= k <= j ==> a[k] == old(a[k])
      invariant forall k :: j < k <= i ==> a[k] == old(a[k - 1])
      invariant forall k :: i < k < a.Length ==> a[k] == old(a[k])
    {
      a[j] := a[j - 1];
      j := j - 1;
    }
  }

  /** The index a relative `start`/`end` argument denotes: negative counts from the end. */
  function RelativeIndex(len: nat, relative: int): (k: nat)
    ensures k <= len
    ensures 0 <= relative ==> k == Min(relative, len)
  {
    if relative < 0 then Max(len + relative, 0) else Min(relative, len)
  }

  /** `s.slice(start, end)` */
  function Slice<T>(s: seq<T>, start: int, end: int): (r: seq<T>)
    ensures |r| <= |s|
    ensures 0 <= start <= end ==> r == s[Min(start, |s|)..Min(end, |s|)]
  {
    var from, to := RelativeIndex(|s|, start), RelativeIndex(|s|, end);
    if from < to then s[from..to] else []
  }

  /** `s.splice(start, 1)`, returning what is left of `s`. */
  function SpliceOne<T>(s: seq<T>, start: int): (r: seq<T>)
    ensures 0 <= start < |s| ==> r == s[..start] + s[start + 1..]
    ensures start >= |s| ==> r == s
    ensures |r| == if RelativeIndex(|s|, start) < |s| then |s| - 1 else |s|
  {
    var k := RelativeIndex(|s|, start);
    if k < |s| then s[..k] + s[k + 1..] else s
  }
}
