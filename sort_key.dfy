/**
 * The column sort both inventory tables use: a comparator built from `<` and
 * `>` on one field of the two rows, returning -1, 1 or 0, with the signs
 * swapped for a descending sort.
 */
module SortKey {
  import opened Text
  import opened JsArray

  /**
   * The value of the column a table is sorted by: a string, an integer, or a
   * floating-point value this model does not represent (every comparison of
   * two such values answers neither `<` nor `>`).
   */
  datatype Key = Text(s: JsString) | Number(n: int) | Unmodelled

  /** Both keys are of the same kind, as two values of one column are. */
  predicate SameKind(x: Key, y: Key)
  {
    (x.Text? && y.Text?) || (x.Number? && y.Number?) || (x.Unmodelled? && y.Unmodelled?)
  }

  /** `x < y` for two values of one column. */
  predicate KeyLess(x: Key, y: Key)
  {
    match (x, y)
    case (Text(a), Text(b)) => Less(a, b)
    case (Number(a), Number(b)) => a < b
    case _ => false
  }

  /** `if (x < y) return asc ? -1 : 1; if (x > y) return asc ? 1 : -1; return 0` */
  function ThreeWay(x: Key, y: Key, ascending: bool): int
  {
    if KeyLess(x, y) then (if ascending then -1 else 1)
    else if KeyLess(y, x) then (if ascending then 1 else -1)
    else 0
  }

  /** The comparator that sorts rows by the column `keyOf` reads. */
  function ByKey<T>(keyOf: T -> Key, ascending: bool): (T, T) -> int
  {
    (a: T, b: T) => ThreeWay(keyOf(a), keyOf(b), ascending)
  }

  /** `<` on one column is a strict order in which unordered values are equal. */
  lemma KeyLessOrder(x: Key, y: Key, z: Key)
    requires SameKind(x, y) && SameKind(y, z)
    ensures !KeyLess(x, x)
    ensures KeyLess(x, y) ==> !KeyLess(y, x)
    ensures KeyLess(x, y) && KeyLess(y, z) ==> KeyLess(x, z)
    ensures KeyLess(x, y) || x == y || KeyLess(y, x)
  {
    if x.Text? {
      LessIrreflexive(x.s);
      LessTotal(x.s, y.s);
      if Less(x.s, y.s) {
        LessAsymmetric(x.s, y.s);
        if Less(y.s, z.s) {
          LessTransitive(x.s, y.s, z.s);
        }
      }
    }
  }

  /** A column comparator sorts consistently, in either direction. */
  lemma ByKeyConsistent<T(!new)>(keyOf: T -> Key, ascending: bool)
    requires forall a, b :: SameKind(keyOf(a), keyOf(b))
    ensures Consistent(ByKey(keyOf, ascending))
  {
    var cmp := ByKey(keyOf, ascending);
    forall a, b
      ensures cmp(a, b) < 0 <==> cmp(b, a) > 0
    {
      KeyLessOrder(keyOf(a), keyOf(b), keyOf(b));
    }
    forall a, b, c | cmp(a, b) <= 0 && cmp(b, c) <= 0
      ensures cmp(a, c) <= 0
    {
      var x, y, z := keyOf(a), keyOf(b), keyOf(c);
      KeyLessOrder(x, y, z);
      KeyLessOrder(y, z, x);
      KeyLessOrder(z, x, y);
      KeyLessOrder(x, z, y);
      KeyLessOrder(z, y, x);
      KeyLessOrder(y, x, z);
    }
  }

  /**
   * Sorting by a column puts no row after one whose value is `<` its own
   * (ascending), or `>` it (descending); and the rows are only reordered.
   */
  lemma SortByKeyOrdered<T(!new)>(s: seq<T>, keyOf: T -> Key, ascending: bool)
    requires forall a, b :: SameKind(keyOf(a), keyOf(b))
    ensures var r := SortBy(s, ByKey(keyOf, ascending));
      forall i, j :: 0 <= i < j < |r| ==>
        if ascending then !KeyLess(keyOf(r[j]), keyOf(r[i])) else !KeyLess(keyOf(r[i]), keyOf(r[j]))
    ensures multiset(SortBy(s, ByKey(keyOf, ascending))) == multiset(s)
  {
    var cmp := ByKey(keyOf, ascending);
    ByKeyConsistent(keyOf, ascending);
    SortBySorted(s, cmp);
    SortByPermutes(s, cmp);
    var r := SortBy(s, cmp);
    forall i, j | 0 <= i < j < |r|
      ensures if ascending then !KeyLess(keyOf(r[j]), keyOf(r[i])) else !KeyLess(keyOf(r[i]), keyOf(r[j]))
    {
      assert cmp(r[i], r[j]) <= 0;
      KeyLessOrder(keyOf(r[i]), keyOf(r[j]), keyOf(r[j]));
    }
  }
}
