/**
 * The hash-distance lottery (hooks/useHashCalculation.ts).
 *
 * Every participant's name is hashed, each hash is compared with the hash of
 * the salt by the sum of the code-unit differences over the positions both
 * strings share, and the participants are ranked by that distance, nearest
 * first. Ties keep the order in which the names were entered, because
 * `Array.prototype.sort` is stable. MD5 itself is not part of this model: the
 * hash function is a parameter `md5`, and nothing here depends on its output.
 */
module HashCalculation {
  import opened Text
  import opened JsArray

  /** `Math.abs(a - b)` for two code units. */
  function Diff(a: CodeUnit, b: CodeUnit): (d: nat)
    ensures d == 0 <==> a == b
  {
    if a <= b then b - a else a - b
  }

  /** The summed differences of the first `k` positions of `s1` and `s2`. */
  function DistanceUpTo(s1: JsString, s2: JsString, k: nat): nat
    requires k <= |s1| && k <= |s2|
  {
    if k == 0 then 0 else DistanceUpTo(s1, s2, k - 1) + Diff(s1[k - 1], s2[k - 1])
  }

  /** The distance between two hashes: the differences over the shared prefix. */
  function Distance(s1: JsString, s2: JsString): nat
  {
    DistanceUpTo(s1, s2, Min(|s1|, |s2|))
  }

  /** `calcMd5Distance(s1, s2)` */
  method CalcMd5Distance(s1: JsString, s2: JsString) returns (distance: nat)
    ensures distance == Distance(s1, s2)
  {
    distance := 0;
    var n := Min(|s1|, |s2|);
    for i := 0 to n
      invariant distance == DistanceUpTo(s1, s2, i)
    {
      if s1[i] == s2[i] {
        continue;
      }
      distance := distance + Diff(s1[i], s2[i]);
    }
  }

  lemma {:induction false} DistanceUpToSelf(s: JsString, k: nat)
    requires k <= |s|
    ensures DistanceUpTo(s, s, k) == 0
  {
    if k > 0 {
      DistanceUpToSelf(s, k - 1);
    }
  }

  /** A hash is at distance 0 from itself. */
  lemma DistanceSelf(s: JsString)
    ensures Distance(s, s) == 0
  {
    DistanceUpToSelf(s, |s|);
  }

  lemma {:induction false} DistanceUpToSymmetric(s1: JsString, s2: JsString, k: nat)
    requires k <= |s1| && k <= |s2|
    ensures DistanceUpTo(s1, s2, k) == DistanceUpTo(s2, s1, k)
  {
    if k > 0 {
      DistanceUpToSymmetric(s1, s2, k - 1);
    }
  }

  /** The distance does not depend on the order of its arguments. */
  lemma DistanceSymmetric(s1: JsString, s2: JsString)
    ensures Distance(s1, s2) == Distance(s2, s1)
  {
    DistanceUpToSymmetric(s1, s2, Min(|s1|, |s2|));
  }

  /** The first `k` positions are all that `DistanceUpTo` reads. */
  lemma {:induction false} DistanceUpToPrefix(s1: JsString, s2: JsString, t1: JsString, t2: JsString, k: nat)
    requires k <= |s1| && k <= |s2| && k <= |t1| && k <= |t2|
    requires s1[..k] == t1[..k] && s2[..k] == t2[..k]
    ensures DistanceUpTo(s1, s2, k) == DistanceUpTo(t1, t2, k)
  {
    if k > 0 {
      assert s1[..k - 1] == t1[..k - 1] && s2[..k - 1] == t2[..k - 1] by {
        assert s1[..k - 1] == s1[..k][..k - 1] && t1[..k - 1] == t1[..k][..k - 1];
        assert s2[..k - 1] == s2[..k][..k - 1] && t2[..k - 1] == t2[..k][..k - 1];
      }
      assert s1[k - 1] == s1[..k][k - 1] == t1[k - 1];
      assert s2[k - 1] == s2[..k][k - 1] == t2[k - 1];
      DistanceUpToPrefix(s1, s2, t1, t2, k - 1);
    }
  }

  /** Only the overlapping prefix counts: cutting both strings to it keeps the distance. */
  lemma DistanceOverlap(s1: JsString, s2: JsString)
    ensures var m := Min(|s1|, |s2|);
      Distance(s1, s2) == Distance(s1[..m], s2[..m])
  {
    var m := Min(|s1|, |s2|);
    assert s1[..m][..m] == s1[..m] && s2[..m][..m] == s2[..m];
    DistanceUpToPrefix(s1, s2, s1[..m], s2[..m], m);
  }

  /** Extending the longer of the two strings never changes the distance. */
  lemma DistanceExtend(s1: JsString, s2: JsString, tail: JsString)
    requires |s1| <= |s2|
    ensures Distance(s1, s2 + tail) == Distance(s1, s2)
  {
    var m := |s1|;
    assert (s2 + tail)[..m] == s2[..m];
    DistanceUpToPrefix(s1, s2 + tail, s1, s2, m);
  }

  lemma {:induction false} DistanceUpToZeroIff(s1: JsString, s2: JsString, k: nat)
    requires k <= |s1| && k <= |s2|
    ensures DistanceUpTo(s1, s2, k) == 0 <==> s1[..k] == s2[..k]
  {
    if k > 0 {
      DistanceUpToZeroIff(s1, s2, k - 1);
      assert s1[..k] == s1[..k - 1] + [s1[k - 1]];
      assert s2[..k] == s2[..k - 1] + [s2[k - 1]];
      if s1[..k] == s2[..k] {
        assert s1[..k - 1] == s1[..k][..k - 1];
        assert s2[..k - 1] == s2[..k][..k - 1];
        assert s1[k - 1] == s1[..k][k - 1];
      }
    }
  }

  /** The distance is 0 exactly when the two strings agree on their overlap. */
  lemma DistanceZeroIff(s1: JsString, s2: JsString)
    ensures var m := Min(|s1|, |s2|);
      Distance(s1, s2) == 0 <==> s1[..m] == s2[..m]
  {
    DistanceUpToZeroIff(s1, s2, Min(|s1|, |s2|));
  }

  /** One row of the ranking: `[name, md5(name), distance]`. */
  datatype Entry = Entry(name: JsString, hash: JsString, distance: nat)

  /** The comparator `(a, b) => a[2] - b[2]`. */
  function ByDistance(a: Entry, b: Entry): int
  {
    a.distance - b.distance
  }

  lemma ByDistanceConsistent()
    ensures Consistent(ByDistance)
  {
  }

  /** The row the map callback builds for `name`. */
  function Tuple(targetHash: JsString, md5: JsString -> JsString, name: JsString): Entry
  {
    Entry(name, md5(name), Distance(targetHash, md5(name)))
  }

  /** `names.map(...)`, before sorting. */
  function Tuples(targetHash: JsString, md5: JsString -> JsString, names: seq<JsString>): (r: seq<Entry>)
    ensures |r| == |names|
    ensures forall i :: 0 <= i < |names| ==> r[i] == Tuple(targetHash, md5, names[i])
  {
    if names == [] then [] else [Tuple(targetHash, md5, names[0])] + Tuples(targetHash, md5, names[1..])
  }

  /** The ranking the lottery shows: the rows stably sorted by distance. */
  function Ranking(targetHash: JsString, md5: JsString -> JsString, names: seq<JsString>): seq<Entry>
  {
    SortBy(Tuples(targetHash, md5, names), ByDistance)
  }

  /** `makeSortedNameHashDistanceTuple(targetHash, names)` */
  method MakeSortedNameHashDistanceTuple(targetHash: JsString, names: seq<JsString>, md5: JsString -> JsString)
    returns (r: seq<Entry>)
    ensures r == Ranking(targetHash, md5, names)
  {
    var a := new Entry[|names|](_ => Entry([], [], 0));
    for i := 0 to |names|
      invariant forall k :: 0 <= k < i ==> a[k] == Tuple(targetHash, md5, names[k])
    {
      var nameMd5 := md5(names[i]);
      var distance := CalcMd5Distance(targetHash, nameMd5);
      a[i] := Entry(names[i], nameMd5, distance);
    }
    assert a[..] == Tuples(targetHash, md5, names);
    Sort(a, ByDistance);
    r := a[..];
  }

  /** The ranking is ordered by distance, nearest first. */
  lemma RankingSorted(targetHash: JsString, md5: JsString -> JsString, names: seq<JsString>)
    ensures var r := Ranking(targetHash, md5, names);
      forall i, j :: 0 <= i < j < |r| ==> r[i].distance <= r[j].distance
  {
    ByDistanceConsistent();
    SortBySorted(Tuples(targetHash, md5, names), ByDistance);
  }

  /** The names of a list of rows. */
  function Names(s: seq<Entry>): (r: seq<JsString>)
    ensures |r| == |s|
    ensures forall i :: 0 <= i < |s| ==> r[i] == s[i].name
  {
    if s == [] then [] else [s[0].name] + Names(s[1..])
  }

  lemma {:induction false} NamesOfInsert(x: Entry, s: seq<Entry>)
    ensures multiset(Names(InsertBy(x, s, ByDistance))) == multiset(Names(s)) + multiset{x.name}
  {
    if s != [] && ByDistance(x, s[0]) >= 0 {
      NamesOfInsert(x, s[1..]);
      assert Names(s) == [s[0].name] + Names(s[1..]);
    }
  }

  lemma NamesOfInit(s: seq<Entry>)
    requires s != []
    ensures multiset(Names(s)) == multiset(Names(s[..|s| - 1])) + multiset{s[|s| - 1].name}
  {
    var init, last := s[..|s| - 1], s[|s| - 1];
    assert s == init + [last];
    NamesAppend(init, [last]);
  }

  lemma NamesAppend(a: seq<Entry>, b: seq<Entry>)
    ensures Names(a + b) == Names(a) + Names(b)
  {
    var l, r := Names(a + b), Names(a) + Names(b);
    forall i | 0 <= i < |a| + |b| ensures l[i] == r[i] {
      if i < |a| { assert (a + b)[i] == a[i]; } else { assert (a + b)[i] == b[i - |a|]; }
    }
  }

  lemma {:induction false} NamesOfSort(s: seq<Entry>)
    ensures multiset(Names(SortBy(s, ByDistance))) == multiset(Names(s))
  {
    if s != [] {
      var init, last := s[..|s| - 1], s[|s| - 1];
      NamesOfSort(init);
      NamesOfInsert(last, SortBy(init, ByDistance));
      NamesOfInit(s);
    }
  }

  /**
   * The ranking lists every participant exactly as often as they were entered,
   * and every row carries the name's hash and its distance from the target.
   */
  lemma RankingPermutes(targetHash: JsString, md5: JsString -> JsString, names: seq<JsString>)
    ensures multiset(Names(Ranking(targetHash, md5, names))) == multiset(names)
    ensures forall e :: e in Ranking(targetHash, md5, names) ==>
      e.hash == md5(e.name) && e.distance == Distance(targetHash, e.hash)
  {
    var t := Tuples(targetHash, md5, names);
    NamesOfSort(t);
    assert Names(t) == names;
    RankingRows(targetHash, md5, names);
  }

  lemma RankingRows(targetHash: JsString, md5: JsString -> JsString, names: seq<JsString>)
    ensures forall e :: e in Ranking(targetHash, md5, names) ==>
      e.hash == md5(e.name) && e.distance == Distance(targetHash, e.hash)
  {
    var t := Tuples(targetHash, md5, names);
    SortByPermutes(t, ByDistance);
    forall e | e in Ranking(targetHash, md5, names)
      ensures e.hash == md5(e.name) && e.distance == Distance(targetHash, e.hash)
    {
      assert e in multiset(Ranking(targetHash, md5, names));
      assert e in t;
    }
  }

  /** The rows at distance `d`, in order. */
  function WithDistance(s: seq<Entry>, d: nat): (r: seq<Entry>)
    ensures forall e :: e in r <==> e in s && e.distance == d
  {
    if s == [] then [] else (if s[0].distance == d then [s[0]] else []) + WithDistance(s[1..], d)
  }

  lemma {:induction false} WithDistanceAppend(a: seq<Entry>, b: seq<Entry>, d: nat)
    ensures WithDistance(a + b, d) == WithDistance(a, d) + WithDistance(b, d)
  {
    if a == [] {
      assert a + b == b;
    } else {
      var ab := a + b;
      assert ab[0] == a[0] && ab[1..] == a[1..] + b;
      calc {
        WithDistance(ab, d);
        (if a[0].distance == d then [a[0]] else []) + WithDistance(a[1..] + b, d);
        { WithDistanceAppend(a[1..], b, d); }
        (if a[0].distance == d then [a[0]] else []) + (WithDistance(a[1..], d) + WithDistance(b, d));
      }
    }
  }

  lemma {:induction false} WithDistanceNone(s: seq<Entry>, d: nat)
    requires forall e :: e in s ==> e.distance != d
    ensures WithDistance(s, d) == []
  {
    if s != [] {
      assert s[0] in s;
      WithDistanceNone(s[1..], d);
    }
  }

  /**
   * Inserting `x` into a list sorted by distance appends it to the rows of
   * its own distance and leaves the other distances' rows as they were.
   */
  lemma {:induction false} WithDistanceInsert(x: Entry, s: seq<Entry>, d: nat)
    requires SortedBy(s, ByDistance)
    ensures WithDistance(InsertBy(x, s, ByDistance), d) ==
      WithDistance(s, d) + (if x.distance == d then [x] else [])
  {
    if s == [] {
    } else if ByDistance(x, s[0]) < 0 {
      if x.distance == d {
        assert forall e :: e in s ==> e.distance > d by {
          forall e | e in s ensures e.distance > d {
            var k :| 0 <= k < |s| && s[k] == e;
            assert k == 0 || ByDistance(s[0], s[k]) <= 0;
          }
        }
        WithDistanceNone(s, d);
      }
    } else {
      assert SortedBy(s[1..], ByDistance);
      WithDistanceInsert(x, s[1..], d);
    }
  }

  lemma WithDistanceInit(s: seq<Entry>, d: nat)
    requires s != []
    ensures WithDistance(s, d) ==
      WithDistance(s[..|s| - 1], d) + (if s[|s| - 1].distance == d then [s[|s| - 1]] else [])
  {
    var init, last := s[..|s| - 1], s[|s| - 1];
    assert s == init + [last];
    WithDistanceAppend(init, [last], d);
    assert WithDistance([last], d) == (if last.distance == d then [last] else []) + WithDistance([], d);
  }

  /** Sorting keeps the order of the rows within each distance. */
  lemma {:induction false} WithDistanceSort(s: seq<Entry>, d: nat)
    ensures WithDistance(SortBy(s, ByDistance), d) == WithDistance(s, d)
  {
    if s != [] {
      var init, last := s[..|s| - 1], s[|s| - 1];
      WithDistanceSort(init, d);
      ByDistanceConsistent();
      SortBySorted(init, ByDistance);
      WithDistanceInsert(last, SortBy(init, ByDistance), d);
      WithDistanceInit(s, d);
    }
  }

  /** Participants at equal distance keep the order in which they were entered, duplicates included. */
  lemma RankingStable(targetHash: JsString, md5: JsString -> JsString, names: seq<JsString>, d: nat)
    ensures WithDistance(Ranking(targetHash, md5, names), d) == WithDistance(Tuples(targetHash, md5, names), d)
  {
    WithDistanceSort(Tuples(targetHash, md5, names), d);
  }

  /**
   * The results the hook settles on for a salt and a participant list: an
   * empty salt or list clears them; otherwise the salt's hash and the
   * ranking against it.
   */
  function Settled(salt: JsString, participants: seq<JsString>, md5: JsString -> JsString): (seq<Entry>, JsString)
  {
    if salt != [] && |participants| > 0 then (Ranking(md5(salt), md5, participants), md5(salt)) else ([], [])
  }

  /**
   * Only non-emptiness is asked of the salt, so a salt of white space alone
   * is ranked against like any other: the results are the ranking against
   * its hash, listing every participant as often as entered.
   */
  lemma BlankSaltAccepted(md5: JsString -> JsString, salt: JsString, participants: seq<JsString>)
    requires salt != [] && IsBlank(salt) && |participants| > 0
    ensures Settled(salt, participants, md5) == (Ranking(md5(salt), md5, participants), md5(salt))
    ensures multiset(Names(Settled(salt, participants, md5).0)) == multiset(participants)
  {
    RankingPermutes(md5(salt), md5, participants);
  }

  /** The state of `useHashCalculation`: the hook's three state variables. */
  class HashCalculation {
    var sortedResults: seq<Entry>
    var saltHash: JsString
    var isCalculating: bool

    constructor ()
      ensures sortedResults == [] && saltHash == [] && !isCalculating
    {
      sortedResults := [];
      saltHash := [];
      isCalculating := false;
    }

    /**
     * The effect that runs when the salt or the participants change: with
     * both present it marks the calculation as pending (the delayed
     * computation is `Complete`); otherwise it clears the results at once.
     */
    method Start(salt: JsString, participants: seq<JsString>)
      modifies this
      ensures salt != [] && |participants| > 0 ==>
        isCalculating && sortedResults == old(sortedResults) && saltHash == old(saltHash)
      ensures !(salt != [] && |participants| > 0) ==>
        !isCalculating && sortedResults == [] && saltHash == []
    {
      if salt != [] && |participants| > 0 {
        isCalculating := true;
      } else {
        sortedResults := [];
        saltHash := [];
        isCalculating := false;
      }
    }

    /** The delayed computation the effect schedules for a non-empty salt and participant list. */
    method Complete(salt: JsString, participants: seq<JsString>, md5: JsString -> JsString)
      requires salt != [] && |participants| > 0
      modifies this
      ensures (sortedResults, saltHash) == Settled(salt, participants, md5)
      ensures !isCalculating
    {
      var newSaltHash := md5(salt);
      saltHash := newSaltHash;
      var newSortedResults := MakeSortedNameHashDistanceTuple(newSaltHash, participants, md5);
      sortedResults := newSortedResults;
      isCalculating := false;
    }
  }
}
