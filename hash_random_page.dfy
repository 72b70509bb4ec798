/**
 * The hash-random page (app/tools/hash-random/page.tsx): the state it shares
 * with its input panels, and the two windows it cuts out of the ranking, the
 * draw result and the hash table.
 */
module HashRandomPage {
  import opened Text
  import opened JsArray
  import opened HashCalculation

  /** The rows the hash table shows. */
  const TableSize := 1000

  /** The page's own state: the salt, the number to draw and the participants. */
  class Page {
    var salt: JsString
    var count: int
    var participants: seq<JsString>

    constructor ()
      ensures salt == [] && count == 1 && participants == []
    {
      salt := [];
      count := 1;
      participants := [];
    }
  }

  /** `sortedResults.slice(0, count)`: the winners shown. */
  function DrawResult(results: seq<Entry>, count: int): (r: seq<Entry>)
    ensures 0 <= count ==> r == results[..Min(count, |results|)]
    ensures count < 0 ==> r == results[..Max(|results| + count, 0)]
  {
    Slice(results, 0, count)
  }

  /** `sortedResults.slice(0, 1000)`: the rows of the hash table. */
  function TableRows(results: seq<Entry>): (r: seq<Entry>)
    ensures r == results[..Min(TableSize, |results|)]
  {
    Slice(results, 0, TableSize)
  }

  /** A count above the number of participants draws everyone, in ranking order. */
  lemma DrawAll(results: seq<Entry>, count: int)
    requires count >= |results|
    ensures DrawResult(results, count) == results
  {
  }

  /** For a count between 0 and the table size, the winners are the first rows of the table. */
  lemma DrawWithinTable(results: seq<Entry>, count: int)
    requires 0 <= count <= TableSize
    ensures var draw := DrawResult(results, count);
      |draw| <= |TableRows(results)| && draw == TableRows(results)[..|draw|]
  {
  }
}
