/**
 A column from push to answer: its rows are sorted, a filter is built over their keys, they are cut into blocks, and
 a key is looked up through all three. Whatever order the rows came in, the answer is the key's newest.
 */
module FooterAnswers {
  import opened ByteStrings
  import opened Common
  import opened FooterSort
  import opened FooterLookup
  import opened BlockLookup
  import KeyFilter

  /** The row of a key no pushed row of it is newer than. */
  ghost predicate NewestOf(pushed: seq<FooterRow>, key: Bytes, row: FooterRow) {
    row in pushed && row.key == key && forall x :: x in pushed && x.key == key ==> x.lsn <= row.lsn
  }

  ghost predicate NoneOf(pushed: seq<FooterRow>, key: Bytes) { forall x :: x in pushed ==> x.key != key }

  lemma SortedAnswers(pushed: seq<FooterRow>, rows: seq<FooterRow>, key: Bytes)
    requires multiset(rows) == multiset(pushed)
    ensures forall row :: NewestIs(rows, key, row) ==> NewestOf(pushed, key, row)
    ensures Absent(rows, key) ==> NoneOf(pushed, key)
  {
    assert forall x :: x in pushed <==> x in multiset(pushed);
    assert forall x :: x in rows <==> x in multiset(rows);
    forall row | NewestIs(rows, key, row) ensures NewestOf(pushed, key, row) {
      var at :| IsNewest(rows, key, at) && rows[at] == row;
      forall x | x in pushed && x.key == key ensures x.lsn <= row.lsn {
        assert x in rows;
        var i :| 0 <= i < |rows| && rows[i] == x;
      }
    }
    if Absent(rows, key) {
      forall x | x in pushed ensures x.key != key {
        assert x in rows;
      }
    }
  }

  function KeysOf(rows: seq<FooterRow>): (keys: seq<Bytes>)
    ensures |keys| == |rows|
    ensures forall i {:trigger rows[i]} {:trigger keys[i]} :: 0 <= i < |rows| ==> keys[i] == rows[i].key
  {
    seq(|rows|, i requires 0 <= i < |rows| => rows[i].key)
  }

  /**
   Main result: a column's rows, sorted, filtered and blocked, answer with the newest row pushed of a key, or with
   none.
   */
  method SealAndLookup(column: FooterPartition, hash: KeyFilter.Hash, bitsPerKey: nat, per: nat, key: Bytes)
    returns (r: FooterFind)
    requires KeysOk(column.rows) && per > 0
    modifies column
    ensures r.Found? ==> NewestOf(old(column.rows), key, r.row)
    ensures !r.Found? ==> NoneOf(old(column.rows), key)
  {
    ghost var pushed := column.rows;
    column.Sort();
    var rows := column.rows;
    var keys := KeysOf(rows);
    var filter := KeyFilter.Build(hash, keys, |rows|, bitsPerKey);
    if filter.Some? { BuiltCovers(filter.value, hash, rows, keys); }
    var cuts := EvenCuts(|rows|, per);
    EvenCutsCut(rows, per);
    var readable := set b | 0 <= b < |cuts| && IsBlock(cuts, b);
    r := LookupInSpan(rows, cuts, readable, filter, hash, key);
    SortedAnswers(pushed, rows, key);
  }
}
