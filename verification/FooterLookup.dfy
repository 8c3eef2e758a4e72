/**
 Looking keys up in a footer partition's ordered rows: by bisection over all of them, and block by block,
 where a lookup reads only the blocks its search touches and may find a block gone with its segment.
 */
module FooterLookup {
  import opened ByteStrings
  import opened Common
  import opened KeyOrder
  import opened FooterSort

  datatype FooterFind = RuledOut | Missing | Found(row: FooterRow)

  /** Whether a row's key is below a bound, rows equal to it counted or not. */
  predicate Below(row: FooterRow, key: Bytes, pastEqual: bool) {
    if pastEqual then !Before(key, row.key) else Before(row.key, key)
  }

  /** Every row below the bound, and no row from there on. */
  ghost predicate SplitAt(rows: seq<FooterRow>, key: Bytes, pastEqual: bool, low: int, at: int, high: int) {
    forall i {:trigger rows[i]} :: 0 <= i < |rows| && low <= i < high ==> (Below(rows[i], key, pastEqual) <==> i < at)
  }

  /** Rows in order are below a bound up to a point. */
  lemma BelowIsDownward(rows: seq<FooterRow>, key: Bytes, pastEqual: bool, i: nat, j: nat)
    requires InOrder(rows) && i < j < |rows| && Below(rows[j], key, pastEqual)
    ensures Below(rows[i], key, pastEqual)
  {
    assert InTurn(rows, i, j);
    var a, b := rows[i].key, rows[j].key;
    Mirrored(a, b);
    Mirrored(b, key);
    EqualIsSame(a, b);
    BeforeTrans(a, b, key);
  }

  lemma BelowAround(rows: seq<FooterRow>, key: Bytes, pastEqual: bool, m: nat)
    requires InOrder(rows) && m < |rows|
    ensures Below(rows[m], key, pastEqual) ==> forall i {:trigger rows[i]} ::
      0 <= i <= m ==> Below(rows[i], key, pastEqual)
    ensures !Below(rows[m], key, pastEqual) ==> forall i {:trigger rows[i]} ::
      m <= i < |rows| ==> !Below(rows[i], key, pastEqual)
  {
    forall i, j | 0 <= i < j < |rows| && Below(rows[j], key, pastEqual) ensures Below(rows[i], key, pastEqual) {
      BelowIsDownward(rows, key, pastEqual, i, j);
    }
  }

  /** Bisects a window down to where rows stop being below the bound. */
  method BoundWithin(rows: seq<FooterRow>, key: Bytes, from: nat, to: nat, pastEqual: bool) returns (at: nat)
    requires InOrder(rows)
    ensures SplitAt(rows, key, pastEqual, from, at, to)
    ensures from <= at && (at <= to || at == from) && (at <= |rows| || at == from)
  {
    var low, high := from, if to <= |rows| then to else |rows|;
    while low < high
      invariant from <= low && (low <= high || low == from) && high <= |rows| && high <= to
      invariant SplitAt(rows, key, pastEqual, from, low, low)
      invariant SplitAt(rows, key, pastEqual, high, high, to)
    {
      var middle := low + (high - low) / 2;
      BelowAround(rows, key, pastEqual, middle);
      if Below(rows[middle], key, pastEqual) {
        low := middle + 1;
      } else {
        high := middle;
      }
    }
    at := low;
  }

  /** The row of a key no other row of it is newer than, the last of them. */
  ghost predicate IsNewest(rows: seq<FooterRow>, key: Bytes, at: int) {
    0 <= at < |rows| && rows[at].key == key
    && forall i {:trigger rows[i]} :: 0 <= i < |rows| && rows[i].key == key ==> i <= at && rows[i].lsn <= rows[at].lsn
  }

  ghost predicate Absent(rows: seq<FooterRow>, key: Bytes) {
    forall i {:trigger rows[i]} :: 0 <= i < |rows| ==> rows[i].key != key
  }

  lemma EqualIsBelow(key: Bytes)
    ensures !Before(key, key)
  {
    EqualIsSame(key, key);
  }

  /** The row under an upper bound is the newest of the key, or the key has none. */
  lemma UnderBound(rows: seq<FooterRow>, key: Bytes, at: nat)
    requires InOrder(rows) && at <= |rows| && SplitAt(rows, key, true, 0, at, |rows|)
    ensures at > 0 && rows[at - 1].key == key ==> IsNewest(rows, key, at - 1)
    ensures at == 0 || rows[at - 1].key != key ==> Absent(rows, key)
  {
    EqualIsBelow(key);
    forall i | 0 <= i < |rows| && rows[i].key == key
      ensures i < at && rows[at - 1].key == key && rows[i].lsn <= rows[at - 1].lsn
    {
      assert Below(rows[i], key, true);
      var last := rows[at - 1];
      assert Below(last, key, true);
      if i < at - 1 {
        assert InTurn(rows, i, at - 1);
        Mirrored(key, last.key);
        EqualIsSame(key, last.key);
      }
    }
  }

  /** Which row of a key is its latest version. */
  method Locate(rows: seq<FooterRow>, key: Bytes) returns (r: Option<int>)
    requires InOrder(rows)
    ensures r.Some? ==> IsNewest(rows, key, r.value)
    ensures r.None? <==> Absent(rows, key)
  {
    var at := BoundWithin(rows, key, 0, |rows|, true);
    UnderBound(rows, key, at);
    if at == 0 || rows[at - 1].key != key {
      return None;
    }
    return Some(at - 1);
  }

  /** The whole run of versions that one row belongs to. */
  method Run(rows: seq<FooterRow>, index: nat) returns (r: Option<(int, int)>)
    requires InOrder(rows)
    ensures r.None? <==> index >= |rows|
    ensures r.Some? ==> r.value.0 <= index <= r.value.1
    ensures r.Some? ==> forall i {:trigger rows[i]} ::
      0 <= i < |rows| ==> (rows[i].key == rows[index].key <==> r.value.0 <= i <= r.value.1)
  {
    if index >= |rows| {
      return None;
    }
    var key := rows[index].key;
    var first, last: int := index, index;
    if index > 0 && rows[index - 1].key == key {
      first := BoundWithin(rows, key, 0, |rows|, false);
    }
    if index + 1 < |rows| && rows[index + 1].key == key {
      var past := BoundWithin(rows, key, 0, |rows|, true);
      last := past - 1;
    }
    RunIs(rows, key, index, first, last);
    return Some((first, last));
  }

  lemma SameBetween(rows: seq<FooterRow>, i: nat, j: nat, k: nat)
    requires InOrder(rows) && i <= j <= k < |rows| && rows[i].key == rows[k].key
    ensures rows[j].key == rows[i].key
  {
    if i < j < k {
      assert InTurn(rows, i, j) && InTurn(rows, j, k);
      Mirrored(rows[i].key, rows[j].key);
    }
  }

  /** Where a key's rows start and end, by its bounds or by its neighbours having other keys. */
  lemma RunIs(rows: seq<FooterRow>, key: Bytes, index: nat, first: int, last: int)
    requires InOrder(rows) && index < |rows| && rows[index].key == key
    requires SplitAt(rows, key, false, 0, first, |rows|)
      || (first == index && (index > 0 ==> rows[index - 1].key != key))
    requires SplitAt(rows, key, true, 0, last + 1, |rows|)
      || (last == index && (index + 1 < |rows| ==> rows[index + 1].key != key))
    ensures first <= index <= last
    ensures forall i {:trigger rows[i]} :: 0 <= i < |rows| ==> (rows[i].key == key <==> first <= i <= last)
  {
    EqualIsBelow(key);
    forall i {:trigger rows[i]} | 0 <= i < |rows| && rows[i].key == key ensures first <= i <= last {
      if i < index { SameBetween(rows, i, index - 1, index); }
      if i > index { SameBetween(rows, index, index + 1, i); }
    }
    forall i {:trigger rows[i]} | 0 <= i < |rows| && first <= i <= last ensures rows[i].key == key {
      if i < index {
        assert !Below(rows[i], key, false);
        assert InTurn(rows, i, index);
      } else if i > index {
        assert Below(rows[i], key, true);
        assert InTurn(rows, index, i);
      }
    }
  }
}
