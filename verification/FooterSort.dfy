/**
 Putting a footer partition's rows in order. Rows are compared by the eight bytes of their keys behind the
 prefix all keys share, as one number, and by key and sequence number only on a tie; the outcome is the order
 by key and sequence number all the same.
 */
module FooterSort {
  import opened ByteStrings
  import opened KeyOrder

  const HEAD_BYTES := 8

  datatype FooterRow = FooterRow(key: Bytes, lsn: int, offset: int)

  predicate IsBytes(b: Bytes) { forall i {:trigger b[i]} :: 0 <= i < |b| ==> 0 <= b[i] < 0x100 }

  predicate KeysOk(rows: seq<FooterRow>) { forall i {:trigger rows[i]} :: 0 <= i < |rows| ==> IsBytes(rows[i].key) }

  /** Rows ascend by key, and within one key from the oldest version to the newest. */
  predicate AtMost(a: FooterRow, b: FooterRow) { Before(a.key, b.key) || (a.key == b.key && a.lsn <= b.lsn) }

  predicate InTurn(rows: seq<FooterRow>, i: int, j: int) { 0 <= i < j < |rows| }

  ghost predicate InOrder(rows: seq<FooterRow>) {
    forall i, j {:trigger InTurn(rows, i, j)} :: InTurn(rows, i, j) ==> AtMost(rows[i], rows[j])
  }

  lemma AtMostTrans(a: FooterRow, b: FooterRow, c: FooterRow)
    requires AtMost(a, b) && AtMost(b, c)
    ensures AtMost(a, c)
  {
    Mirrored(a.key, b.key);
    Mirrored(b.key, c.key);
    EqualIsSame(a.key, b.key);
    EqualIsSame(b.key, c.key);
    BeforeTrans(a.key, b.key, c.key);
  }

  lemma AtMostTotal(a: FooterRow, b: FooterRow)
    ensures AtMost(a, b) || AtMost(b, a)
  {
    Mirrored(a.key, b.key);
    EqualIsSame(a.key, b.key);
  }

  // ---- rows that arrived in order ----

  /** Whether a row is past the one before it. */
  predicate Ascends(rows: seq<FooterRow>, i: int)
    requires 0 < i < |rows|
  {
    Before(rows[i - 1].key, rows[i].key) || (rows[i - 1].key == rows[i].key && rows[i - 1].lsn < rows[i].lsn)
  }

  /** Whether each row is past the one before it, which lets the sort be skipped. */
  method InKeyOrder(rows: seq<FooterRow>) returns (r: bool)
    ensures r ==> InOrder(rows)
    ensures r <==> forall i {:trigger Ascends(rows, i)} :: 0 < i < |rows| ==> Ascends(rows, i)
  {
    if rows == [] {
      return true;
    }
    for at := 1 to |rows|
      invariant InOrder(rows[..at])
      invariant forall i {:trigger Ascends(rows, i)} :: 0 < i < at ==> Ascends(rows, i)
    {
      var before, here := rows[at - 1], rows[at];
      var c := Compare(before.key, here.key);
      EqualIsSame(before.key, here.key);
      assert Ascends(rows, at) <==> c.Less? || (c.Equal? && before.lsn < here.lsn);
      if c.Greater? || (c.Equal? && before.lsn >= here.lsn) {
        return false;
      }
      OrderGrows(rows[..at], here);
      assert rows[..at + 1] == rows[..at] + [here];
    }
    assert rows[..|rows|] == rows;
    return true;
  }

  lemma OrderGrows(rows: seq<FooterRow>, row: FooterRow)
    requires InOrder(rows) && (rows != [] ==> AtMost(rows[|rows| - 1], row))
    ensures InOrder(rows + [row])
  {
    var last := |rows| - 1;
    forall i, j {:trigger InTurn(rows + [row], i, j)} | InTurn(rows + [row], i, j)
      ensures AtMost((rows + [row])[i], (rows + [row])[j])
    {
      if j <= last {
        assert InTurn(rows, i, j);
      } else if i < last {
        assert InTurn(rows, i, last);
        AtMostTrans(rows[i], rows[last], row);
      }
    }
  }

  // ---- heads ----

  /** A byte string as a number, the first byte the highest. */
  function Number(b: Bytes): int
    decreases |b|
  {
    if b == [] then 0 else Number(b[..|b| - 1]) * 0x100 + b[|b| - 1]
  }

  /** Strings of one length compare as their numbers do. */
  lemma {:induction false} NumberOrders(a: Bytes, b: Bytes)
    requires |a| == |b| && IsBytes(a) && IsBytes(b)
    ensures Number(a) == Number(b) <==> a == b
    ensures Number(a) < Number(b) ==> Before(a, b)
    decreases |a|
  {
    if a != [] {
      var n := |a| - 1;
      NumberOrders(a[..n], b[..n]);
      assert a == a[..n] + [a[n]] && b == b[..n] + [b[n]];
      if Number(a) < Number(b) {
        if a[..n] == b[..n] {
          SharedIs(a, b, n);
        } else {
          FrontDecides(a, b, n);
        }
      }
    }
  }

  lemma FrontDecides(a: Bytes, b: Bytes, n: nat)
    requires n <= |a| && n <= |b| && a[..n] != b[..n]
    ensures Compare(a, b) == Compare(a[..n], b[..n])
  {
    var m := Shared(a[..n], b[..n]);
    assert a[..n][..n] == a[..n] && b[..n][..n] == b[..n];
    assert m < n;
    assert a[..n][..m] == a[..m] && b[..n][..m] == b[..m];
    SharedIs(a, b, m);
  }

  /** The first bytes of a string, with zeros behind a shorter one. */
  function Padded(b: Bytes, n: nat): (p: Bytes)
    ensures |p| == n && forall i {:trigger p[i]} :: 0 <= i < n ==> p[i] == if i < |b| then b[i] else 0
  {
    seq(n, i requires 0 <= i < n => if i < |b| then b[i] else 0)
  }

  /** Padded fronts that differ decide as the strings do. */
  lemma PaddedOrders(a: Bytes, b: Bytes, n: nat)
    requires IsBytes(a) && IsBytes(b) && Before(Padded(a, n), Padded(b, n))
    ensures Before(a, b)
  {
    var p, q := Padded(a, n), Padded(b, n);
    var m := Shared(p, q);
    assert p[m] < q[m] && m < |b|;
    var k := if m < |a| then m else |a|;
    forall i | 0 <= i < k ensures a[i] == b[i] {
      assert p[i] == p[..m][i] && q[i] == q[..m][i];
    }
    assert a[..k] == b[..k];
    SharedIs(a, b, k);
  }

  function Head(key: Bytes, shared: nat): int
    requires shared <= |key|
  {
    Number(Padded(key[shared..], HEAD_BYTES))
  }

  /** Keys that share a prefix compare as their heads behind it do, where the heads differ. */
  lemma HeadDecides(a: Bytes, b: Bytes, shared: nat)
    requires IsBytes(a) && IsBytes(b) && shared <= |a| && shared <= |b| && a[..shared] == b[..shared]
    requires Head(a, shared) < Head(b, shared)
    ensures Before(a, b)
  {
    NumberOrders(Padded(a[shared..], HEAD_BYTES), Padded(b[shared..], HEAD_BYTES));
    PaddedOrders(a[shared..], b[shared..], HEAD_BYTES);
    CompareRest(a, b, shared);
  }

  /** The comparison the sort makes: heads first, then keys, then sequence numbers. */
  predicate HeadAtMost(a: FooterRow, b: FooterRow, shared: nat)
    requires shared <= |a.key| && shared <= |b.key|
  {
    Head(a.key, shared) < Head(b.key, shared) || (Head(a.key, shared) == Head(b.key, shared) && AtMost(a, b))
  }

  lemma HeadsAgree(a: FooterRow, b: FooterRow, shared: nat)
    requires IsBytes(a.key) && IsBytes(b.key) && shared <= |a.key| && shared <= |b.key|
    requires a.key[..shared] == b.key[..shared]
    ensures HeadAtMost(a, b, shared) <==> AtMost(a, b)
  {
    Mirrored(a.key, b.key);
    EqualIsSame(a.key, b.key);
    if Head(a.key, shared) < Head(b.key, shared) { HeadDecides(a.key, b.key, shared); }
    if Head(b.key, shared) < Head(a.key, shared) { HeadDecides(b.key, a.key, shared); }
  }

  // ---- the sort ----

  ghost predicate AllShare(rows: seq<FooterRow>, prefix: Bytes) {
    forall i {:trigger rows[i]} :: 0 <= i < |rows| ==> Starts(rows[i].key, prefix)
  }

  predicate Starts(key: Bytes, prefix: Bytes) { |prefix| <= |key| && key[..|prefix|] == prefix }

  lemma StartsLess(key: Bytes, prefix: Bytes, n: nat)
    requires Starts(key, prefix) && n <= |prefix|
    ensures Starts(key, prefix[..n])
  {
    assert key[..n] == key[..|prefix|][..n];
  }

  lemma ShareLess(rows: seq<FooterRow>, prefix: Bytes, n: nat)
    requires AllShare(rows, prefix) && n <= |prefix|
    ensures AllShare(rows, prefix[..n])
  {
    forall i {:trigger rows[i]} | 0 <= i < |rows| ensures Starts(rows[i].key, prefix[..n]) {
      StartsLess(rows[i].key, prefix, n);
    }
  }

  /** How many bytes every key has in common. */
  method SharedPrefix(rows: seq<FooterRow>) returns (shared: nat)
    ensures rows == [] ==> shared == 0
    ensures rows != [] ==> shared <= |rows[0].key| && AllShare(rows, rows[0].key[..shared])
    ensures rows != [] && shared < |rows[0].key| ==> !AllShare(rows, rows[0].key[..shared + 1])
  {
    if rows == [] {
      return 0;
    }
    var first := rows[0].key;
    shared := |first|;
    ghost var parted := 0;
    for at := 1 to |rows|
      invariant shared <= |first| && AllShare(rows[..at], first[..shared])
      invariant shared < |first| ==> 0 <= parted < |rows| && !Starts(rows[parted].key, first[..shared + 1])
    {
      if shared == 0 {
        return;
      }
      var agreed := Shared(first, rows[at].key);
      assert agreed < |first| ==> !Starts(rows[at].key, first[..agreed + 1]) by {
        assert agreed < |first| ==> first[..agreed + 1][agreed] == first[agreed];
        assert agreed < |rows[at].key| ==> rows[at].key[..agreed + 1][agreed] == rows[at].key[agreed];
      }
      var least := if shared <= agreed then shared else agreed;
      assert first[..shared][..least] == first[..least] == first[..agreed][..least];
      ShareLess(rows[..at], first[..shared], least);
      StartsLess(rows[at].key, first[..agreed], least);
      assert rows[..at + 1] == rows[..at] + [rows[at]];
      if agreed < shared { parted := at; }
      shared := least;
    }
    assert rows[..|rows|] == rows;
  }

  /** The comparison of two rows behind a prefix both keys start with. */
  method Precedes(a: FooterRow, b: FooterRow, shared: nat) returns (r: bool)
    requires IsBytes(a.key) && IsBytes(b.key) && shared <= |b.key| && Starts(a.key, b.key[..shared])
    ensures r ==> AtMost(a, b)
    ensures !r ==> AtMost(b, a)
  {
    r := HeadAtMost(a, b, shared);
    HeadsAgree(a, b, shared);
    AtMostTotal(a, b);
  }

  /** One row put where the head comparison has it, among rows in order. */
  method PutInOrder(sorted: seq<FooterRow>, row: FooterRow, shared: nat) returns (r: seq<FooterRow>)
    requires IsBytes(row.key) && KeysOk(sorted) && shared <= |row.key| && AllShare(sorted, row.key[..shared])
    requires InOrder(sorted)
    ensures InOrder(r) && multiset(r) == multiset(sorted) + multiset{row}
  {
    var at := |sorted|;
    while at > 0
      invariant 0 <= at <= |sorted|
      invariant forall i {:trigger sorted[i]} :: at <= i < |sorted| ==> AtMost(row, sorted[i])
    {
      var isBefore := Precedes(sorted[at - 1], row, shared);
      if isBefore { break; }
      at := at - 1;
    }
    r := sorted[..at] + [row] + sorted[at..];
    PlacedInOrder(sorted, row, at);
    PlacedKeepsAll(sorted, row, at);
  }

  lemma PlacedInOrder(sorted: seq<FooterRow>, row: FooterRow, at: nat)
    requires InOrder(sorted) && at <= |sorted| && (at > 0 ==> AtMost(sorted[at - 1], row))
    requires forall i {:trigger sorted[i]} :: at <= i < |sorted| ==> AtMost(row, sorted[i])
    ensures InOrder(sorted[..at] + [row] + sorted[at..])
  {
    var front, back := sorted[..at], sorted[at..];
    assert sorted == front + back;
    forall i | 0 <= i < at ensures AtMost(front[i], row) {
      if i < at - 1 {
        assert InTurn(sorted, i, at - 1);
        AtMostTrans(sorted[i], sorted[at - 1], row);
      }
    }
    OrderJoins(front, back, row);
  }

  lemma PlacedKeepsAll(sorted: seq<FooterRow>, row: FooterRow, at: nat)
    requires at <= |sorted|
    ensures multiset(sorted[..at] + [row] + sorted[at..]) == multiset(sorted) + multiset{row}
  {
    assert sorted == sorted[..at] + sorted[at..];
  }

  lemma OrderJoins(front: seq<FooterRow>, back: seq<FooterRow>, row: FooterRow)
    requires InOrder(front + back)
    requires forall i {:trigger front[i]} :: 0 <= i < |front| ==> AtMost(front[i], row)
    requires forall i {:trigger back[i]} :: 0 <= i < |back| ==> AtMost(row, back[i])
    ensures InOrder(front + [row] + back)
  {
    var r, n := front + [row] + back, |front|;
    forall i, j {:trigger InTurn(r, i, j)} | InTurn(r, i, j) ensures AtMost(r[i], r[j]) {
      if i != n && j != n {
        var k, l := if i < n then i else i - 1, if j < n then j else j - 1;
        assert InTurn(front + back, k, l);
        assert r[i] == (front + back)[k] && r[j] == (front + back)[l];
      } else if j == n {
        assert r[i] == front[i];
      } else {
        assert r[j] == back[j - n - 1];
      }
    }
  }

  lemma StillShare(rows: seq<FooterRow>, prefix: Bytes, sorted: seq<FooterRow>, at: nat)
    requires KeysOk(rows) && AllShare(rows, prefix) && at < |rows| && multiset(sorted) == multiset(rows[..at])
    ensures KeysOk(sorted) && AllShare(sorted, prefix) && Starts(rows[at].key, prefix)
  {
    forall i | 0 <= i < |sorted| ensures IsBytes(sorted[i].key) && Starts(sorted[i].key, prefix) {
      assert sorted[i] in multiset(rows[..at]);
      assert sorted[i] in rows[..at];
    }
  }

  /** What one segment lists for one column. */
  class FooterPartition {
    var rows: seq<FooterRow>

    constructor ()
      ensures rows == []
    {
      rows := [];
    }

    method Push(row: FooterRow)
      modifies this
      ensures rows == old(rows) + [row]
    {
      rows := rows + [row];
    }

    /** Leaves the same rows, ascending. */
    method Sort()
      requires KeysOk(rows)
      modifies this
      ensures InOrder(rows) && multiset(rows) == old(multiset(rows))
    {
      var isSorted := InKeyOrder(rows);
      if isSorted {
        return;
      }
      var shared := SharedPrefix(rows);
      var sorted: seq<FooterRow> := [];
      for at := 0 to |rows|
        invariant rows == old(rows)
        invariant InOrder(sorted) && multiset(sorted) == multiset(rows[..at])
      {
        StillShare(rows, rows[0].key[..shared], sorted, at);
        sorted := PutInOrder(sorted, rows[at], shared);
        assert rows[..at + 1] == rows[..at] + [rows[at]];
      }
      assert rows[..|rows|] == rows;
      rows := sorted;
    }
  }
}
