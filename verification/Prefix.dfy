/**
 Building a block of prefix-compressed rows. Pushing a row leaves just the bytes and restarts that packing the
 longer list from scratch would.
 */
module Prefix {
  import opened ByteStrings
  import opened KeyOrder
  import opened Numbers
  import opened PackedRows

  /** Rows in key order, equal keys beside each other. */
  predicate Ordered(rows: seq<Row>) {
    forall i, j {:trigger rows[i], rows[j]} :: 0 <= i < j < |rows| ==> !Before(rows[j].key, rows[i].key)
  }

  /** How many restarts so many rows have. */
  function RestartCount(n: nat): nat { (n + RESTART_INTERVAL - 1) / RESTART_INTERVAL }

  /** Where every sixteenth row starts. */
  ghost predicate RestartsAt(shape: Shape, restarts: seq<int>, rows: seq<Row>)
    requires RowsOk(shape, rows)
  {
    && |restarts| == RestartCount(|rows|)
    && forall b {:trigger restarts[b]} :: 0 <= b < |restarts| ==> restarts[b] == Off(shape, rows, RESTART_INTERVAL * b)
  }

  /** Whether these bytes and restarts are what these rows pack to. */
  ghost predicate Describes(shape: Shape, packed: Bytes, restarts: seq<int>, count: int, rows: seq<Row>) {
    RowsOk(shape, rows) && count == |rows| && packed == Packed(shape, rows) && RestartsAt(shape, restarts, rows)
  }

  // ---- appending ----

  lemma PiecesPush(shape: Shape, rows: seq<Row>, row: Row)
    requires RowsOk(shape, rows) && RowsOk(shape, rows + [row])
    ensures Pieces(shape, rows + [row])[..|rows|] == Pieces(shape, rows)
  {
    var more := rows + [row];
    var pieces, others := Pieces(shape, more), Pieces(shape, rows);
    forall i | 0 <= i < |rows|
      ensures pieces[i] == others[i]
    {
      assert PieceAt(shape, more, i) == PieceAt(shape, rows, i);
    }
  }

  /** One more row moves none. */
  lemma FlatPush(shape: Shape, rows: seq<Row>, row: Row, i: nat)
    requires RowsOk(shape, rows) && RowsOk(shape, rows + [row]) && i <= |rows|
    ensures Flat(Pieces(shape, rows + [row]), i) == Flat(Pieces(shape, rows), i)
    ensures Off(shape, rows + [row], i) == Off(shape, rows, i)
  {
    var pieces, others := Pieces(shape, rows + [row]), Pieces(shape, rows);
    PiecesPush(shape, rows, row);
    assert pieces[..i] == pieces[..|rows|][..i] == others[..i];
    FlatSame(pieces, others, i);
  }

  /** One more row adds its own bytes at the end. */
  lemma PackedPush(shape: Shape, rows: seq<Row>, row: Row, piece: Bytes)
    requires RowsOk(shape, rows) && RowsOk(shape, rows + [row]) && piece == PieceAt(shape, rows + [row], |rows|)
    ensures Packed(shape, rows + [row]) == Packed(shape, rows) + piece
  {
    var pieces := Pieces(shape, rows + [row]);
    assert pieces[|rows|] == piece;
    FlatLast(pieces, |rows|, piece);
    FlatPush(shape, rows, row, |rows|);
  }

  lemma RestartCounts(n: nat)
    ensures RestartCount(n + 1) == RestartCount(n) + (if IsRestart(n) then 1 else 0)
    ensures IsRestart(n) ==> RESTART_INTERVAL * RestartCount(n) == n
    ensures forall b :: 0 <= b < RestartCount(n) ==> RESTART_INTERVAL * b < n
  {}

  /** Places taken so far stand, and a restart row's is the end of the rows before it. */
  lemma PlacesPush(shape: Shape, restarts: seq<int>, rows: seq<Row>, row: Row, newer: seq<int>, n: nat)
    requires RowsOk(shape, rows) && RowsOk(shape, rows + [row]) && |restarts| == n
    requires forall b {:trigger restarts[b]} ::
      0 <= b < n ==> RESTART_INTERVAL * b <= |rows| && restarts[b] == Off(shape, rows, RESTART_INTERVAL * b)
    requires newer == restarts || (newer == restarts + [Off(shape, rows, |rows|)] && RESTART_INTERVAL * n == |rows|)
    ensures forall b {:trigger newer[b]} :: 0 <= b < |newer| ==>
      RESTART_INTERVAL * b <= |rows| && newer[b] == Off(shape, rows + [row], RESTART_INTERVAL * b)
  {
    forall b | 0 <= b < |newer|
      ensures RESTART_INTERVAL * b <= |rows| && newer[b] == Off(shape, rows + [row], RESTART_INTERVAL * b)
    {
      assert b < n ==> newer[b] == restarts[b];
      FlatPush(shape, rows, row, RESTART_INTERVAL * b);
    }
  }

  lemma RestartsPush(shape: Shape, restarts: seq<int>, rows: seq<Row>, row: Row, newer: seq<int>)
    requires RowsOk(shape, rows) && RowsOk(shape, rows + [row]) && RestartsAt(shape, restarts, rows)
    requires newer == if IsRestart(|rows|) then restarts + [Off(shape, rows, |rows|)] else restarts
    ensures RestartsAt(shape, newer, rows + [row])
  {
    RestartCounts(|rows|);
    PlacesPush(shape, restarts, rows, row, newer, |restarts|);
  }

  lemma RowsOkPush(shape: Shape, rows: seq<Row>, row: Row)
    requires RowsOk(shape, rows) && TailOk(shape, row.tail) && |row.key| < BITS_64
    ensures RowsOk(shape, rows + [row])
  {}

  lemma PieceOfPush(shape: Shape, rows: seq<Row>, row: Row, shared: nat, before: Tail)
    requires RowsOk(shape, rows) && RowsOk(shape, rows + [row]) && TailOk(shape, row.tail)
    requires shared == if IsRestart(|rows|) then 0 else Shared(rows[|rows| - 1].key, row.key)
    requires before == if IsRestart(|rows|) then Zero(shape) else rows[|rows| - 1].tail
    ensures shared <= |row.key| && TailOk(shape, before)
    ensures RowBytes(shape, shared, row, before) == PieceAt(shape, rows + [row], |rows|)
  {
    var more := rows + [row];
    assert more[|rows|] == row && (|rows| > 0 ==> more[|rows| - 1] == rows[|rows| - 1]);
  }

  lemma PushOrdered(rows: seq<Row>, row: Row)
    requires Ordered(rows) && (rows != [] ==> !Before(row.key, rows[|rows| - 1].key))
    ensures Ordered(rows + [row])
  {
    forall i | 0 <= i < |rows| ensures !Before(row.key, rows[i].key) {
      if i < |rows| - 1 { BeforeTrans(rows[i].key, rows[|rows| - 1].key, row.key); }
    }
  }

  /** A place below four gigabytes survives being cut to four bytes. */
  lemma Untruncated(x: nat)
    requires x < BITS_32
    ensures x % BITS_32 == x
  {}

  /** Rows as they lie, in order, with the last one at hand for the next. */
  ghost predicate Appends(shape: Shape, packed: Bytes, restarts: seq<int>, count: int, last: Bytes, lastTail: Tail,
                          held: seq<Row>) {
    var ok :=
      && Describes(shape, packed, restarts, count, held) && Ordered(held)
      && (count > 0 ==> last == held[count - 1].key && lastTail == held[count - 1].tail);
    ok
  }

  /** What one append makes of the fields. */
  lemma PushAppends(shape: Shape, packed: Bytes, restarts: seq<int>, count: nat, last: Bytes, lastTail: Tail,
                    held: seq<Row>, row: Row,
                    shared: nat, before: Tail, newer: seq<int>)
    requires Appends(shape, packed, restarts, count, last, lastTail, held)
    requires |packed| < BITS_32 && |row.key| < BITS_64 && TailOk(shape, row.tail)
    requires (count > 0 ==> !Before(row.key, last))
    requires before == if IsRestart(count) then Zero(shape) else lastTail
    requires shared == if IsRestart(count) then 0 else Shared(last, row.key)
    requires newer == if IsRestart(count) then restarts + [|packed| % BITS_32] else restarts
    ensures shared <= |row.key| && TailOk(shape, before)
    ensures Appends(shape, packed + RowBytes(shape, shared, row, before), newer, count + 1, row.key, row.tail,
      held + [row])
  {
    RowsOkPush(shape, held, row);
    PieceOfPush(shape, held, row, shared, before);
    PackedPush(shape, held, row, RowBytes(shape, shared, row, before));
    Untruncated(|packed|);
    RestartsPush(shape, restarts, held, row, newer);
    PushOrdered(held, row);
  }

  class PrefixRows {
    const shape: Shape
    var packed: Bytes
    var restarts: seq<int>
    var count: int
    var last: Bytes
    var lastTail: Tail
    ghost var held: seq<Row>

    ghost predicate Valid()
      reads this
    {
      Appends(shape, packed, restarts, count, last, lastTail, held)
    }

    constructor (shape: Shape)
      ensures Valid() && held == [] && this.shape == shape
    {
      this.shape, packed, restarts, count, last, lastTail, held := shape, [], [], 0, [], Zero(shape), [];
    }

    /** Append one row; one that sorts before the last, or whose tail is of another shape, is refused. */
    method Push(key: Bytes, tail: Tail) returns (ok: bool)
      requires Valid() && |key| < BITS_64 && |packed| < BITS_32
      modifies this
      ensures Valid()
      ensures ok <==> (old(held) == [] || !Before(key, old(held)[|old(held)| - 1].key)) && TailOk(shape, tail)
      ensures held == if ok then old(held) + [Row(key, tail)] else old(held)
    {
      if count > 0 && Before(key, last) {
        return false;
      }
      if !TailOk(shape, tail) {
        return false;
      }
      var restart := IsRestart(count);
      var before := if restart then Zero(shape) else lastTail;
      var shared := if restart then 0 else Shared(last, key);
      var newer := if restart then restarts + [|packed| % BITS_32] else restarts;
      PushAppends(shape, packed, restarts, count, last, lastTail, held, Row(key, tail), shared, before, newer);
      packed := packed + RowBytes(shape, shared, Row(key, tail), before);
      restarts, last, lastTail, count, held := newer, key, tail, count + 1, held + [Row(key, tail)];
      return true;
    }
  }
}
