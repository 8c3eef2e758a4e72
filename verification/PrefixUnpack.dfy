/**
 Rebuilding packed rows whole: all of an encoded block, a cut at restarts, a cursor that walks on, and one
 that is asked for rows in any order. Each gives the very rows that were pushed.
 */
module PrefixUnpack {
  import opened ByteStrings
  import opened Common
  import opened Numbers
  import opened PackedRows
  import opened Prefix
  import opened PrefixSeek
  import opened PrefixReaders

  // ---- one row ----

  /** A reader that holds the row before this one, and stands where this one starts. */
  ghost predicate Holds(shape: Shape, packed: Bytes, rows: seq<Row>, starts: seq<int>, i: nat, at: nat, key: Bytes,
                        before: Tail) {
    && LaidOut(shape, packed, rows, starts) && i <= |rows| && at == starts[i]
    && (i > 0 && !IsRestart(i) ==> key == rows[i - 1].key && before == rows[i - 1].tail)
  }

  /** Read the next row whole, against the key and tail at hand; a restart stands for itself. */
  method NextRow(shape: Shape, packed: Bytes, restart: bool, at: nat, key: Bytes, before: Tail,
                 ghost rows: seq<Row>, ghost starts: seq<int>, ghost i: nat)
    returns (row: Option<Row>, next: nat)
    requires TailOk(shape, before)
    ensures row.Some? ==> at < next <= |packed| && TailOk(shape, row.value.tail)
    ensures Holds(shape, packed, rows, starts, i, at, key, before) && i < |rows| && restart == IsRestart(i) ==>
      row == Some(rows[i]) && next == starts[i + 1]
  {
    row, next := None, at;
    var piece := RowAt(shape, packed, at, if restart then Zero(shape) else before, rows, starts, i);
    if piece.Some? && piece.value.shared <= |key| && (restart ==> piece.value.shared == 0) {
      var whole := key[..piece.value.shared] + piece.value.suffix;
      row, next := Some(Row(whole, piece.value.tail)), piece.value.next;
    }
    if Holds(shape, packed, rows, starts, i, at, key, before) && i < |rows| && restart == IsRestart(i) {
      KeyRebuilt(rows, i);
    }
  }

  // ---- a cut at restarts ----

  /** Rebuild the rows of a cut that starts at a restart. */
  method UnpackBlock(bytes: Bytes, shape: Shape, ghost rows: seq<Row>) returns (r: Option<seq<Row>>)
    ensures RowsOk(shape, rows) && bytes == Packed(shape, rows) ==> r == Some(rows)
  {
    ghost var ok := RowsOk(shape, rows) && bytes == Packed(shape, rows);
    ghost var starts := if ok then StartsOf(shape, rows) else [];
    if ok { LaysOut(shape, bytes, rows); }
    r := UnpackLaid(bytes, shape, rows, starts);
  }

  method UnpackLaid(bytes: Bytes, shape: Shape, ghost rows: seq<Row>, ghost starts: seq<int>)
    returns (r: Option<seq<Row>>)
    ensures LaidOut(shape, bytes, rows, starts) ==> r == Some(rows)
  {
    var out: seq<Row>, key, before := [], [], Zero(shape);
    var at := 0;
    ghost var ok := LaidOut(shape, bytes, rows, starts);
    while at < |bytes|
      invariant 0 <= at && TailOk(shape, before)
      invariant ok ==>
        |out| <= |rows| && out == rows[..|out|] && Holds(shape, bytes, rows, starts, |out|, at, key, before)
      decreases |bytes| - at
    {
      assert ok ==> |out| < |rows|;
      var row, next := NextRow(shape, bytes, IsRestart(|out|), at, key, before, rows, starts, |out|);
      if row.None? {
        return None;
      }
      out, key, before, at := out + [row.value], row.value.key, row.value.tail, next;
    }
    assert ok ==> |out| == |rows| && rows[..|rows|] == rows;
    return Some(out);
  }

  /** Every run of whole restart blocks unpacks to its own rows. */
  lemma CutsUnpack(shape: Shape, rows: seq<Row>, from: nat, to: nat)
    requires RowsOk(shape, rows) && from <= to <= |rows| && IsRestart(from)
    ensures RowsOk(shape, rows[..to]) && RowsOk(shape, rows[from..to])
    ensures Off(shape, rows, from) <= Off(shape, rows, to) <= |Packed(shape, rows)|
    ensures Packed(shape, rows)[Off(shape, rows, from)..Off(shape, rows, to)] == Packed(shape, rows[from..to])
  {
    assert rows[..to][from..] == rows[from..to];
    CutUpTo(shape, rows, to);
    CutUpTo(shape, rows, from);
    CutAtRestart(shape, rows[..to], from);
    CutUpTo(shape, rows[..to], from);
    assert rows[..to][..from] == rows[..from];
  }

  /** The first rows pack to the first bytes. */
  lemma CutUpTo(shape: Shape, rows: seq<Row>, to: nat)
    requires RowsOk(shape, rows) && to <= |rows|
    ensures RowsOk(shape, rows[..to])
    ensures Flat(Pieces(shape, rows), to) == Packed(shape, rows[..to]) && Off(shape, rows, to) <= |Packed(shape, rows)|
    ensures Packed(shape, rows)[..Off(shape, rows, to)] == Packed(shape, rows[..to])
  {
    var some := rows[..to];
    forall i | 0 <= i < to
      ensures Pieces(shape, some)[i] == Pieces(shape, rows)[i]
    {
      assert PieceAt(shape, some, i) == PieceAt(shape, rows, i);
    }
    assert Pieces(shape, some) == Pieces(shape, rows)[..to];
    FlatSame(Pieces(shape, rows), Pieces(shape, some), to);
    FlatGrows(Pieces(shape, rows), to, |rows|);
  }

  // ---- a whole block ----

  function RestartsOf(shape: Shape, rows: seq<Row>): (r: seq<int>)
    requires RowsOk(shape, rows)
    ensures RestartsAt(shape, r, rows)
  {
    RestartCounts(|rows|);
    seq(RestartCount(|rows|), k requires 0 <= k < RestartCount(|rows|) => Off(shape, rows, RESTART_INTERVAL * k))
  }

  /** The block that pushing these rows builds. */
  function BlockOf(shape: Shape, rows: seq<Row>): (b: Block)
    requires RowsOk(shape, rows)
    ensures Framed(b) && Describes(b.shape, b.packed, b.restarts, b.count, rows)
  {
    var b := Block(shape, Packed(shape, rows), RestartsOf(shape, rows), |rows|);
    RestartsWithin(b, rows);
    b
  }

  lemma RestartsWithin(b: Block, rows: seq<Row>)
    requires Describes(b.shape, b.packed, b.restarts, b.count, rows)
    ensures Framed(b)
  {
    RestartCounts(|rows|);
    forall k | 0 <= k < |b.restarts| ensures 0 <= b.restarts[k] <= |b.packed| {
      OffGrows(b.shape, rows, RESTART_INTERVAL * k, |rows|);
    }
  }

  /** How many bytes a tail has outside the packing. */
  function TailLen(shape: Shape): nat {
    match shape
    case Entries => 17
    case Raw(width) => width
  }

  /** Whether every row is this wide, where a width is given. */
  predicate Strides(shape: Shape, rows: seq<Row>, rowLen: Option<nat>) {
    rowLen.Some? ==> forall i {:trigger rows[i]} :: 0 <= i < |rows| ==> |rows[i].key| + TailLen(shape) == rowLen.value
  }

  /** Rebuild an encoded block's rows, checking restarts, widths and the end. */
  method Unpack(bytes: Bytes, shape: Shape, rowLen: Option<nat>, ghost rows: seq<Row>) returns (r: Option<seq<Row>>)
    requires forall i :: 0 <= i < |bytes| ==> 0 <= bytes[i] < 0x100
    ensures RowsOk(shape, rows) && bytes == Encoded(BlockOf(shape, rows)) && Small(BlockOf(shape, rows)) ==>
      r == if Strides(shape, rows, rowLen) then Some(rows) else None
  {
    ghost var ok := RowsOk(shape, rows) && bytes == Encoded(BlockOf(shape, rows)) && Small(BlockOf(shape, rows));
    ghost var whole := if ok then BlockOf(shape, rows) else Block(shape, [], [], 0);
    ghost var starts := if ok then StartsOf(shape, rows) else [];
    if ok {
      EncodedParts(whole);
      Lays(whole, rows);
    }
    var b := Decode(bytes, shape, whole);
    if b.None? {
      return None;
    }
    r := UnpackDecoded(b.value, rowLen, rows, starts);
  }

  method UnpackDecoded(b: Block, rowLen: Option<nat>, ghost rows: seq<Row>, ghost starts: seq<int>)
    returns (r: Option<seq<Row>>)
    requires Framed(b)
    ensures Laid(b, rows, starts) && b.count == |rows| ==>
      r == if Strides(b.shape, rows, rowLen) then Some(rows) else None
  {
    var out: seq<Row>, key, before := [], [], Zero(b.shape);
    var at := 0;
    ghost var ok := Laid(b, rows, starts) && b.count == |rows|;
    for index := 0 to b.count
      invariant 0 <= at && TailOk(b.shape, before) && |out| == index
      invariant ok ==> out == rows[..index] && Holds(b.shape, b.packed, rows, starts, index, at, key, before)
      invariant ok ==> Strides(b.shape, rows[..index], rowLen)
    {
      var restart := IsRestart(index);
      if restart && b.restarts[index / RESTART_INTERVAL] != at {
        return None;
      }
      var row, next := NextRow(b.shape, b.packed, restart, at, key, before, rows, starts, index);
      if row.None? {
        return None;
      }
      if rowLen.Some? && |row.value.key| + TailLen(b.shape) != rowLen.value {
        return None;
      }
      out, key, before, at := out + [row.value], row.value.key, row.value.tail, next;
    }
    assert ok ==> rows[..|rows|] == rows;
    if at != |b.packed| {
      return None;
    }
    return Some(out);
  }

  // ---- cursors ----

  /** Goes through a block row by row, always with the current key in full. */
  class PrefixCursor {
    const rows: Block
    var at: nat
    var index: nat
    var key: Bytes
    var tail: Tail

    constructor (rows: Block)
      ensures this.rows == rows && at == 0 && index == 0 && key == [] && tail == Zero(rows.shape)
    {
      this.rows, at, index, key, tail := rows, 0, 0, [], Zero(rows.shape);
    }

    /** Whether the cursor has yielded so many of these rows and sits on the last of them. */
    ghost predicate Sits(held: seq<Row>, starts: seq<int>)
      reads this
    {
      && Laid(rows, held, starts) && rows.count == |held|
      && Holds(rows.shape, rows.packed, held, starts, index, at, key, tail)
    }

    /** Move to the next row; None is a corrupt one, and Some says whether there was one. */
    method Advance(ghost held: seq<Row>, ghost starts: seq<int>) returns (r: Option<bool>)
      requires TailOk(rows.shape, tail)
      modifies this
      ensures TailOk(rows.shape, tail)
      ensures old(Sits(held, starts)) ==>
        && Sits(held, starts) && r == Some(old(index) < |held|)
        && (if old(index) < |held|
          then index == old(index) + 1 && key == held[index - 1].key && tail == held[index - 1].tail
            else index == old(index))
    {
      if index >= rows.count {
        return Some(false);
      }
      var row, next := NextRow(rows.shape, rows.packed, IsRestart(index), at, key, tail, held, starts, index);
      if row.None? {
        return None;
      }
      key, tail, at, index := row.value.key, row.value.tail, next, index + 1;
      return Some(true);
    }
  }

  /** Reads rows where they lie, going on from the row it holds or from the row's restart. */
  class PackedCursor {
    const known: int -> bool    // the flag bytes a writer produces
    var row: Option<nat>
    var next: nat
    var key: Bytes
    var found: Tail

    constructor (known: int -> bool)
      ensures row == None && found == Zero(Entries) && this.known == known
    {
      this.known := known;
      row, next, key, found := None, 0, [], Zero(Entries);
    }

    ghost predicate AllKnown(held: seq<Row>) {
      forall i {:trigger held[i]} :: 0 <= i < |held| && held[i].tail.Entry? ==> known(held[i].tail.flags)
    }

    /** Whether the row the cursor says it holds is the one it holds. */
    ghost predicate Sits(b: Block, held: seq<Row>, starts: seq<int>)
      reads this
    {
      && Laid(b, held, starts) && b.shape.Entries? && AllKnown(held)
      && (row.Some? ==>
            && row.value < |held| && key == held[row.value].key && found == held[row.value].tail
            && next == starts[row.value + 1])
    }

    /** Go to the first row of a block, which stands for itself. */
    method Restart(b: Block, block: nat, ghost held: seq<Row>, ghost starts: seq<int>) returns (ok: bool)
      requires Framed(b) && block < |b.restarts|
      modifies this
      ensures ok ==> TailOk(Entries, found) && known(found.flags) && row == Some(RESTART_INTERVAL * block)
      ensures !ok ==> found == old(found)
      ensures Laid(b, held, starts) && b.shape.Entries? && AllKnown(held) ==> ok && Sits(b, held, starts)
    {
      var first := RESTART_INTERVAL * block;
      assert IsRestart(first);
      var got, after := NextRow(Entries, b.packed, true, b.restarts[block], [], Zero(Entries), held, starts, first);
      ok := got.Some? && known(got.value.tail.flags);
      if ok {
        row, key, found, next := Some(first), got.value.key, got.value.tail, after;
      }
    }

    /** Go to the next row of the block, reading it against the one at hand. */
    method Step(b: Block, ghost held: seq<Row>, ghost starts: seq<int>) returns (ok: bool)
      requires row.Some? && !IsRestart(row.value + 1) && TailOk(Entries, found)
      modifies this
      ensures ok ==> TailOk(Entries, found) && known(found.flags) && row == Some(old(row).value + 1)
      ensures !ok ==> found == old(found)
      ensures old(Sits(b, held, starts)) ==> Sits(b, held, starts) && (ok <==> old(row).value + 1 < |held|)
    {
      var got, after := NextRow(Entries, b.packed, false, next, key, found, held, starts, row.value + 1);
      ok := got.Some? && known(got.value.tail.flags);
      if ok {
        row, key, found, next := Some(row.value + 1), got.value.key, got.value.tail, after;
      }
    }

    /** The row at an index, or none past the last one, whatever was asked for before. */
    method Read(b: Block, index: nat, ghost held: seq<Row>, ghost starts: seq<int>) returns (r: Option<Row>)
      requires Framed(b) && TailOk(Entries, found)
      modifies this
      ensures TailOk(Entries, found)
      ensures old(Sits(b, held, starts)) ==>
        Sits(b, held, starts) && r == if index < |held| then Some(held[index]) else None
    {
      var block := index / RESTART_INTERVAL;
      if row.None? || row.value > index || row.value / RESTART_INTERVAL != block {
        if block >= |b.restarts| {
          return None;
        }
        var ok := Restart(b, block, held, starts);
        if !ok {
          return None;
        }
      }
      while row.value < index
        invariant TailOk(Entries, found) && row.Some? && row.value <= index && row.value / RESTART_INTERVAL == block
        invariant old(Sits(b, held, starts)) ==> Sits(b, held, starts)
        decreases index - row.value
      {
        var ok := Step(b, held, starts);
        if !ok {
          return None;
        }
      }
      return Some(Row(key, found));
    }
  }
}
