/**
 How a footer packs rows. Of a key only the end that sets it apart from its neighbour's is written, and of its numbers
 only how far they moved; every sixteenth row stands whole, so that reading can start there. What is written here is
 what every reader must get back.
 */
module PackedRows {
  import opened ByteStrings
  import opened Common
  import opened KeyOrder
  import opened Numbers

  const RESTART_INTERVAL := 16

  /** The two kinds of tail: a footer entry's four numbers, or so many bytes as they stand. */
  datatype Shape = Entries | Raw(width: nat)

  datatype Tail =
    | Entry(lsn: int, offset: int, len: int, flags: int)
    | RawTail(bytes: Bytes)

  datatype Row = Row(key: Bytes, tail: Tail)

  /** The numbers a tail of this shape can hold. */
  predicate TailOk(shape: Shape, t: Tail) {
    match shape
    case Entries => t.Entry? && 0 <= t.lsn < BITS_64 && 0 <= t.offset < BITS_32 && 0 <= t.len < BITS_32
    case Raw(width) => t.RawTail? && |t.bytes| == width
  }

  /** What the first row of a block is written against. */
  function Zero(shape: Shape): (t: Tail)
    ensures TailOk(shape, t)
  {
    match shape
    case Entries => Entry(0, 0, 0, 0)
    case Raw(width) => RawTail(seq(width, i => 0))
  }

  // ---- one tail ----

  function TailBytes(shape: Shape, t: Tail, before: Tail): Bytes
    requires TailOk(shape, t) && TailOk(shape, before)
  {
    match shape
    case Raw(_) => t.bytes
    case Entries =>
      [t.flags] + Varint(t.len) + Varint(Zigzag(t.offset - before.offset))
        + Varint(Zigzag(WrappingDiff(t.lsn, before.lsn)))
  }

  datatype Read<T> = Read(value: T, next: int)

  /** A tail read against the one before it; numbers out of range and truncated ones are refused. */
  function ReadTail(bytes: Bytes, at: int, shape: Shape, before: Tail): Option<Read<Tail>>
    requires 0 <= at && TailOk(shape, before)
  {
    match shape
    case Raw(width) =>
      if at + width > |bytes| then None else Some(Read(RawTail(bytes[at..at + width]), at + width))
    case Entries =>
      if at >= |bytes| then None
      else
        var len := ReadVarint(bytes, at + 1);
        if len.None? || len.value.value >= BITS_32 then None
        else
          var offset := ReadVarint(bytes, len.value.next);
          if offset.None? then None
          else
            var place := before.offset + Unzigzag(offset.value.value);
            if !(0 <= place < BITS_32) then None
            else
              var lsn := ReadVarint(bytes, offset.value.next);
              if lsn.None? then None
              else Some(Read(Entry(WrappingAdd(before.lsn, Unzigzag(lsn.value.value)), place, len.value.value,
                bytes[at]), lsn.value.next))
  }

  lemma ByteThenThree(bytes: Bytes, at: nat, f: int, a: Bytes, b: Bytes, c: Bytes)
    requires LiesAt(bytes, at, [f] + a + b + c)
    ensures bytes[at] == f && LiesAt(bytes, at + 1, a) && LiesAt(bytes, at + 1 + |a|, b)
    ensures LiesAt(bytes, at + 1 + |a| + |b|, c)
  {
    FourInTurn(bytes, at, [f], a, b, c);
    assert bytes[at] == bytes[at..at + 1][0];
  }

  lemma TwoReadBack(bytes: Bytes, at: nat, v: nat, w: nat, a: Bytes, b: Bytes)
    requires v < BITS_64 && w < BITS_64 && a == Varint(v) && b == Varint(w) && LiesAt(bytes, at, a)
    requires LiesAt(bytes, at + |a|, b)
    ensures ReadVarint(bytes, at) == Some(Number(v, at + |a|))
    ensures ReadVarint(bytes, at + |a|) == Some(Number(w, at + |a| + |b|))
  {
    ReadsBack(bytes, at, at + |a|, v);
    ReadsBack(bytes, at + |a|, at + |a| + |b|, w);
  }

  lemma ThreeReadBack(bytes: Bytes, at: nat, p: nat, q: nat, next: nat, v: nat, w: nat, x: nat)
    requires v < BITS_64 && w < BITS_64 && x < BITS_64
    requires LiesAt(bytes, at, Varint(v)) && p == at + |Varint(v)|
    requires LiesAt(bytes, p, Varint(w)) && q == p + |Varint(w)|
    requires LiesAt(bytes, q, Varint(x)) && next == q + |Varint(x)|
    ensures ReadVarint(bytes, at) == Some(Number(v, p))
    ensures ReadVarint(bytes, p) == Some(Number(w, q))
    ensures ReadVarint(bytes, q) == Some(Number(x, next))
  {
    ReadsBack(bytes, at, p, v);
    ReadsBack(bytes, p, q, w);
    ReadsBack(bytes, q, next, x);
  }

  /** Folded differences that lead from one tail to the next. */
  predicate Leads(t: Tail, before: Tail, place: nat, drawn: nat)
    requires t.Entry? && before.Entry?
  {
    && place < BITS_64 && drawn < BITS_64
    && before.offset + Unzigzag(place) == t.offset && WrappingAdd(before.lsn, Unzigzag(drawn)) == t.lsn
  }

  /** An entry's four numbers, read one behind the other. */
  lemma EntryReads(bytes: Bytes, at: nat, p: nat, q: nat, next: nat, t: Tail, before: Tail, place: nat, drawn: nat)
    requires TailOk(Entries, t) && TailOk(Entries, before) && Leads(t, before, place, drawn)
    requires at < |bytes| && bytes[at] == t.flags && ReadVarint(bytes, at + 1) == Some(Number(t.len, p))
    requires ReadVarint(bytes, p) == Some(Number(place, q)) && ReadVarint(bytes, q) == Some(Number(drawn, next))
    ensures ReadTail(bytes, at, Entries, before) == Some(Read(t, next))
  {}

  lemma EntryReadsBack(bytes: Bytes, at: nat, next: nat, t: Tail, before: Tail, place: nat, drawn: nat, a: Bytes,
                       b: Bytes, c: Bytes)
    requires TailOk(Entries, t) && TailOk(Entries, before) && Leads(t, before, place, drawn)
    requires a == Varint(t.len) && b == Varint(place) && c == Varint(drawn)
    requires LiesAt(bytes, at, [t.flags] + a + b + c) && next == at + 1 + |a| + |b| + |c|
    ensures ReadTail(bytes, at, Entries, before) == Some(Read(t, next))
  {
    var p, q := at + 1 + |a|, at + 1 + |a| + |b|;
    ByteThenThree(bytes, at, t.flags, a, b, c);
    ThreeReadBack(bytes, at + 1, p, q, next, t.len, place, drawn);
    EntryReads(bytes, at, p, q, next, t, before, place, drawn);
  }

  lemma TailReadsBack(bytes: Bytes, at: nat, next: nat, shape: Shape, t: Tail, before: Tail)
    requires TailOk(shape, t) && TailOk(shape, before) && LiesAt(bytes, at, TailBytes(shape, t, before))
    requires next == at + |TailBytes(shape, t, before)|
    ensures ReadTail(bytes, at, shape, before) == Some(Read(t, next))
  {
    if shape.Entries? {
      var place, drawn := Zigzag(t.offset - before.offset), Zigzag(WrappingDiff(t.lsn, before.lsn));
      EntryReadsBack(bytes, at, next, t, before, place, drawn, Varint(t.len), Varint(place), Varint(drawn));
    }
  }

  // ---- one row ----

  function RowBytes(shape: Shape, shared: nat, row: Row, before: Tail): (b: Bytes)
    requires shared <= |row.key| && TailOk(shape, row.tail) && TailOk(shape, before)
    ensures |b| > 0
  {
    Varint(shared) + Varint(|row.key| - shared) + row.key[shared..] + TailBytes(shape, row.tail, before)
  }

  /** A row as it is read: what it shares with the key before it, the rest of its key, and its tail whole. */
  datatype Piece = Piece(shared: int, suffix: Bytes, tail: Tail, next: int)

  function ReadRow(bytes: Bytes, at: int, shape: Shape, before: Tail): (r: Option<Piece>)
    requires 0 <= at && TailOk(shape, before)
    ensures r.Some? ==> at < r.value.next <= |bytes| && r.value.shared >= 0 && TailOk(shape, r.value.tail)
  {
    var shared := ReadVarint(bytes, at);
    if shared.None? then None
    else
      var len := ReadVarint(bytes, shared.value.next);
      if len.None? || len.value.next + len.value.value > |bytes| then None
      else
        var end := len.value.next + len.value.value;
        var tail := ReadTail(bytes, end, shape, before);
        if tail.None? then None
        else Some(Piece(shared.value.value, bytes[len.value.next..end], tail.value.value, tail.value.next))
  }

  /** A row's three parts, read one behind the other. */
  lemma RowReads(bytes: Bytes, at: nat, shape: Shape, before: Tail, shared: Number, len: Number, suffix: Bytes,
                 tail: Read<Tail>)
    requires TailOk(shape, before) && 0 < shared.next && 0 < len.next && ReadVarint(bytes, at) == Some(shared)
    requires ReadVarint(bytes, shared.next) == Some(len) && len.value == |suffix| && LiesAt(bytes, len.next, suffix)
    requires ReadTail(bytes, len.next + len.value, shape, before) == Some(tail)
    ensures ReadRow(bytes, at, shape, before) == Some(Piece(shared.value, suffix, tail.value, tail.next))
  {}

  lemma PartsReadBack(bytes: Bytes, at: nat, next: nat, shape: Shape, row: Row, before: Tail, shared: nat, a: Bytes,
                      b: Bytes, suffix: Bytes, t: Bytes)
    requires shared <= |row.key| < BITS_64 && TailOk(shape, row.tail) && TailOk(shape, before)
    requires LiesAt(bytes, at, a + b + suffix + t) && a == Varint(shared) && b == Varint(|row.key| - shared)
    requires suffix == row.key[shared..] && t == TailBytes(shape, row.tail, before) && next == at + |a + b + suffix + t|
    ensures ReadRow(bytes, at, shape, before) == Some(Piece(shared, suffix, row.tail, next))
  {
    FourInTurn(bytes, at, a, b, suffix, t);
    TwoReadBack(bytes, at, shared, |row.key| - shared, a, b);
    TailReadsBack(bytes, at + |a| + |b| + |suffix|, next, shape, row.tail, before);
    RowReads(bytes, at, shape, before, Number(shared, at + |a|), Number(|suffix|, at + |a| + |b|), suffix,
             Read(row.tail, next));
  }

  /** A row reads back from wherever it lies. */
  lemma RowReadsBack(bytes: Bytes, at: nat, next: nat, shape: Shape, shared: nat, row: Row, before: Tail, b: Bytes)
    requires shared <= |row.key| < BITS_64 && TailOk(shape, row.tail) && TailOk(shape, before)
    requires LiesAt(bytes, at, b) && b == RowBytes(shape, shared, row, before) && next == at + |b|
    ensures ReadRow(bytes, at, shape, before) == Some(Piece(shared, row.key[shared..], row.tail, next))
  {
    PartsReadBack(bytes, at, next, shape, row, before, shared, Varint(shared), Varint(|row.key| - shared),
      row.key[shared..],
                  TailBytes(shape, row.tail, before));
  }

  // ---- a column's rows ----

  predicate RowsOk(shape: Shape, rows: seq<Row>) {
    forall i {:trigger rows[i]} :: 0 <= i < |rows| ==> TailOk(shape, rows[i].tail) && |rows[i].key| < BITS_64
  }

  predicate IsRestart(i: int) { i % RESTART_INTERVAL == 0 }

  function SharedAt(rows: seq<Row>, i: nat): (n: nat)
    requires i < |rows|
    ensures n <= |rows[i].key|
  {
    if IsRestart(i) then 0 else Shared(rows[i - 1].key, rows[i].key)
  }

  function BeforeAt(shape: Shape, rows: seq<Row>, i: nat): (t: Tail)
    requires RowsOk(shape, rows) && i <= |rows|
    ensures TailOk(shape, t)
  {
    if IsRestart(i) then Zero(shape) else rows[i - 1].tail
  }

  /** One row's bytes among the others. */
  function PieceAt(shape: Shape, rows: seq<Row>, i: nat): (b: Bytes)
    requires RowsOk(shape, rows) && i < |rows|
    ensures |b| > 0
  {
    RowBytes(shape, SharedAt(rows, i), rows[i], BeforeAt(shape, rows, i))
  }

  function Pieces(shape: Shape, rows: seq<Row>): (p: seq<Bytes>)
    requires RowsOk(shape, rows)
    ensures |p| == |rows| && forall i {:trigger p[i]} :: 0 <= i < |rows| ==> p[i] == PieceAt(shape, rows, i)
  {
    seq(|rows|, i requires 0 <= i < |rows| => PieceAt(shape, rows, i))
  }

  /** The bytes of all the rows. */
  function Packed(shape: Shape, rows: seq<Row>): Bytes
    requires RowsOk(shape, rows)
  {
    Flat(Pieces(shape, rows), |rows|)
  }

  /** Where a row starts. */
  function Off(shape: Shape, rows: seq<Row>, i: nat): nat
    requires RowsOk(shape, rows) && i <= |rows|
  {
    |Flat(Pieces(shape, rows), i)|
  }

  lemma OffSteps(shape: Shape, rows: seq<Row>, i: nat)
    requires RowsOk(shape, rows) && i < |rows|
    ensures Off(shape, rows, i) < Off(shape, rows, i + 1) == Off(shape, rows, i)
      + |PieceAt(shape, rows, i)| <= |Packed(shape, rows)|
  {
    PieceLies(Pieces(shape, rows), i);
    FlatGrows(Pieces(shape, rows), i + 1, |rows|);
  }

  lemma PieceReadsBack(bytes: Bytes, at: nat, next: nat, shape: Shape, rows: seq<Row>, i: nat)
    requires RowsOk(shape, rows) && i < |rows| && LiesAt(bytes, at, PieceAt(shape, rows, i))
    requires next == at + |PieceAt(shape, rows, i)|
    ensures ReadRow(bytes, at, shape, BeforeAt(shape, rows, i))
         == Some(Piece(SharedAt(rows, i), rows[i].key[SharedAt(rows, i)..], rows[i].tail, next))
  {
    RowReadsBack(bytes, at, next, shape, SharedAt(rows, i), rows[i], BeforeAt(shape, rows, i), PieceAt(shape, rows, i));
  }

  /** Every row reads back from where it starts, against the row before it. */
  lemma ReadsAt(shape: Shape, rows: seq<Row>, i: nat)
    requires RowsOk(shape, rows) && i < |rows|
    ensures ReadRow(Packed(shape, rows), Off(shape, rows, i), shape, BeforeAt(shape, rows, i))
         == Some(Piece(SharedAt(rows, i), rows[i].key[SharedAt(rows, i)..], rows[i].tail, Off(shape, rows, i + 1)))
  {
    OffSteps(shape, rows, i);
    PieceLies(Pieces(shape, rows), i);
    PieceReadsBack(Packed(shape, rows), Off(shape, rows, i), Off(shape, rows, i + 1), shape, rows, i);
  }

  /** A row's key is what it shares with the one before it, and its rest. */
  lemma KeyRebuilt(rows: seq<Row>, i: nat)
    requires i < |rows|
    ensures (if IsRestart(i) then [] else rows[i - 1].key[..SharedAt(rows, i)]) + rows[i].key[SharedAt(rows, i)..] ==
      rows[i].key
  {
    if !IsRestart(i) { assert rows[i - 1].key[..SharedAt(rows, i)] == rows[i].key[..SharedAt(rows, i)]; }
  }

  lemma PiecesMove(shape: Shape, rows: seq<Row>, from: nat)
    requires RowsOk(shape, rows) && from <= |rows| && IsRestart(from) && RowsOk(shape, rows[from..])
    ensures Pieces(shape, rows)[from..] == Pieces(shape, rows[from..])
  {
    var some, others := Pieces(shape, rows)[from..], Pieces(shape, rows[from..]);
    assert |some| == |others|;
    forall i | 0 <= i < |some| ensures some[i] == others[i] { PieceMoves(shape, rows, from, i); }
  }

  /** What follows a restart does not depend on what came before it. */
  lemma CutAtRestart(shape: Shape, rows: seq<Row>, from: nat)
    requires RowsOk(shape, rows) && from <= |rows| && IsRestart(from) && RowsOk(shape, rows[from..])
    ensures Packed(shape, rows) == Flat(Pieces(shape, rows), from) + Packed(shape, rows[from..])
  {
    PiecesMove(shape, rows, from);
    FlatCut(Pieces(shape, rows), from, |rows|);
  }

  lemma PieceMoves(shape: Shape, rows: seq<Row>, from: nat, i: nat)
    requires RowsOk(shape, rows) && from + i < |rows| && IsRestart(from) && RowsOk(shape, rows[from..])
    ensures PieceAt(shape, rows[from..], i) == PieceAt(shape, rows, from + i)
  {
    var rest := rows[from..];
    assert rest[i] == rows[from + i] && (i > 0 ==> rest[i - 1] == rows[from + i - 1]);
    assert IsRestart(i) <==> IsRestart(from + i);
  }
}
