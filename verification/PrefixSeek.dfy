/**
 Seeking in prefix-compressed rows. The walk never rebuilds a key: it compares its target with suffixes,
 keeping how much of the target the last row matched, and still answers the first row at or past it.
 */
module PrefixSeek {
  import opened ByteStrings
  import opened Common
  import opened KeyOrder
  import opened Numbers
  import opened PackedRows
  import opened Prefix

  /** Packed rows as a seek sees them. */
  datatype Block = Block(shape: Shape, packed: Bytes, restarts: seq<int>, count: int)

  /** A block whose restarts match its row count and lie in its rows, as is checked when it is read. */
  predicate Framed(b: Block) {
    && 0 <= b.count && |b.restarts| == RestartCount(b.count)
    && forall i {:trigger b.restarts[i]} :: 0 <= i < |b.restarts| ==> 0 <= b.restarts[i] <= |b.packed|
  }

  ghost predicate HoldsRows(b: Block, rows: seq<Row>) {
    Describes(b.shape, b.packed, b.restarts, b.count, rows) && Ordered(rows)
  }

  /** What a seek answers: the first row at or past the target, or that there is none. */
  datatype Sought = Corrupt | Absent | At(index: int, tail: Tail)

  ghost predicate Answers(rows: seq<Row>, target: Bytes, r: Sought) {
    match r
    case Corrupt => false
    case Absent => forall i {:trigger rows[i]} :: 0 <= i < |rows| ==> Before(rows[i].key, target)
    case At(index, tail) =>
      && 0 <= index < |rows| && !Before(rows[index].key, target) && tail == rows[index].tail
      && forall i {:trigger rows[i]} :: 0 <= i < index ==> Before(rows[i].key, target)
  }

  // ---- comparing without rebuilding ----

  /** How the target compares with the row at hand, from what it shares with the row before and its suffix. */
  function Judge(target: Bytes, matched: nat, order: Ordering, shared: nat, suffix: Bytes): Ordering
    requires matched <= |target|
  {
    if shared > matched then order
    else if shared < matched then (if suffix == [] then Greater else CompareInts(target[shared], suffix[0]))
    else Compare(target[matched..], suffix)
  }

  /** How much of the target the row at hand matches. */
  function Matched(target: Bytes, matched: nat, shared: nat, suffix: Bytes): (n: nat)
    requires matched <= |target|
    ensures n <= |target|
  {
    if shared > matched then matched else if shared < matched then shared
      else shared + Shared(target[matched..], suffix)
  }

  /** The heart of the walk: the running comparison is the comparison of the whole keys. */
  lemma JudgeIsCompare(target: Bytes, prev: Bytes, key: Bytes, matched: nat, s: nat, suffix: Bytes)
    requires matched == Shared(target, prev) && Compare(target, prev).Greater? && !Before(key, prev)
    requires s == Shared(prev, key) && suffix == key[s..]
    ensures Judge(target, matched, Greater, s, suffix) == Compare(target, key)
    ensures Compare(target, key).Greater? ==> Matched(target, matched, s, suffix) == Shared(target, key)
  {
    if s > matched {
      SharedDecides(target, prev, key);
    } else if s < matched {
      // the row leaves the key before it while the target still agrees with that, so the row is past both
      Mirrored(target, prev);
      Mirrored(prev, key);
      SharedDecides(key, prev, target);
      Mirrored(target, key);
      assert prev[s] == prev[..matched][s] == target[..matched][s] == target[s];
      assert s < |key| && key[s..][0] == key[s];
    } else {
      assert target[..s] == prev[..s] == key[..s];
      CompareRest(target, key, s);
    }
  }

  /** A whole key is compared as it stands. */
  lemma JudgeWhole(target: Bytes, key: Bytes, suffix: Bytes)
    requires suffix == key[0..]
    ensures Judge(target, 0, Less, 0, suffix) == Compare(target, key)
    ensures Matched(target, 0, 0, suffix) == Shared(target, key)
  {
    assert target[0..] == target && key[0..] == key;
  }

  // ---- where the rows lie ----

  /** Whether these are the bytes of the rows, and this is where one of them starts. */
  ghost predicate StartOf(shape: Shape, packed: Bytes, rows: seq<Row>, starts: seq<int>, i: nat)
    requires RowsOk(shape, rows) && i <= |rows| && |starts| == |rows| + 1
  {
    packed == Packed(shape, rows) && starts[i] == Off(shape, rows, i)
  }

  /** Packed rows with the place of every row and of the end. */
  ghost predicate LaidOut(shape: Shape, packed: Bytes, rows: seq<Row>, starts: seq<int>) {
    && RowsOk(shape, rows) && |starts| == |rows| + 1 && starts[0] == 0 && starts[|rows|] == |packed|
    && (forall i, j {:trigger starts[i], starts[j]} :: 0 <= i < j <= |rows| ==> 0 <= starts[i] < starts[j])
    && (forall i {:trigger StartOf(shape, packed, rows, starts, i)} ::
      0 <= i <= |rows| ==> StartOf(shape, packed, rows, starts, i))
  }

  /** A block with the place of every row, its restarts among them. */
  ghost predicate Laid(b: Block, rows: seq<Row>, starts: seq<int>) {
    && LaidOut(b.shape, b.packed, rows, starts) && |b.restarts| == RestartCount(|rows|)
    && (forall k {:trigger b.restarts[k]} ::
      0 <= k < |b.restarts| ==> RESTART_INTERVAL * k < |rows| && b.restarts[k] == starts[RESTART_INTERVAL * k])
  }

  lemma {:induction false} OffGrows(shape: Shape, rows: seq<Row>, i: nat, j: nat)
    requires RowsOk(shape, rows) && i < j <= |rows|
    ensures Off(shape, rows, i) < Off(shape, rows, j)
    decreases j
  {
    OffStep(shape, rows, j - 1);
    if i < j - 1 { OffGrows(shape, rows, i, j - 1); }
  }

  lemma OffStep(shape: Shape, rows: seq<Row>, i: nat)
    requires RowsOk(shape, rows) && i < |rows|
    ensures Off(shape, rows, i) < Off(shape, rows, i + 1)
  {
    OffSteps(shape, rows, i);
  }

  ghost function StartsOf(shape: Shape, rows: seq<Row>): (s: seq<int>)
    requires RowsOk(shape, rows)
    ensures |s| == |rows| + 1 && forall i {:trigger s[i]} :: 0 <= i <= |rows| ==> s[i] == Off(shape, rows, i)
  {
    seq(|rows| + 1, i requires 0 <= i <= |rows| => Off(shape, rows, i))
  }

  lemma LaysOut(shape: Shape, packed: Bytes, rows: seq<Row>)
    requires RowsOk(shape, rows) && packed == Packed(shape, rows)
    ensures LaidOut(shape, packed, rows, StartsOf(shape, rows))
  {
    var starts := StartsOf(shape, rows);
    forall i, j | 0 <= i < j <= |rows| ensures 0 <= starts[i] < starts[j] { OffGrows(shape, rows, i, j); }
  }

  lemma Lays(b: Block, rows: seq<Row>)
    requires Describes(b.shape, b.packed, b.restarts, b.count, rows)
    ensures Laid(b, rows, StartsOf(b.shape, rows))
  {
    RestartCounts(|rows|);
    LaysOut(b.shape, b.packed, rows);
  }

  /** Read one row; where the bytes are what the rows pack to, that is the row that starts there. */
  method RowAt(shape: Shape, packed: Bytes, at: nat, before: Tail, ghost rows: seq<Row>, ghost starts: seq<int>,
               ghost i: nat)
    returns (row: Option<Piece>)
    requires TailOk(shape, before)
    ensures row.Some? ==> at < row.value.next <= |packed| && row.value.shared >= 0 && TailOk(shape, row.value.tail)
    ensures (LaidOut(shape, packed, rows, starts) && i < |rows| && at == starts[i]
             && before == BeforeAt(shape, rows, i)) ==>
      row == Some(Piece(SharedAt(rows, i), rows[i].key[SharedAt(rows, i)..], rows[i].tail, starts[i + 1]))
  {
    row := ReadRow(packed, at, shape, before);
    if LaidOut(shape, packed, rows, starts) && i < |rows| && at == starts[i] && before == BeforeAt(shape, rows, i) {
      assert StartOf(shape, packed, rows, starts, i) && StartOf(shape, packed, rows, starts, i + 1);
      ReadsAt(shape, rows, i);
    }
  }

  // ---- one block ----

  /** Where a walk stands after the rows up to `index`, all before the target. */
  ghost predicate Stands(rows: seq<Row>, shape: Shape, target: Bytes, from: nat, index: nat, matched: nat,
                         order: Ordering, before: Tail) {
    && from <= index <= |rows|
    && (if index == from then before == Zero(shape) && matched == 0 && order == Less
        else
          && before == rows[index - 1].tail && matched == Shared(target, rows[index - 1].key)
          && order == Greater && Compare(target, rows[index - 1].key).Greater?)
    && (forall i {:trigger rows[i]} :: 0 <= i < index ==> Before(rows[i].key, target))
  }

  /** The row a walk reads next is judged as its whole key would be. */
  lemma WalkJudges(rows: seq<Row>, shape: Shape, target: Bytes, from: nat, index: nat, matched: nat, order: Ordering,
                   before: Tail,
                   shared: nat, suffix: Bytes)
    requires Ordered(rows) && Stands(rows, shape, target, from, index, matched, order, before)
    requires IsRestart(from) && index < |rows| && index < from + RESTART_INTERVAL && matched <= |target|
    requires shared == SharedAt(rows, index) && suffix == rows[index].key[shared..]
    ensures Judge(target, matched, order, shared, suffix) == Compare(target, rows[index].key)
    ensures Compare(target, rows[index].key).Greater? ==>
      Matched(target, matched, shared, suffix) == Shared(target, rows[index].key)
  {
    RestartEvery(from, index);
    if index == from {
      JudgeWhole(target, rows[index].key, suffix);
    } else {
      JudgeIsCompare(target, rows[index - 1].key, rows[index].key, matched, shared, suffix);
    }
  }

  lemma RestartEvery(from: nat, index: nat)
    requires IsRestart(from) && from <= index < from + RESTART_INTERVAL
    ensures IsRestart(index) <==> index == from
  {}

  lemma WalkPasses(rows: seq<Row>, shape: Shape, target: Bytes, from: nat, index: nat, matched: nat, order: Ordering,
                   before: Tail)
    requires Stands(rows, shape, target, from, index, matched, order, before)
    requires index < |rows| && Compare(target, rows[index].key).Greater?
    ensures Stands(rows, shape, target, from, index + 1, Shared(target, rows[index].key), Greater, rows[index].tail)
  {
    Mirrored(target, rows[index].key);
  }

  /** What holds where a walk may start: all rows before the block are before the target. */
  ghost predicate MayWalk(b: Block, rows: seq<Row>, starts: seq<int>, target: Bytes, block: nat) {
    && Laid(b, rows, starts) && Ordered(rows) && block < |b.restarts|
    && forall i {:trigger rows[i]} :: 0 <= i < RESTART_INTERVAL * block && i < |rows| ==> Before(rows[i].key, target)
  }

  /** What a walk knows between two rows. */
  datatype State = State(at: nat, matched: nat, order: Ordering, before: Tail)

  /** A walk that stands before a row of its block, at the place where the row starts. */
  ghost predicate Halts(shape: Shape, packed: Bytes, rows: seq<Row>, starts: seq<int>, target: Bytes, from: nat,
                        index: nat, w: State) {
    && LaidOut(shape, packed, rows, starts) && Ordered(rows) && IsRestart(from)
    && Stands(rows, shape, target, from, index, w.matched, w.order, w.before) && w.at == starts[index]
  }

  /** Read and judge the next row: past the target or at it, or before it and passed. */
  method WalkRow(shape: Shape, packed: Bytes, target: Bytes, w: State, ghost rows: seq<Row>, ghost starts: seq<int>,
                 ghost from: nat, ghost index: nat)
    returns (row: Option<Piece>, past: bool, next: State)
    requires w.matched <= |target| && TailOk(shape, w.before)
    ensures row.Some? ==> w.at < next.at <= |packed| && next.matched <= |target| && TailOk(shape, next.before)
    ensures (Halts(shape, packed, rows, starts, target, from, index, w) && index < |rows|
             && index < from + RESTART_INTERVAL) ==>
      && row.Some? && row.value.tail == rows[index].tail && past == !Before(rows[index].key, target)
      && (!past ==> Halts(shape, packed, rows, starts, target, from, index + 1, next))
  {
    ghost var ok := Halts(shape, packed, rows, starts, target, from, index, w) && index < |rows|
      && index < from + RESTART_INTERVAL;
    if ok { RestartEvery(from, index); }
    row := RowAt(shape, packed, w.at, w.before, rows, starts, index);
    past, next := false, w;
    if row.Some? {
      if ok {
        WalkJudges(rows, shape, target, from, index, w.matched, w.order, w.before, row.value.shared, row.value.suffix);
        Mirrored(target, rows[index].key);
      }
      var cmp := Judge(target, w.matched, w.order, row.value.shared, row.value.suffix);
      past := !cmp.Greater?;
      if ok && !past { WalkPasses(rows, shape, target, from, index, w.matched, w.order, w.before); }
      next := State(row.value.next, Matched(target, w.matched, row.value.shared, row.value.suffix), cmp,
        row.value.tail);
    }
  }

  /** Where a block's rows end, as an index. */
  function BlockTo(b: Block, block: nat, n: nat): nat {
    if block + 1 < |b.restarts| then RESTART_INTERVAL * (block + 1) else n
  }

  lemma BlockSpans(b: Block, rows: seq<Row>, starts: seq<int>, block: nat)
    requires Laid(b, rows, starts) && block < |b.restarts|
    ensures var from, to := RESTART_INTERVAL * block, BlockTo(b, block, |rows|);
            && from < to <= |rows| && to <= from + RESTART_INTERVAL && b.restarts[block] == starts[from]
            && (if block + 1 < |b.restarts| then b.restarts[block + 1] else |b.packed|) == starts[to]
  {}

  /** A walk through all of a block's rows. */
  lemma WalkedAll(b: Block, rows: seq<Row>, starts: seq<int>, target: Bytes, block: nat, index: nat, w: State)
    requires MayWalk(b, rows, starts, target, block) && index <= BlockTo(b, block, |rows|) <= |rows|
    requires Halts(b.shape, b.packed, rows, starts, target, RESTART_INTERVAL * block, index, w)
    requires w.at >= starts[BlockTo(b, block, |rows|)]
    ensures block + 1 < |b.restarts| ==> MayWalk(b, rows, starts, target, block + 1)
    ensures block + 1 >= |b.restarts| ==> Answers(rows, target, Absent)
  {
    assert index == BlockTo(b, block, |rows|);
  }

  /** Within one block: where the target would go, or that it belongs behind all of it. */
  method WalkBlock(b: Block, block: nat, target: Bytes, ghost rows: seq<Row>, ghost starts: seq<int>)
    returns (r: Option<Sought>)
    requires Framed(b) && block < |b.restarts|
    ensures MayWalk(b, rows, starts, target, block) ==>
      if r.Some? then Answers(rows, target, r.value)
      else if block + 1 < |b.restarts| then MayWalk(b, rows, starts, target, block + 1)
      else Answers(rows, target, Absent)
  {
    var index := RESTART_INTERVAL * block;
    var end := if block + 1 < |b.restarts| then b.restarts[block + 1] else |b.packed|;
    var w := State(b.restarts[block], 0, Less, Zero(b.shape));
    ghost var from, to, ok := index, BlockTo(b, block, |rows|), MayWalk(b, rows, starts, target, block);
    assert IsRestart(from);
    if ok { BlockSpans(b, rows, starts, block); }
    while w.at < end
      invariant w.matched <= |target| && TailOk(b.shape, w.before) && from <= index
      invariant ok ==> index <= to && Halts(b.shape, b.packed, rows, starts, target, from, index, w)
      decreases |b.packed| - w.at
    {
      assert ok ==> index < to;
      var row, past, next := WalkRow(b.shape, b.packed, target, w, rows, starts, from, index);
      if row.None? {
        return Some(Corrupt);
      }
      if past {
        return Some(At(index, row.value.tail));
      }
      w, index := next, index + 1;
    }
    if ok { WalkedAll(b, rows, starts, target, block, index, w); }
    return None;
  }

  /**
   Where the target would go, given the block to start in; a target behind the whole block belongs at the start of
   the next.
   */
  method Walk(b: Block, block: nat, target: Bytes, ghost rows: seq<Row>, ghost starts: seq<int>) returns (r: Sought)
    requires Framed(b) && block < |b.restarts|
    ensures MayWalk(b, rows, starts, target, block) ==> Answers(rows, target, r)
    decreases |b.restarts| - block
  {
    var here := WalkBlock(b, block, target, rows, starts);
    if here.Some? {
      r := here.value;
    } else if block + 1 < |b.restarts| {
      r := Walk(b, block + 1, target, rows, starts);
    } else {
      r := Absent;
    }
  }

  // ---- the whole seek ----

  /** A restart's key, which must be stored in full. */
  method RestartKey(b: Block, restart: nat, ghost rows: seq<Row>, ghost starts: seq<int>) returns (key: Option<Bytes>)
    requires Framed(b) && restart < |b.restarts|
    ensures Laid(b, rows, starts) ==> key == Some(rows[RESTART_INTERVAL * restart].key)
  {
    ghost var i := RESTART_INTERVAL * restart;
    assert IsRestart(i);
    var row := RowAt(b.shape, b.packed, b.restarts[restart], Zero(b.shape), rows, starts, i);
    if row.None? || row.value.shared != 0 {
      return None;
    }
    assert Laid(b, rows, starts) ==> rows[i].key[0..] == rows[i].key;
    return Some(row.value.suffix);
  }

  /** Rows before one that is before the target are before it too. */
  lemma EarlierBefore(rows: seq<Row>, target: Bytes, at: nat)
    requires Ordered(rows) && at < |rows| && Before(rows[at].key, target)
    ensures forall i {:trigger rows[i]} :: 0 <= i <= at ==> Before(rows[i].key, target)
  {
    forall i | 0 <= i < at ensures Before(rows[i].key, target) {
      Mirrored(rows[at].key, target);
      BeforeTrans(rows[i].key, rows[at].key, target);
    }
  }

  /** Main result: the first row at or past a key, for every block of rows in order. */
  method Seek(b: Block, target: Bytes, ghost rows: seq<Row>) returns (r: Sought)
    requires Framed(b)
    ensures HoldsRows(b, rows) ==> Answers(rows, target, r)
  {
    if b.count == 0 {
      return Absent;
    }
    ghost var ok := HoldsRows(b, rows);
    ghost var starts := if ok then StartsOf(b.shape, rows) else [];
    if ok { Lays(b, rows); }
    r := SeekLaid(b, target, rows, starts);
  }

  method SeekLaid(b: Block, target: Bytes, ghost rows: seq<Row>, ghost starts: seq<int>) returns (r: Sought)
    requires Framed(b) && b.count > 0
    ensures Laid(b, rows, starts) && Ordered(rows) ==> Answers(rows, target, r)
  {
    ghost var ok := Laid(b, rows, starts) && Ordered(rows);
    // The walk starts from the last block that opens before the target
    var low, high := 0, |b.restarts|;
    while low < high
      invariant 0 <= low <= high <= |b.restarts|
      invariant ok && low > 0 ==> Before(rows[RESTART_INTERVAL * (low - 1)].key, target)
    {
      var mid := (low + high) / 2;
      var key := RestartKey(b, mid, rows, starts);
      if key.None? {
        return Corrupt;
      }
      if Before(key.value, target) {
        low := mid + 1;
      } else {
        high := mid;
      }
    }
    var block := if low > 0 then low - 1 else 0;
    if ok && low > 0 { EarlierBefore(rows, target, RESTART_INTERVAL * (low - 1)); }
    r := Walk(b, block, target, rows, starts);
  }

  /** Rows that were pushed one by one make a block every seek answers from. */
  lemma PushedRowsSeek(b: Block, last: Bytes, lastTail: Tail, held: seq<Row>)
    requires Appends(b.shape, b.packed, b.restarts, b.count, last, lastTail, held)
    ensures Framed(b) && HoldsRows(b, held)
  {
    RestartCounts(|held|);
    forall k | 0 <= k < |b.restarts| ensures 0 <= b.restarts[k] <= |b.packed| {
      OffGrows(b.shape, held, RESTART_INTERVAL * k, |held|);
    }
  }
}
