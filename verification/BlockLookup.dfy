/**
 Looking a key up in a sealed column block by block: the filter first, then a bisection over the blocks' first
 keys, then the one block the key can be in. A block may be gone with its segment, which reads as a miss.
 */
module BlockLookup {
  import opened ByteStrings
  import opened Common
  import opened FooterSort
  import opened FooterLookup
  import KeyFilter

  /** Where the rows are cut into blocks, none of them empty. */
  ghost predicate Cut(rows: seq<FooterRow>, cuts: seq<int>) {
    |cuts| > 0 && cuts[0] == 0 && cuts[|cuts| - 1] == |rows|
    && forall b {:trigger IsBlock(cuts, b)} :: IsBlock(cuts, b) ==> 0 <= cuts[b] < cuts[b + 1] <= |rows|
  }

  predicate IsBlock(cuts: seq<int>, b: int) { 0 <= b < |cuts| - 1 }

  /** The first row of each block of a span of rows, and one past the last row. */
  function EvenCuts(rows: nat, per: nat): (cuts: seq<int>)
    requires per > 0
    ensures |cuts| == (rows + per - 1) / per + 1
    ensures forall i {:trigger cuts[i]} :: 0 <= i < |cuts| ==> cuts[i] == if i * per < rows then i * per else rows
  {
    seq((rows + per - 1) / per + 1, i => if i * per < rows then i * per else rows)
  }

  lemma CeilDiv(n: nat, per: nat, blocks: int)
    requires per > 0 && blocks == (n + per - 1) / per
    ensures 0 <= blocks && n <= blocks * per < n + per
  {
  }

  lemma BlockFits(n: nat, per: nat, blocks: nat, b: nat)
    requires n <= blocks * per < n + per && b < blocks
    ensures 0 <= b * per < n && (b + 1) * per == b * per + per
  {
    assert (blocks - b - 1) * per >= 0;
  }

  lemma EvenCutsCut(rows: seq<FooterRow>, per: nat)
    requires per > 0
    ensures Cut(rows, EvenCuts(|rows|, per))
  {
    var n := |rows|;
    var cuts, blocks := EvenCuts(n, per), (n + per - 1) / per;
    CeilDiv(n, per, blocks);
    forall b {:trigger IsBlock(cuts, b)} | IsBlock(cuts, b) ensures 0 <= cuts[b] < cuts[b + 1] <= n {
      BlockFits(n, per, blocks, b);
    }
  }

  function Block(rows: seq<FooterRow>, cuts: seq<int>, b: int): seq<FooterRow>
    requires Cut(rows, cuts) && IsBlock(cuts, b)
  {
    rows[cuts[b]..cuts[b + 1]]
  }

  /** Whether every block can still be read. */
  ghost predicate AllRead(cuts: seq<int>, readable: set<int>) {
    forall b {:trigger IsBlock(cuts, b)} :: IsBlock(cuts, b) ==> b in readable
  }

  ghost predicate StartsAtOrBelow(rows: seq<FooterRow>, cuts: seq<int>, b: int, key: Bytes)
    requires Cut(rows, cuts) && IsBlock(cuts, b)
  {
    Below(rows[cuts[b]], key, true)
  }

  method OpensBelow(rows: seq<FooterRow>, cuts: seq<int>, b: int, key: Bytes) returns (r: bool)
    requires Cut(rows, cuts) && IsBlock(cuts, b)
    ensures r <==> StartsAtOrBelow(rows, cuts, b, key)
  {
    r := Below(rows[cuts[b]], key, true);
  }

  /**
   Where bisection by opening keys ends up: the last block that does not open past the key. Nothing if all do, or one
   could not be read.
   */
  method Landing(rows: seq<FooterRow>, cuts: seq<int>, readable: set<int>, key: Bytes) returns (r: Option<int>)
    requires Cut(rows, cuts)
    ensures r.Some? ==> IsBlock(cuts, r.value) && StartsAtOrBelow(rows, cuts, r.value, key)
    ensures r.Some? && IsBlock(cuts, r.value + 1) ==> !StartsAtOrBelow(rows, cuts, r.value + 1, key)
    ensures r.None? && AllRead(cuts, readable) ==> !IsBlock(cuts, 0) || !StartsAtOrBelow(rows, cuts, 0, key)
  {
    var blocks := |cuts| - 1;
    var low, high := 0, blocks;
    while low < high
      invariant 0 <= low <= high <= blocks
      invariant low > 0 ==> IsBlock(cuts, low - 1) && StartsAtOrBelow(rows, cuts, low - 1, key)
      invariant high < blocks ==> IsBlock(cuts, high) && !StartsAtOrBelow(rows, cuts, high, key)
    {
      var mid := low + (high - low) / 2;
      assert IsBlock(cuts, mid);
      if mid !in readable {
        return None;
      }
      var isBelow := OpensBelow(rows, cuts, mid, key);
      if isBelow {
        low := mid + 1;
      } else {
        high := mid;
      }
    }
    return if low > 0 then Some(low - 1) else None;
  }

  /** The key's upper bound among all rows lies in the block it lands on. */
  lemma LandedBound(rows: seq<FooterRow>, cuts: seq<int>, key: Bytes, b: int, at: nat)
    requires InOrder(rows) && Cut(rows, cuts) && IsBlock(cuts, b) && StartsAtOrBelow(rows, cuts, b, key)
    requires IsBlock(cuts, b + 1) ==> !StartsAtOrBelow(rows, cuts, b + 1, key)
    requires at <= |Block(rows, cuts, b)| && SplitAt(Block(rows, cuts, b), key, true, 0, at, |Block(rows, cuts, b)|)
    ensures 0 < at && SplitAt(rows, key, true, 0, cuts[b] + at, |rows|)
  {
    var block, first := Block(rows, cuts, b), cuts[b];
    assert block[0] == rows[first];
    BelowAround(rows, key, true, first);
    if IsBlock(cuts, b + 1) { BelowAround(rows, key, true, cuts[b + 1]); }
    forall i {:trigger rows[i]} | 0 <= i < |rows| ensures Below(rows[i], key, true) <==> i < first + at {
      if first <= i < cuts[b + 1] { assert rows[i] == block[i - first]; }
    }
  }

  lemma NoneAtOrBelow(rows: seq<FooterRow>, cuts: seq<int>, key: Bytes)
    requires InOrder(rows) && Cut(rows, cuts) && (!IsBlock(cuts, 0) || !StartsAtOrBelow(rows, cuts, 0, key))
    ensures Absent(rows, key)
  {
    EqualIsBelow(key);
    if IsBlock(cuts, 0) { BelowAround(rows, key, true, 0); }
  }

  lemma BlockInOrder(rows: seq<FooterRow>, cuts: seq<int>, b: int)
    requires InOrder(rows) && Cut(rows, cuts) && IsBlock(cuts, b)
    ensures InOrder(Block(rows, cuts, b)) && |Block(rows, cuts, b)| == cuts[b + 1] - cuts[b] > 0
  {
    var block, first := Block(rows, cuts, b), cuts[b];
    forall i, j {:trigger InTurn(block, i, j)} | InTurn(block, i, j) ensures AtMost(block[i], block[j]) {
      assert InTurn(rows, first + i, first + j);
    }
  }

  ghost predicate NewestIs(rows: seq<FooterRow>, key: Bytes, row: FooterRow) {
    exists at :: IsNewest(rows, key, at) && rows[at] == row
  }

  /** What the block a key lands on holds under the key's bound is the key's newest row, or the key has none. */
  lemma BlockAnswers(rows: seq<FooterRow>, cuts: seq<int>, key: Bytes, b: int, block: seq<FooterRow>, at: nat)
    requires InOrder(rows) && Cut(rows, cuts) && IsBlock(cuts, b) && StartsAtOrBelow(rows, cuts, b, key)
    requires IsBlock(cuts, b + 1) ==> !StartsAtOrBelow(rows, cuts, b + 1, key)
    requires block == Block(rows, cuts, b) && at <= |block| && SplitAt(block, key, true, 0, at, |block|)
    ensures at > 0
    ensures block[at - 1].key == key ==> NewestIs(rows, key, block[at - 1])
    ensures block[at - 1].key != key ==> Absent(rows, key)
  {
    LandedBound(rows, cuts, key, b, at);
    UnderBound(rows, key, cuts[b] + at);
    assert block[at - 1] == rows[cuts[b] + at - 1];
  }

  /** The newest row of a key, by way of the one block it can be in. */
  method FindInSpan(rows: seq<FooterRow>, cuts: seq<int>, readable: set<int>, key: Bytes) returns (r: Option<FooterRow>)
    requires InOrder(rows) && Cut(rows, cuts)
    ensures r.Some? ==> NewestIs(rows, key, r.value)
    ensures r.None? && AllRead(cuts, readable) ==> Absent(rows, key)
  {
    var landed := Landing(rows, cuts, readable, key);
    if landed.None? {
      if AllRead(cuts, readable) { NoneAtOrBelow(rows, cuts, key); }
      return None;
    }
    var b := landed.value;
    if b !in readable {
      return None;
    }
    var block := Block(rows, cuts, b);
    BlockInOrder(rows, cuts, b);
    var at := BoundWithin(block, key, 0, |block|, true);
    BlockAnswers(rows, cuts, key, b, block, at);
    if block[at - 1].key != key {
      return None;
    }
    return Some(block[at - 1]);
  }

  /** A filter over every key of the rows, if there is one. */
  ghost predicate Covers(filter: Option<KeyFilter.Filter>, hash: KeyFilter.Hash, rows: seq<FooterRow>) {
    filter.Some? ==>
      (filter.value.probes >= 0
       && forall i {:trigger rows[i]} :: 0 <= i < |rows| ==> !KeyFilter.RulesOut(filter.value, hash, rows[i].key))
  }

  /** A filter built over the rows' keys covers them. */
  lemma BuiltCovers(filter: KeyFilter.Filter, hash: KeyFilter.Hash, rows: seq<FooterRow>, keys: seq<Bytes>)
    requires |keys| == |rows| && forall i {:trigger rows[i]} :: 0 <= i < |rows| ==> keys[i] == rows[i].key
    requires KeyFilter.BuiltOver(filter, hash, keys)
    ensures Covers(Some(filter), hash, rows)
  {
    forall i {:trigger rows[i]} | 0 <= i < |rows| ensures !KeyFilter.RulesOut(filter, hash, rows[i].key) {
      KeyFilter.BuiltNeverRulesOut(filter, hash, keys, i);
    }
  }

  method AskFilter(ghost rows: seq<FooterRow>, filter: Option<KeyFilter.Filter>, hash: KeyFilter.Hash, key: Bytes)
    returns (r: bool)
    requires Covers(filter, hash, rows)
    ensures r <==> filter.Some? && KeyFilter.RulesOut(filter.value, hash, key)
    ensures r ==> Absent(rows, key)
  {
    if filter.None? {
      return false;
    }
    var mayHold := KeyFilter.MayHold(filter.value, hash, key);
    return !mayHold;
  }

  /** The filter decides first; only a key it does not rule out is searched for. */
  method LookupInSpan(rows: seq<FooterRow>, cuts: seq<int>, readable: set<int>, filter: Option<KeyFilter.Filter>,
                      hash: KeyFilter.Hash, key: Bytes) returns (r: FooterFind)
    requires InOrder(rows) && Cut(rows, cuts) && Covers(filter, hash, rows)
    ensures r.Found? ==> NewestIs(rows, key, r.row)
    ensures r.RuledOut? ==> Absent(rows, key)
    ensures r.Missing? && AllRead(cuts, readable) ==> Absent(rows, key)
    ensures r.RuledOut? <==> filter.Some? && KeyFilter.RulesOut(filter.value, hash, key)
  {
    var isOut := AskFilter(rows, filter, hash, key);
    if isOut {
      return RuledOut;
    }
    var found := FindInSpan(rows, cuts, readable, key);
    return if found.Some? then Found(found.value) else Missing;
  }

  // ---- a row by key and offset ----

  /** No row of the key from a place on is at the offset. */
  ghost predicate NotFrom(rows: seq<FooterRow>, key: Bytes, offset: int, from: int) {
    forall i {:trigger rows[i]} :: 0 <= i < |rows| && from <= i && rows[i].key == key ==> rows[i].offset != offset
  }

  /** A place in a walk back: no row at the offset behind it, and the key's rows before it, if any, end at it. */
  ghost predicate Walked(rows: seq<FooterRow>, key: Bytes, offset: int, at: int) {
    0 <= at <= |rows| && NotFrom(rows, key, offset, at)
    && (at > 0 && rows[at - 1].key != key ==> forall i {:trigger rows[i]} :: 0 <= i < at ==> rows[i].key != key)
  }

  lemma WalkStarts(rows: seq<FooterRow>, key: Bytes, offset: int, at: nat)
    requires InOrder(rows) && at <= |rows| && SplitAt(rows, key, true, 0, at, |rows|)
    ensures Walked(rows, key, offset, at)
  {
    UnderBound(rows, key, at);
  }

  lemma WalkSteps(rows: seq<FooterRow>, key: Bytes, offset: int, at: int)
    requires InOrder(rows) && 0 < at && Walked(rows, key, offset, at)
    ensures rows[at - 1].key == key && rows[at - 1].offset != offset ==> Walked(rows, key, offset, at - 1)
    ensures rows[at - 1].key != key ==> NotFrom(rows, key, offset, 0)
  {
    if rows[at - 1].key == key {
      forall i | 0 <= i < at - 1 && rows[i].key == key ensures rows[at - 2].key == key {
        SameBetween(rows, i, at - 2, at - 1);
      }
    }
  }

  lemma WalkRow(rows: seq<FooterRow>, first: nat, block: seq<FooterRow>, row: nat, key: Bytes, offset: int)
    requires InOrder(rows) && first + |block| <= |rows| && block == rows[first..first + |block|]
    requires row < |block| && Walked(rows, key, offset, first + row + 1)
    ensures block[row] in rows && block[row] == rows[first + row]
    ensures block[row].key == key && block[row].offset != offset ==> Walked(rows, key, offset, first + row)
    ensures block[row].key != key ==> NotFrom(rows, key, offset, 0)
  {
    WalkSteps(rows, key, offset, first + row + 1);
  }

  /**
   Backwards through a block: either the wanted version turns up, or it is known whether the key goes on in the block
   before.
   */
  method WalkBack(ghost rows: seq<FooterRow>, ghost first: nat, block: seq<FooterRow>, bound: nat, key: Bytes,
                  offset: int)
    returns (found: Option<FooterRow>, isOver: bool)
    requires InOrder(rows) && first + |block| <= |rows| && block == rows[first..first + |block|]
    requires bound <= |block| && Walked(rows, key, offset, first + bound)
    ensures found.Some? ==> found.value in rows && found.value.key == key && found.value.offset == offset
    ensures found.None? && isOver ==> NotFrom(rows, key, offset, 0)
    ensures found.None? && !isOver ==> Walked(rows, key, offset, first) && (bound > 0 ==> rows[first].key == key)
  {
    var row := bound;
    while row > 0
      invariant 0 <= row <= bound && Walked(rows, key, offset, first + row)
      invariant row < bound ==> rows[first + row].key == key
    {
      row := row - 1;
      WalkRow(rows, first, block, row, key, offset);
      if block[row].key != key {
        return None, true;
      }
      if block[row].offset == offset {
        return Some(block[row]), true;
      }
    }
    return None, false;
  }

  /** Where a walk back through the blocks stands: on the block it landed on, or behind one it went through whole. */
  ghost predicate AtBlock(rows: seq<FooterRow>, cuts: seq<int>, key: Bytes, offset: int, b: int)
    requires Cut(rows, cuts) && IsBlock(cuts, b)
  {
    (StartsAtOrBelow(rows, cuts, b, key) && (IsBlock(cuts, b + 1) ==> !StartsAtOrBelow(rows, cuts, b + 1, key)))
    || (IsBlock(cuts, b + 1) && rows[cuts[b + 1]].key == key && Walked(rows, key, offset, cuts[b + 1]))
  }

  /** A block the key's row follows is below the key's bound to its end. */
  lemma WholeBelow(rows: seq<FooterRow>, first: nat, block: seq<FooterRow>, key: Bytes, at: nat)
    requires InOrder(rows) && block != [] && first + |block| < |rows| && block == rows[first..first + |block|]
    requires rows[first + |block|].key == key && at <= |block| && SplitAt(block, key, true, 0, at, |block|)
    ensures at == |block|
  {
    EqualIsBelow(key);
    var last := |block| - 1;
    assert block[last] == rows[first + last];
    BelowIsDownward(rows, key, true, first + last, first + |block|);
  }

  lemma BoundIsWalked(rows: seq<FooterRow>, cuts: seq<int>, key: Bytes, offset: int, b: int, block: seq<FooterRow>,
                      at: nat)
    requires InOrder(rows) && Cut(rows, cuts) && IsBlock(cuts, b) && AtBlock(rows, cuts, key, offset, b)
    requires block == Block(rows, cuts, b) && at <= |block| && SplitAt(block, key, true, 0, at, |block|)
    ensures at > 0 && Walked(rows, key, offset, cuts[b] + at)
  {
    if StartsAtOrBelow(rows, cuts, b, key) && (IsBlock(cuts, b + 1) ==> !StartsAtOrBelow(rows, cuts, b + 1, key)) {
      LandedBound(rows, cuts, key, b, at);
      WalkStarts(rows, key, offset, cuts[b] + at);
    } else {
      WholeBelow(rows, cuts[b], block, key, at);
    }
  }

  /** A block's share of the search: it ends here, or goes on in the block before. */
  method WalkBlock(rows: seq<FooterRow>, cuts: seq<int>, b: int, key: Bytes, offset: int)
    returns (found: Option<FooterRow>, isOver: bool)
    requires InOrder(rows) && Cut(rows, cuts) && IsBlock(cuts, b) && AtBlock(rows, cuts, key, offset, b)
    ensures found.Some? ==> found.value in rows && found.value.key == key && found.value.offset == offset
    ensures found.None? && (isOver || b == 0) ==> NotFrom(rows, key, offset, 0)
    ensures found.None? && !isOver && b > 0 ==> AtBlock(rows, cuts, key, offset, b - 1)
  {
    var block := Block(rows, cuts, b);
    BlockInOrder(rows, cuts, b);
    var bound := BoundWithin(block, key, 0, |block|, true);
    BoundIsWalked(rows, cuts, key, offset, b, block, bound);
    found, isOver := WalkBack(rows, cuts[b], block, bound, key, offset);
  }

  /**
   The one version of a key that lies at an offset, sought from the key's last row backwards over as many blocks as
   it takes.
   */
  method FindOffsetInSpan(rows: seq<FooterRow>, cuts: seq<int>, readable: set<int>, filter: Option<KeyFilter.Filter>,
                          hash: KeyFilter.Hash, key: Bytes, offset: int) returns (r: Option<FooterRow>)
    requires InOrder(rows) && Cut(rows, cuts) && Covers(filter, hash, rows)
    ensures r.Some? ==> r.value in rows && r.value.key == key && r.value.offset == offset
    ensures r.None? && AllRead(cuts, readable) ==> NotFrom(rows, key, offset, 0)
  {
    var isOut := AskFilter(rows, filter, hash, key);
    if isOut {
      return None;
    }
    var landed := Landing(rows, cuts, readable, key);
    if landed.None? {
      if AllRead(cuts, readable) { NoneAtOrBelow(rows, cuts, key); }
      return None;
    }
    var b := landed.value;
    while true
      invariant IsBlock(cuts, b) && AtBlock(rows, cuts, key, offset, b)
      decreases b
    {
      if b !in readable {
        return None;
      }
      var found, isOver := WalkBlock(rows, cuts, b, key, offset);
      if found.Some? || isOver || b == 0 {
        return found;
      }
      b := b - 1;
    }
  }
}
