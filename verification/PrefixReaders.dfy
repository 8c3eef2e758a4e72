/**
 A block on disk: how it is written out, how its frame is checked, and that what was written decodes to the block
 it was.
 */
module PrefixReaders {
  import opened ByteStrings
  import opened Common
  import opened Numbers
  import opened PackedRows
  import opened Prefix
  import opened PrefixSeek

  const TRAILER_LEN := 8

  // ---- the block as it is written out ----

  function Places(restarts: seq<int>): (p: seq<Bytes>)
    requires forall i :: 0 <= i < |restarts| ==> 0 <= restarts[i]
    ensures |p| == |restarts| && forall i {:trigger p[i]} :: 0 <= i < |restarts| ==> p[i] == Le(restarts[i], 4)
  {
    seq(|restarts|, i requires 0 <= i < |restarts| => Le(restarts[i], 4))
  }

  /** Packed bytes first, then where the blocks start, and last how many blocks and rows there are. */
  function Encoded(b: Block): Bytes
    requires Framed(b)
  {
    b.packed + Flat(Places(b.restarts), |b.restarts|) + Le(|b.restarts|, 4) + Le(b.count, 4)
  }

  method Encode(b: Block) returns (out: Bytes)
    requires Framed(b)
    ensures out == Encoded(b)
  {
    out := b.packed;
    for i := 0 to |b.restarts|
      invariant out == b.packed + Flat(Places(b.restarts), i)
    {
      out := out + Le(b.restarts[i], 4);
    }
    out := out + Le(|b.restarts|, 4);
    out := out + Le(b.count, 4);
  }

  /** A block small enough for its counts and places to take four bytes. */
  predicate Small(b: Block) { b.count < BITS_32 && |b.restarts| < BITS_32 && |b.packed| < BITS_32 }

  // ---- the frame ----

  /** Where the rows end, and how many restarts and rows there are. */
  datatype Frame = Frame(rowsEnd: int, restarts: int, rows: int)

  /** Where an encoded block keeps its parts. */
  ghost predicate EncodedAt(bytes: Bytes, b: Block) {
    && Framed(b) && |bytes| == |b.packed| + 4 * |b.restarts| + TRAILER_LEN
    && LiesAt(bytes, 0, b.packed)
    && (forall i {:trigger b.restarts[i]} ::
      0 <= i < |b.restarts| ==> LiesAt(bytes, |b.packed| + 4 * i, Le(b.restarts[i], 4)))
    && LiesAt(bytes, |bytes| - 8, Le(|b.restarts|, 4)) && LiesAt(bytes, |bytes| - 4, Le(b.count, 4))
  }

  lemma {:induction false} PlacesLen(restarts: seq<int>, n: nat)
    requires n <= |restarts| && forall i :: 0 <= i < |restarts| ==> 0 <= restarts[i]
    ensures |Flat(Places(restarts), n)| == 4 * n
  {
    if n > 0 { PlacesLen(restarts, n - 1); }
  }

  lemma PlaceLies(bytes: Bytes, at: nat, places: seq<Bytes>, all: Bytes, i: nat, len: nat, place: Bytes)
    requires i < |places| && places[i] == place && all == Flat(places, |places|) && |Flat(places, i)| == len
    requires LiesAt(bytes, at, all)
    ensures LiesAt(bytes, at + len, place)
  {
    PieceLies(places, i);
    LiesWithin(bytes, at, all, len, place);
  }

  lemma PlacesLie(bytes: Bytes, at: nat, restarts: seq<int>)
    requires forall i :: 0 <= i < |restarts| ==> 0 <= restarts[i]
    requires LiesAt(bytes, at, Flat(Places(restarts), |restarts|))
    ensures forall i {:trigger restarts[i]} :: 0 <= i < |restarts| ==> LiesAt(bytes, at + 4 * i, Le(restarts[i], 4))
  {
    var places := Places(restarts);
    var all := Flat(places, |places|);
    forall i | 0 <= i < |restarts| ensures LiesAt(bytes, at + 4 * i, Le(restarts[i], 4)) {
      PlacesLen(restarts, i);
      PlaceLies(bytes, at, places, all, i, 4 * i, Le(restarts[i], 4));
    }
  }

  lemma EncodedParts(b: Block)
    requires Framed(b)
    ensures EncodedAt(Encoded(b), b)
  {
    var bytes, places, n := Encoded(b), Flat(Places(b.restarts), |b.restarts|), |b.restarts|;
    PlacesLen(b.restarts, n);
    assert bytes[0..|bytes|] == bytes;
    FourInTurn(bytes, 0, b.packed, places, Le(n, 4), Le(b.count, 4));
    PlacesLie(bytes, |b.packed|, b.restarts);
  }

  function RestartIn(bytes: Bytes, frame: Frame, i: nat): int
    requires 0 <= frame.rowsEnd && frame.rowsEnd + 4 * i + 4 <= |bytes|
  {
    ReadLe(bytes, frame.rowsEnd + 4 * i, 4)
  }

  predicate FrameOk(bytes: Bytes, f: Frame) {
    && 0 <= f.rowsEnd && 0 <= f.rows && f.restarts == RestartCount(f.rows)
      && f.rowsEnd + 4 * f.restarts + TRAILER_LEN == |bytes|
    && forall i {:trigger RestartIn(bytes, f, i)} :: 0 <= i < f.restarts ==> RestartIn(bytes, f, i) <= f.rowsEnd
  }

  /** The counts at the end of a block. */
  method ReadTrailer(bytes: Bytes, ghost b: Block) returns (restarts: int, rows: int)
    requires |bytes| >= TRAILER_LEN && forall i :: 0 <= i < |bytes| ==> 0 <= bytes[i] < 0x100
    ensures 0 <= restarts && 0 <= rows
    ensures EncodedAt(bytes, b) && Small(b) ==> restarts == |b.restarts| && rows == b.count
  {
    var at := |bytes| - TRAILER_LEN;
    restarts, rows := ReadLe(bytes, at, 4), ReadLe(bytes, at + 4, 4);
    ReadLeSmall(bytes, at, 4);
    ReadLeSmall(bytes, at + 4, 4);
    if EncodedAt(bytes, b) && Small(b) {
      Le32ReadsBack(bytes, at, |b.restarts|);
      Le32ReadsBack(bytes, at + 4, b.count);
    }
  }

  /** Takes a block apart, refusing counts or starts that do not fit its length. */
  method ReadFrame(bytes: Bytes, ghost b: Block) returns (r: Option<Frame>)
    requires forall i :: 0 <= i < |bytes| ==> 0 <= bytes[i] < 0x100
    ensures r.Some? ==> FrameOk(bytes, r.value)
    ensures EncodedAt(bytes, b) && Small(b) ==> r == Some(Frame(|b.packed|, |b.restarts|, b.count))
  {
    if |bytes| < TRAILER_LEN {
      return None;
    }
    var restarts, rows := ReadTrailer(bytes, b);
    ghost var ok := EncodedAt(bytes, b) && Small(b);
    var rowsEnd := |bytes| - TRAILER_LEN - restarts * 4;
    if rowsEnd < 0 || restarts != RestartCount(rows) {
      return None;
    }
    var frame := Frame(rowsEnd, restarts, rows);
    for i := 0 to restarts
      invariant forall k {:trigger RestartIn(bytes, frame, k)} :: 0 <= k < i ==> RestartIn(bytes, frame, k) <= rowsEnd
    {
      if ok { RestartReadsBack(bytes, b, i); }
      if RestartIn(bytes, frame, i) > rowsEnd {
        return None;
      }
    }
    return Some(frame);
  }

  lemma RestartReadsBack(bytes: Bytes, b: Block, i: nat)
    requires EncodedAt(bytes, b) && Small(b) && i < |b.restarts|
    ensures ReadLe(bytes, |b.packed| + 4 * i, 4) == b.restarts[i]
  {
    Le32ReadsBack(bytes, |b.packed| + 4 * i, b.restarts[i]);
  }

  /** The block some bytes hold, if they hold one. */
  method Decode(bytes: Bytes, shape: Shape, ghost b: Block) returns (r: Option<Block>)
    requires forall i :: 0 <= i < |bytes| ==> 0 <= bytes[i] < 0x100
    ensures r.Some? ==> Framed(r.value)
    ensures EncodedAt(bytes, b) && Small(b) && b.shape == shape ==> r == Some(b)
  {
    var frame := ReadFrame(bytes, b);
    if frame.None? {
      return None;
    }
    var f := frame.value;
    ghost var ok := EncodedAt(bytes, b) && Small(b) && b.shape == shape;
    var restarts: seq<int> := [];
    for i := 0 to f.restarts
      invariant |restarts| == i && forall k {:trigger restarts[k]} :: 0 <= k < i ==> 0 <= restarts[k] <= f.rowsEnd
      invariant ok ==> restarts == b.restarts[..i]
    {
      if ok { RestartReadsBack(bytes, b, i); }
      ReadLeSmall(bytes, f.rowsEnd + 4 * i, 4);
      restarts := restarts + [RestartIn(bytes, f, i)];
    }
    assert ok ==> restarts == b.restarts && bytes[..f.rowsEnd] == bytes[0..|b.packed|] == b.packed;
    return Some(Block(shape, bytes[..f.rowsEnd], restarts, f.rows));
  }
}
