/** Byte strings and the pieces they are put together from. */
module ByteStrings {
  type Bytes = seq<int>

  /** Whether these bytes hold that piece from this place on. */
  predicate LiesAt(bytes: Bytes, at: nat, piece: Bytes) {
    at + |piece| <= |bytes| && bytes[at..at + |piece|] == piece
  }

  /** Pieces one behind the other. */
  lemma LieInTurn(bytes: Bytes, at: nat, a: Bytes, b: Bytes)
    ensures LiesAt(bytes, at, a + b) <==> LiesAt(bytes, at, a) && LiesAt(bytes, at + |a|, b)
  {
    if at + |a| + |b| <= |bytes| {
      var whole := bytes[at..at + |a| + |b|];
      assert whole[..|a|] == bytes[at..at + |a|] && whole[|a|..] == bytes[at + |a|..at + |a| + |b|];
      assert (a + b)[..|a|] == a && (a + b)[|a|..] == b;
      assert whole == whole[..|a|] + whole[|a|..];
    }
  }

  lemma FourInTurn(bytes: Bytes, at: nat, a: Bytes, b: Bytes, c: Bytes, d: Bytes)
    requires LiesAt(bytes, at, a + b + c + d)
    ensures LiesAt(bytes, at, a) && LiesAt(bytes, at + |a|, b) && LiesAt(bytes, at + |a| + |b|, c)
    ensures LiesAt(bytes, at + |a| + |b| + |c|, d)
  {
    LieInTurn(bytes, at, a + b + c, d);
    LieInTurn(bytes, at, a + b, c);
    LieInTurn(bytes, at, a, b);
  }

  lemma LiesWithin(bytes: Bytes, at: nat, whole: Bytes, from: nat, piece: Bytes)
    requires LiesAt(bytes, at, whole) && LiesAt(whole, from, piece)
    ensures LiesAt(bytes, at + from, piece)
  {
    var front, rest := whole[..from], whole[from + |piece|..];
    assert whole == front + piece + rest;
    LieInTurn(bytes, at, front + piece, rest);
    LieInTurn(bytes, at, front, piece);
  }

  /** The first `n` pieces, joined. */
  function Flat(pieces: seq<Bytes>, n: nat): Bytes
    requires n <= |pieces|
    decreases n, 1
  {
    if n == 0 then [] else Joined(pieces, n)
  }

  function Joined(pieces: seq<Bytes>, n: nat): Bytes
    requires 0 < n <= |pieces|
    decreases n, 0
  {
    Flat(pieces, n - 1) + pieces[n - 1]
  }

  lemma FlatLast(pieces: seq<Bytes>, n: nat, piece: Bytes)
    requires n < |pieces| && pieces[n] == piece
    ensures Flat(pieces, n + 1) == Flat(pieces, n) + piece
  {}

  lemma {:induction false} FlatGrows(pieces: seq<Bytes>, i: nat, n: nat)
    requires i <= n <= |pieces|
    ensures |Flat(pieces, i)| <= |Flat(pieces, n)| && Flat(pieces, i) == Flat(pieces, n)[..|Flat(pieces, i)|]
    decreases n
  {
    if i < n { FlatGrows(pieces, i, n - 1); }
  }

  lemma PieceLies(pieces: seq<Bytes>, i: nat)
    requires i < |pieces|
    ensures LiesAt(Flat(pieces, |pieces|), |Flat(pieces, i)|, pieces[i])
    ensures |Flat(pieces, i + 1)| == |Flat(pieces, i)| + |pieces[i]|
  {
    FlatGrows(pieces, i + 1, |pieces|);
    var upTo := Flat(pieces, i + 1);
    assert upTo[|Flat(pieces, i)|..] == pieces[i];
  }

  lemma {:induction false} FlatCut(pieces: seq<Bytes>, from: nat, n: nat)
    requires from <= n <= |pieces|
    ensures Flat(pieces, n) == Flat(pieces, from) + Flat(pieces[from..], n - from)
    decreases n
  {
    if from < n { FlatCut(pieces, from, n - 1); }
  }

  lemma {:induction false} FlatSame(some: seq<Bytes>, others: seq<Bytes>, n: nat)
    requires n <= |some| && n <= |others| && some[..n] == others[..n]
    ensures Flat(some, n) == Flat(others, n)
  {
    if n > 0 {
      assert some[n - 1] == some[..n][n - 1] == others[n - 1];
      assert some[..n - 1] == some[..n][..n - 1] == others[..n][..n - 1] == others[..n - 1];
      FlatSame(some, others, n - 1);
    }
  }
}
