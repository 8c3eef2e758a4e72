/** Keys as byte strings, in byte order, by way of how much of them two keys share. */
module KeyOrder {
  import opened ByteStrings

  datatype Ordering = Less | Equal | Greater

  /** How many bytes two keys share at the front. */
  function Shared(a: Bytes, b: Bytes): (n: nat)
    ensures n <= |a| && n <= |b| && a[..n] == b[..n]
    ensures n < |a| && n < |b| ==> a[n] != b[n]
  {
    if a == [] || b == [] || a[0] != b[0] then 0
    else
      var n := Shared(a[1..], b[1..]);
      assert a[..n + 1] == [a[0]] + a[1..][..n] && b[..n + 1] == [b[0]] + b[1..][..n];
      n + 1
  }

  /** A count that keys agree up to and part at is what they share. */
  lemma SharedIs(a: Bytes, b: Bytes, n: nat)
    requires n <= |a| && n <= |b| && a[..n] == b[..n]
    requires n == |a| || n == |b| || a[n] != b[n]
    ensures Shared(a, b) == n
  {
    var m := Shared(a, b);
    assert forall i :: 0 <= i < n ==> a[i] == a[..n][i] == b[..n][i] == b[i];
    assert forall i :: 0 <= i < m ==> a[i] == a[..m][i] == b[..m][i] == b[i];
  }

  function CompareInts(a: int, b: int): Ordering { if a < b then Less else if a == b then Equal else Greater }

  /** Byte order: the first byte two keys part at decides, and a prefix comes first. */
  function Compare(a: Bytes, b: Bytes): Ordering {
    var n := Shared(a, b);
    if n < |a| && n < |b| then CompareInts(a[n], b[n]) else CompareInts(|a|, |b|)
  }

  predicate Before(a: Bytes, b: Bytes) { Compare(a, b).Less? }

  /** These keys agree up to a place, where the first ends and the other goes on, or has the lesser byte. */
  predicate PartsBelow(a: Bytes, b: Bytes, n: nat) {
    && n <= |a| && n < |b| && (forall i {:trigger a[i]} :: 0 <= i < n ==> a[i] == b[i])
    && (n < |a| ==> a[n] < b[n])
  }

  /** One key comes before another exactly if they part so somewhere. */
  lemma BeforeExactly(a: Bytes, b: Bytes)
    ensures Before(a, b) <==> exists n: nat :: PartsBelow(a, b, n)
  {
    if n: nat :| PartsBelow(a, b, n) {
      assert a[..n] == b[..n];
      SharedIs(a, b, n);
    }
    if Before(a, b) {
      var n := Shared(a, b);
      assert forall i {:trigger a[i]} :: 0 <= i < n ==> a[i] == a[..n][i] == b[..n][i] == b[i];
      assert PartsBelow(a, b, n);
    }
  }

  lemma EqualIsSame(a: Bytes, b: Bytes)
    ensures Compare(a, b).Equal? <==> a == b
  {
    if a == b { SharedIs(a, b, |a|); }
    if Compare(a, b).Equal? { assert a[..|a|] == a && b[..|b|] == b; }
  }

  lemma Mirrored(a: Bytes, b: Bytes)
    ensures Shared(a, b) == Shared(b, a)
    ensures Compare(a, b).Less? <==> Compare(b, a).Greater?
    ensures Compare(a, b).Greater? <==> Compare(b, a).Less?
  {
    SharedIs(b, a, Shared(a, b));
  }

  /** Comparing past a part two keys share. */
  lemma CompareRest(a: Bytes, b: Bytes, n: nat)
    requires n <= |a| && n <= |b| && a[..n] == b[..n]
    ensures Shared(a, b) == n + Shared(a[n..], b[n..])
    ensures Compare(a, b) == Compare(a[n..], b[n..])
  {
    var m := Shared(a[n..], b[n..]);
    assert a[..n + m] == a[..n] + a[n..][..m] && b[..n + m] == b[..n] + b[n..][..m];
    assert n + m < |a| ==> a[n + m] == a[n..][m];
    assert n + m < |b| ==> b[n + m] == b[n..][m];
    SharedIs(a, b, n + m);
  }

  /** Two keys compare with a third alike, at the byte they part from it, if they share more with each other. */
  lemma SharedDecides(a: Bytes, b: Bytes, c: Bytes)
    requires Shared(a, b) < Shared(b, c)
    ensures Shared(a, c) == Shared(a, b) && Compare(a, c) == Compare(a, b)
  {
    var n, m := Shared(a, b), Shared(b, c);
    assert a[..n] == c[..n] by { assert b[..m][..n] == c[..m][..n] && b[..m][..n] == b[..n] && c[..m][..n] == c[..n]; }
    assert b[..m][n] == c[..m][n];
    SharedIs(a, c, n);
  }

  /** Byte order is transitive, also where one of two steps is an equality. */
  lemma BeforeTrans(a: Bytes, b: Bytes, c: Bytes)
    requires !Before(b, a) && !Before(c, b)
    ensures !Before(c, a)
    ensures Before(a, b) || Before(b, c) ==> Before(a, c)
  {
    var n, m := Shared(a, b), Shared(b, c);
    Mirrored(a, b);
    Mirrored(b, c);
    Mirrored(a, c);
    if n < m {
      SharedDecides(a, b, c);
    } else if m < n {
      SharedDecides(c, b, a);
    } else {
      assert a[..n] == b[..n] == c[..n];
      CompareRest(a, b, n);
      CompareRest(b, c, n);
      CompareRest(a, c, n);
      RestTrans(a[n..], b[n..], c[n..]);
    }
  }

  lemma RestTrans(a: Bytes, b: Bytes, c: Bytes)
    requires Shared(a, b) == 0 && Shared(b, c) == 0 && !Compare(a, b).Greater? && !Compare(b, c).Greater?
    ensures !Compare(a, c).Greater? && (Compare(a, b).Less? || Compare(b, c).Less? ==> Compare(a, c).Less?)
  {
    SharedIs(a, c, 0);
  }
}
