/**
 The footer's numbers: seven bits a byte, low bits first, a set high bit on every byte but the last; and
 signed differences as unsigned numbers, near zero where the difference is.
 */
module Numbers {
  import opened ByteStrings
  import opened Common

  const BITS_32 := 0x1_0000_0000
  const BITS_63 := 0x8000_0000_0000_0000
  const BITS_64 := 0x1_0000_0000_0000_0000

  /** A number read off some bytes, and where the reading stopped. */
  datatype Number = Number(value: int, next: int)

  /** The bytes a number is written as. */
  function Varint(v: nat): (b: Bytes)
    ensures |b| > 0
    decreases v, 1
  {
    if v < 0x80 then [v] else Continued(v)
  }

  /** Its low seven bits, marked as going on, and the rest. */
  function Continued(v: nat): (b: Bytes)
    requires v >= 0x80
    ensures |b| > 0
    decreases v, 0
  {
    [v % 0x80 + 0x80] + Varint(v / 0x80)
  }

  /** Append a number. */
  method PutVarint(out: Bytes, v: nat) returns (r: Bytes)
    ensures r == out + Varint(v)
  {
    r := out;
    var value := v;
    while value >= 0x80
      invariant value >= 0 && r + Varint(value) == out + Varint(v)
      decreases value
    {
      r := r + [value % 0x80 + 0x80];
      value := value / 0x80;
    }
    r := r + [value];
  }

  /** A number shifted up so many bits. */
  function Shl(x: nat, n: nat): (r: nat)
    ensures r >= x
  {
    if n == 0 then x else 2 * Shl(x, n - 1)
  }

  /** Seven more bits above the low `shift` ones; bits past the sixty-fourth are lost. */
  function Widen(value: int, byte: int, shift: nat): (r: int)
    ensures 0 <= r < BITS_64
  {
    (value + Shl(byte % 0x80, shift)) % BITS_64
  }

  /** Read on from this byte, with the low `shift` bits known. */
  function ReadFrom(bytes: Bytes, at: int, shift: nat, value: int): (r: Option<Number>)
    requires 0 <= at
    ensures r.Some? ==> at < r.value.next <= |bytes| && 0 <= r.value.value < BITS_64
    decreases |bytes| - at
  {
    if shift >= 64 || at >= |bytes| then None
    else
      var read := Widen(value, bytes[at], shift);
      if bytes[at] % 0x100 < 0x80 then Some(Number(read, at + 1)) else ReadFrom(bytes, at + 1, shift + 7, read)
  }

  function ReadVarint(bytes: Bytes, at: int): (r: Option<Number>)
    requires 0 <= at
    ensures r.Some? ==> at < r.value.next <= |bytes| && 0 <= r.value.value < BITS_64
  {
    ReadFrom(bytes, at, 0, 0)
  }

  /** Reads up to ten bytes as one number and moves on behind them; a longer or a truncated one is refused. */
  method GetVarint(bytes: Bytes, at: int) returns (r: Option<Number>)
    requires 0 <= at
    ensures r == ReadVarint(bytes, at)
  {
    var value, next, shift := 0, at, 0;
    while shift < 64
      invariant at <= next && 0 <= shift <= 70
      invariant ReadFrom(bytes, next, shift, value) == ReadVarint(bytes, at)
      decreases 70 - shift
    {
      if next >= |bytes| {
        return None;
      }
      var byte := bytes[next];
      next := next + 1;
      value := Widen(value, byte, shift);
      if byte % 0x100 < 0x80 {
        return Some(Number(value, next));
      }
      shift := shift + 7;
    }
    return None;
  }

  // ---- a number reads back as it was written ----

  lemma {:induction false} ShlAdds(x: nat, y: nat, n: nat)
    ensures Shl(x + y, n) == Shl(x, n) + Shl(y, n)
  {
    if n > 0 { ShlAdds(x, y, n - 1); }
  }

  lemma {:induction false} ShlTwice(x: nat, a: nat, b: nat)
    ensures Shl(Shl(x, a), b) == Shl(x, a + b)
  {
    if b > 0 { ShlTwice(x, a, b - 1); }
  }

  lemma ShlBySeven(x: nat, n: nat)
    ensures Shl(0x80 * x, n) == Shl(x, n + 7)
  {
    assert Shl(x, 1) == 2 * x && Shl(x, 2) == 4 * x && Shl(x, 3) == 8 * x;
    assert Shl(x, 4) == 16 * x && Shl(x, 5) == 32 * x;
    assert Shl(x, 6) == 64 * x && Shl(x, 7) == 0x80 * x;
    ShlTwice(x, 7, n);
  }

  lemma Shl57()
    ensures Shl(0x80, 57) == BITS_64
  {
    assert Shl(0x80, 8) == 0x8000;
    ShlTwice(0x80, 8, 8);
    assert Shl(0x8000, 8) == 0x80_0000;
    ShlTwice(0x80, 16, 16);
    ShlTwice(0x80_0000, 8, 8);
    assert Shl(0x80_0000, 8) == 0x8000_0000 && Shl(0x8000_0000, 8) == 0x80_0000_0000;
    ShlTwice(0x80, 32, 16);
    ShlTwice(0x80_0000_0000, 8, 8);
    assert Shl(0x80_0000_0000, 8) == 0x8000_0000_0000 && Shl(0x8000_0000_0000, 8) == 0x80_0000_0000_0000;
    ShlTwice(0x80, 48, 9);
    assert Shl(0x80_0000_0000_0000, 9) == BITS_64;
  }

  lemma {:induction false} ShlGrows(x: nat, y: nat, a: nat, b: nat)
    requires x <= y && a <= b
    ensures Shl(x, a) <= Shl(y, b)
    decreases b
  {
    if b > 0 { ShlGrows(x, y, if a == b then a - 1 else a, b - 1); }
  }

  /** A number that goes on for another byte leaves room for it. */
  lemma RoomFor(v: nat, shift: nat)
    requires v >= 0x80 && Shl(v, shift) < BITS_64
    ensures shift + 7 < 64
  {
    Shl57();
    if shift >= 57 { ShlGrows(0x80, v, 57, shift); }
  }

  /** A number is its low seven bits and the rest, seven bits up. */
  lemma ShlParts(v: nat, shift: nat)
    ensures Shl(v, shift) == Shl(v % 0x80, shift) + Shl(v / 0x80, shift + 7)
  {
    assert v == v % 0x80 + 0x80 * (v / 0x80);
    ShlAdds(v % 0x80, 0x80 * (v / 0x80), shift);
    ShlBySeven(v / 0x80, shift);
  }

  lemma ReadLast(bytes: Bytes, at: nat, shift: nat, value: int, whole: int)
    requires at < |bytes| && shift < 64 && bytes[at] % 0x100 < 0x80 && whole == Widen(value, bytes[at], shift)
    ensures ReadFrom(bytes, at, shift, value) == Some(Number(whole, at + 1))
  {}

  lemma ReadOn(bytes: Bytes, at: nat, shift: nat, value: int, read: int)
    requires at < |bytes| && shift < 64 && bytes[at] % 0x100 >= 0x80 && read == Widen(value, bytes[at], shift)
    ensures ReadFrom(bytes, at, shift, value) == ReadFrom(bytes, at + 1, shift + 7, read)
  {}

  lemma WidenKeeps(value: nat, byte: nat, part: nat, shift: nat)
    requires byte % 0x80 == part && value + Shl(part, shift) < BITS_64
    ensures Widen(value, byte, shift) == value + Shl(part, shift)
  {}

  lemma {:induction false} ReadsBackFrom(bytes: Bytes, at: nat, next: nat, v: nat, shift: nat, value: nat, whole: nat)
    requires shift < 64 && whole == value + Shl(v, shift) < BITS_64
    requires LiesAt(bytes, at, Varint(v)) && next == at + |Varint(v)|
    ensures ReadFrom(bytes, at, shift, value) == Some(Number(whole, next))
    decreases v
  {
    ShlParts(v, shift);
    if v < 0x80 {
      assert bytes[at] == bytes[at..at + 1][0] == v;
      WidenKeeps(value, v, v, shift);
      ReadLast(bytes, at, shift, value, whole);
    } else {
      var head, rest := v % 0x80 + 0x80, Varint(v / 0x80);
      LieInTurn(bytes, at, [head], rest);
      assert bytes[at] == bytes[at..at + 1][0] == head;
      RoomFor(v, shift);
      WidenKeeps(value, head, v % 0x80, shift);
      var read := value + Shl(v % 0x80, shift);
      ReadOn(bytes, at, shift, value, read);
      ReadsBackFrom(bytes, at + 1, next, v / 0x80, shift + 7, read, whole);
    }
  }

  /** Every 64-bit number reads back as itself from wherever it lies. */
  lemma ReadsBack(bytes: Bytes, at: nat, next: nat, v: nat)
    requires v < BITS_64 && LiesAt(bytes, at, Varint(v)) && next == at + |Varint(v)|
    ensures ReadVarint(bytes, at) == Some(Number(v, next))
  {
    ReadsBackFrom(bytes, at, next, v, 0, 0, v);
  }

  // ---- folded differences ----

  /** A signed 64-bit number folded: doubling, and flipping every bit of a negative one. */
  function Zigzag(v: int): (u: nat)
    requires -BITS_63 <= v < BITS_63
    ensures u < BITS_64
    ensures Unzigzag(u) == v
  {
    if v >= 0 then 2 * v else -2 * v - 1
  }

  function Unzigzag(u: nat): (v: int)
    requires u < BITS_64
    ensures -BITS_63 <= v < BITS_63
  {
    if u % 2 == 0 then u / 2 else -(u / 2) - 1
  }

  /** The unsigned difference of two 64-bit numbers, taken as signed. */
  function WrappingDiff(a: int, b: int): (d: int)
    requires 0 <= a < BITS_64 && 0 <= b < BITS_64
    ensures -BITS_63 <= d < BITS_63
    ensures WrappingAdd(b, d) == a
  {
    var d := (a - b) % BITS_64;
    if d < BITS_63 then d else d - BITS_64
  }

  function WrappingAdd(b: int, d: int): (a: int)
    ensures 0 <= a < BITS_64
  {
    (b + d) % BITS_64
  }

  // ---- fixed-width numbers ----

  /** So many bytes of a number, low ones first. */
  function Le(v: nat, n: nat): (b: Bytes)
    ensures |b| == n
    decreases v, n, 1
  {
    if n == 0 then [] else LowFirst(v, n)
  }

  function LowFirst(v: nat, n: nat): (b: Bytes)
    requires n > 0
    ensures |b| == n
    decreases v, n, 0
  {
    [v % 0x100] + Le(v / 0x100, n - 1)
  }

  function ReadLe(bytes: Bytes, at: nat, n: nat): int
    requires at + n <= |bytes|
    decreases |bytes| - at, 1
  {
    if n == 0 then 0 else ReadLowFirst(bytes, at, n)
  }

  function ReadLowFirst(bytes: Bytes, at: nat, n: nat): int
    requires 0 < n && at + n <= |bytes|
    decreases |bytes| - at, 0
  {
    bytes[at] + 0x100 * ReadLe(bytes, at + 1, n - 1)
  }

  /** What so many bytes can hold. */
  function Room(n: nat): nat { if n == 0 then 1 else 0x100 * Room(n - 1) }

  lemma {:induction false} LeReadsBack(bytes: Bytes, at: nat, v: nat, n: nat)
    requires v < Room(n) && LiesAt(bytes, at, Le(v, n))
    ensures at + n <= |bytes| && ReadLe(bytes, at, n) == v
    decreases n
  {
    if n > 0 {
      assert Le(v, n) == LowFirst(v, n) && ReadLe(bytes, at, n) == ReadLowFirst(bytes, at, n);
      var rest := Le(v / 0x100, n - 1);
      LieInTurn(bytes, at, [v % 0x100], rest);
      assert bytes[at] == bytes[at..at + 1][0];
      LeReadsBack(bytes, at + 1, v / 0x100, n - 1);
    }
  }

  lemma Le32ReadsBack(bytes: Bytes, at: nat, v: nat)
    requires v < BITS_32 && LiesAt(bytes, at, Le(v, 4))
    ensures at + 4 <= |bytes| && ReadLe(bytes, at, 4) == v
  {
    assert Room(2) == 0x1_0000 && Room(4) == BITS_32;
    LeReadsBack(bytes, at, v, 4);
  }

  lemma Le16ReadsBack(bytes: Bytes, at: nat, v: nat)
    requires v < 0x1_0000 && LiesAt(bytes, at, Le(v, 2))
    ensures at + 2 <= |bytes| && ReadLe(bytes, at, 2) == v
  {
    assert Room(2) == 0x1_0000;
    LeReadsBack(bytes, at, v, 2);
  }

  lemma Le64ReadsBack(bytes: Bytes, at: nat, v: nat)
    requires v < BITS_64 && LiesAt(bytes, at, Le(v, 8))
    ensures at + 8 <= |bytes| && ReadLe(bytes, at, 8) == v
  {
    assert Room(2) == 0x1_0000 && Room(4) == BITS_32 && Room(6) == 0x1_0000_0000_0000 && Room(8) == BITS_64;
    LeReadsBack(bytes, at, v, 8);
  }

  lemma {:induction false} ReadLeSmall(bytes: Bytes, at: nat, n: nat)
    requires at + n <= |bytes| && forall i :: 0 <= i < |bytes| ==> 0 <= bytes[i] < 0x100
    ensures 0 <= ReadLe(bytes, at, n)
    decreases n
  {
    if n > 0 { ReadLeSmall(bytes, at + 1, n - 1); }
  }
}
