/**
 Blocked bloom filters over the keys of sealed columns. A key that went in is never ruled out, a filter
 this build cannot use rules nothing out, and filters read back from a footer as they were written, or not at
 all where the bytes are cut short.
 */
module KeyFilter {
  import opened ByteStrings
  import opened Common
  import opened Numbers

  const KIND_ABSENT := 0
  const KIND_BLOOM := 1
  const HEADER_LEN := 12
  const BLOCK_BYTES := 64
  const BLOCK_BITS := 512
  const MAX_PROBES := 8
  const MAX_BITS_PER_KEY := 32
  const SEED := 0
  const LN_2 := 0.6931471805599453
  const ODD := 0x9E37_79B9_7F4A_7C15

  /** Any function of a key and a seed will do; its value is cut to 64 bits. */
  type Hash = (Bytes, int) -> int

  datatype Filter = Filter(kind: int, seed: int, probes: int, keys: int, body: Bytes)

  // ---- bits of a byte ----

  predicate Bit(b: int, k: nat)
    decreases k
  {
    if k == 0 then b % 2 == 1 else Bit(b / 2, k - 1)
  }

  /** A byte with one bit set. */
  function WithBit(b: int, k: nat): int
    decreases k
  {
    if k == 0 then b / 2 * 2 + 1 else WithBit(b / 2, k - 1) * 2 + b % 2
  }

  /** Setting a bit sets it and changes no other. */
  lemma {:induction false} WithBitSets(b: int, k: nat, j: nat)
    ensures Bit(WithBit(b, k), j) <==> j == k || Bit(b, j)
    decreases k
  {
    if k > 0 && j > 0 { WithBitSets(b / 2, k - 1, j - 1); }
  }

  // ---- where a key's bits are ----

  /** Which of the blocks a hash lands in. */
  function BlockOf(hash: int, blocks: nat): (r: int)
    requires 0 <= hash < BITS_64 && blocks > 0
    ensures 0 <= r < blocks
  {
    var r := ((hash / BITS_32) * blocks % BITS_64) / BITS_32;
    BlockFits(hash / BITS_32, blocks);
    r
  }

  lemma BlockFits(high: int, blocks: nat)
    requires 0 <= high < BITS_32 && blocks > 0
    ensures 0 <= (high * blocks % BITS_64) / BITS_32 < blocks
  {
    var product := high * blocks;
    assert 0 <= product < BITS_32 * blocks;
    assert product % BITS_64 <= product;
  }

  /** The bit of a block one probe of a hash sets. */
  function BitOf(hash: int, probe: nat): (r: int)
    requires 0 <= hash < BITS_64
    ensures 0 <= r < BLOCK_BITS
  {
    var high := (hash * ODD % BITS_64) / BITS_32;
    var step := high / 2 * 2 + 1;
    ((hash % BITS_32 + probe * step % BITS_32) % BITS_32) % BLOCK_BITS
  }

  /** Blocks share the hashes' upper halves out evenly and in order. */
  lemma BlockShares(hash: int, blocks: nat, high: int)
    requires 0 <= hash < BITS_64 && 0 < blocks <= BITS_32 && high == hash / BITS_32
    ensures BlockOf(hash, blocks) * BITS_32 <= high * blocks < (BlockOf(hash, blocks) + 1) * BITS_32
  {
    ProductFits(high, blocks);
  }

  lemma ProductFits(high: int, blocks: nat)
    requires 0 <= high < BITS_32 && blocks <= BITS_32
    ensures 0 <= high * blocks < BITS_64
  {
    ProductWithin(high, BITS_32 - 1, blocks);
  }

  lemma {:induction false} ProductWithin(a: nat, b: nat, n: nat)
    requires a <= b
    ensures 0 <= a * n <= b * n
    decreases n
  {
    if n > 0 { ProductWithin(a, b, n - 1); }
  }

  function TwoTo(k: nat): (r: nat) { if k == 0 then 1 else 2 * TwoTo(k - 1) }

  /** An odd factor takes no power of two into a product. */
  lemma {:induction false} OddKeeps(step: int, n: int, k: nat, q: int) returns (m: int)
    requires step % 2 == 1 && step * n == TwoTo(k) * q
    ensures n == TwoTo(k) * m
    decreases k
  {
    m := n;
    if k > 0 {
      var half := Halves(step, n, TwoTo(k - 1) * q);
      assert TwoTo(k) * q == 2 * (TwoTo(k - 1) * q);
      m := OddKeeps(step, half, k - 1, q);
      assert 2 * (TwoTo(k - 1) * m) == TwoTo(k) * m;
    }
  }

  lemma Halves(step: int, n: int, x: int) returns (half: int)
    requires step % 2 == 1 && step * n == 2 * x
    ensures n == 2 * half && step * half == x
  {
    var odd := step / 2;
    assert step * n == 2 * (odd * n) + n;
    half := n / 2;
    assert n == 2 * (x - odd * n);
    assert 2 * (step * half) == step * n;
  }

  /** The step between a hash's probes. */
  function StepOf(hash: int): (r: int)
    requires 0 <= hash < BITS_64
    ensures r % 2 == 1
  {
    (hash * ODD % BITS_64) / BITS_32 / 2 * 2 + 1
  }

  /** Probes go round a block by the step, from the hash's lower half on. */
  lemma BitIsStepped(hash: int, probe: nat)
    requires 0 <= hash < BITS_64
    ensures BitOf(hash, probe) == (hash + probe * StepOf(hash)) % BLOCK_BITS
  {
    var first, far := hash % BITS_32, probe * StepOf(hash);
    var whole, most := hash / BITS_32, far / BITS_32;
    assert hash + far == first + far % BITS_32 + BLOCK_BITS * (0x80_0000 * (whole + most));
    var sum := first + far % BITS_32;
    var over := sum / BITS_32;
    assert sum == sum % BITS_32 + BLOCK_BITS * (0x80_0000 * over);
    Around(sum, 0x80_0000 * (whole + most));
    Around(sum % BITS_32, 0x80_0000 * over);
  }

  lemma Around(x: int, q: int)
    ensures (x + BLOCK_BITS * q) % BLOCK_BITS == x % BLOCK_BITS
  {}

  /** Main result: the probes of one key, up to a whole round of the block, are at different bits. */
  lemma ProbesApart(hash: int, p: nat, q: nat)
    requires 0 <= hash < BITS_64 && p < q < p + BLOCK_BITS
    ensures BitOf(hash, p) != BitOf(hash, q)
  {
    BitIsStepped(hash, p);
    BitIsStepped(hash, q);
    StepsApart(hash, StepOf(hash), p, q);
  }

  lemma StepsApart(first: int, step: int, p: nat, q: nat)
    requires step % 2 == 1 && p < q < p + BLOCK_BITS
    ensures (first + p * step) % BLOCK_BITS != (first + q * step) % BLOCK_BITS
  {
    var a, b := first + p * step, first + q * step;
    if a % BLOCK_BITS == b % BLOCK_BITS {
      var rounds := b / BLOCK_BITS - a / BLOCK_BITS;
      assert step * (q - p) == b - a == BLOCK_BITS * rounds;
      assert TwoTo(3) == 8 && TwoTo(6) == 64 && TwoTo(9) == BLOCK_BITS;
      var m := OddKeeps(step, q - p, 9, rounds);
      assert false;
    }
  }

  // ---- the bits a key sets ----

  predicate IsSet(body: Bytes, bit: nat)
    requires bit / 8 < |body|
  {
    Bit(body[bit / 8], bit % 8)
  }

  /** Where in the body one probe of a key looks. */
  function ProbeAt(hash: int, blocks: nat, probe: nat): (r: nat)
    requires 0 <= hash < BITS_64 && blocks > 0
    ensures r / 8 < blocks * BLOCK_BYTES
  {
    BlockOf(hash, blocks) * BLOCK_BITS + BitOf(hash, probe)
  }

  function HashOf(hash: Hash, key: Bytes, seed: int): (r: int)
    ensures 0 <= r < BITS_64
  {
    hash(key, seed) % BITS_64
  }

  /** Whether one of a key's probes is at a bit. */
  ghost predicate Sets(h: int, blocks: nat, probes: int, bit: nat)
    requires 0 <= h < BITS_64 && blocks > 0
  {
    exists p: nat {:trigger ProbeAt(h, blocks, p)} :: p < probes && ProbeAt(h, blocks, p) == bit
  }

  /** Whether some key's probe is at a bit. */
  ghost predicate Touched(hash: Hash, keys: seq<Bytes>, blocks: nat, probes: int, bit: nat)
    requires blocks > 0
  {
    exists i {:trigger keys[i]} :: 0 <= i < |keys| && Sets(HashOf(hash, keys[i], SEED), blocks, probes, bit)
  }

  lemma TouchedLast(hash: Hash, keys: seq<Bytes>, key: Bytes, blocks: nat, probes: int, bit: nat)
    requires blocks > 0
    ensures Touched(hash, keys + [key], blocks, probes, bit) <==>
      Touched(hash, keys, blocks, probes, bit) || Sets(HashOf(hash, key, SEED), blocks, probes, bit)
  {
    var all := keys + [key];
    if Touched(hash, keys, blocks, probes, bit) {
      var i :| 0 <= i < |keys| && Sets(HashOf(hash, keys[i], SEED), blocks, probes, bit);
      assert all[i] == keys[i];
    }
    assert all[|keys|] == key;
  }

  method SetBit(body: Bytes, bit: nat) returns (r: Bytes)
    requires bit / 8 < |body|
    ensures |r| == |body|
    ensures forall other: nat {:trigger IsSet(r, other)} ::
      other / 8 < |r| ==> (IsSet(r, other) <==> other == bit || IsSet(body, other))
  {
    var at, k := bit / 8, bit % 8;
    r := body[at := WithBit(body[at], k)];
    forall other: nat {:trigger IsSet(r, other)} | other / 8 < |r|
      ensures IsSet(r, other) <==> other == bit || IsSet(body, other)
    {
      WithBitSets(body[at], k, other % 8);
    }
  }

  // ---- building and asking ----

  /** So many bits are asked for, as far as a word counts them. */
  function BitsAsked(count: nat, bitsPerKey: nat): (r: nat) {
    if count * bitsPerKey < BITS_64 then count * bitsPerKey else BITS_64 - 1
  }

  /** As many blocks as the bits take, and no more. */
  function BlocksFor(count: nat, bitsPerKey: nat): (r: nat)
    requires count > 0 && bitsPerKey > 0
    ensures r > 0 && BitsAsked(count, bitsPerKey) <= r * BLOCK_BITS < BitsAsked(count, bitsPerKey) + BLOCK_BITS
  {
    var product := count * bitsPerKey;
    assert product > 0;
    var bits := if product < BITS_64 then product else BITS_64 - 1;
    (bits + BLOCK_BITS - 1) / BLOCK_BITS
  }

  function ProbesFor(bitsPerKey: nat): (r: int)
    ensures bitsPerKey > 0 ==> 1 <= r
    ensures r <= MAX_PROBES && r as real - 0.5 <= bitsPerKey as real * LN_2
    ensures r < MAX_PROBES ==> bitsPerKey as real * LN_2 < r as real + 0.5
  {
    var probes := (bitsPerKey as real * LN_2 + 0.5).Floor;
    if probes < MAX_PROBES then probes else MAX_PROBES
  }

  /** Exactly the bits some key's probes are at, of a body of whole blocks. */
  ghost predicate Holds(body: Bytes, hash: Hash, keys: seq<Bytes>, blocks: nat, probes: int) {
    blocks > 0 && |body| == blocks * BLOCK_BYTES
    && forall bit: nat {:trigger IsSet(body, bit)} ::
      bit / 8 < |body| ==> (IsSet(body, bit) <==> Touched(hash, keys, blocks, probes, bit))
  }

  /** One key's bits set on top of those of the keys before it. */
  method AddKey(body: Bytes, hash: Hash, ghost keys: seq<Bytes>, key: Bytes, blocks: nat, probes: int)
    returns (r: Bytes)
    requires Holds(body, hash, keys, blocks, probes)
    ensures Holds(r, hash, keys + [key], blocks, probes)
  {
    var h := HashOf(hash, key, SEED);
    r := body;
    var probe := 0;
    while probe < probes
      invariant 0 <= probe && (probe <= probes || probe == 0)
      invariant |r| == |body|
      invariant forall bit: nat {:trigger IsSet(r, bit)} ::
        bit / 8 < |r| ==> (IsSet(r, bit) <==> IsSet(body, bit) || Sets(h, blocks, probe, bit))
    {
      ghost var before := r;
      var at := ProbeAt(h, blocks, probe);
      r := SetBit(r, at);
      forall bit: nat {:trigger IsSet(r, bit)} | bit / 8 < |r|
        ensures IsSet(r, bit) <==> IsSet(body, bit) || Sets(h, blocks, probe + 1, bit)
      {
        assert IsSet(before, bit) <==> IsSet(body, bit) || Sets(h, blocks, probe, bit);
        SetsNext(h, blocks, probe, bit);
      }
      probe := probe + 1;
    }
    forall bit: nat {:trigger IsSet(r, bit)} | bit / 8 < |r|
      ensures IsSet(r, bit) <==> Touched(hash, keys + [key], blocks, probes, bit)
    {
      TouchedLast(hash, keys, key, blocks, probes, bit);
      assert probe == probes || (probe == 0 && probes <= 0);
      assert IsSet(body, bit) <==> Touched(hash, keys, blocks, probes, bit);
    }
  }

  lemma SetsNext(h: int, blocks: nat, probes: nat, bit: nat)
    requires 0 <= h < BITS_64 && blocks > 0
    ensures Sets(h, blocks, probes + 1, bit) <==> Sets(h, blocks, probes, bit) || ProbeAt(h, blocks, probes) == bit
  {
  }

  /** Sets the bits of all keys in a body sized for them; there is no filter where there is nothing to size it by. */
  method Build(hash: Hash, keys: seq<Bytes>, count: nat, bitsPerKey: nat) returns (r: Option<Filter>)
    ensures r.None? <==> count == 0 || bitsPerKey == 0
    ensures r.Some? ==> r.value.probes <= MAX_PROBES && r.value.keys == count % BITS_32
    ensures r.Some? ==>
      var bits := if bitsPerKey < MAX_BITS_PER_KEY then bitsPerKey else MAX_BITS_PER_KEY;
      && BitsAsked(count, bits) <= 8 * |r.value.body| < BitsAsked(count, bits) + BLOCK_BITS
      && r.value.probes == ProbesFor(bits)
    ensures r.Some? ==> BuiltOver(r.value, hash, keys)
  {
    if count == 0 || bitsPerKey == 0 {
      return None;
    }
    var bits := if bitsPerKey < MAX_BITS_PER_KEY then bitsPerKey else MAX_BITS_PER_KEY;
    var blocks, probes := BlocksFor(count, bits), ProbesFor(bits);
    var body: Bytes := seq(blocks * BLOCK_BYTES, _ => 0);
    NoBits(body, hash, blocks, probes);
    for i := 0 to |keys|
      invariant Holds(body, hash, keys[..i], blocks, probes)
    {
      body := AddKey(body, hash, keys[..i], keys[i], blocks, probes);
      assert keys[..i + 1] == keys[..i] + [keys[i]];
    }
    assert keys[..|keys|] == keys;
    return Some(Filter(KIND_BLOOM, SEED, probes, count % BITS_32, body));
  }

  lemma {:induction false} ZeroHasNone(k: nat)
    ensures !Bit(0, k)
    decreases k
  {
    if k > 0 { ZeroHasNone(k - 1); }
  }

  lemma NoBits(body: Bytes, hash: Hash, blocks: nat, probes: int)
    requires blocks > 0 && |body| == blocks * BLOCK_BYTES
    requires forall i {:trigger body[i]} :: 0 <= i < |body| ==> body[i] == 0
    ensures Holds(body, hash, [], blocks, probes)
  {
    forall bit: nat {:trigger IsSet(body, bit)} | bit / 8 < |body| ensures !IsSet(body, bit) {
      ZeroHasNone(bit % 8);
    }
  }

  /** Whether a filter rules a key out: only a bloom filter with blocks and probes, at a bit no key set. */
  ghost predicate RulesOut(f: Filter, hash: Hash, key: Bytes) {
    var blocks := |f.body| / BLOCK_BYTES;
    f.kind == KIND_BLOOM && blocks > 0 && f.probes > 0
    && exists p: nat {:trigger ProbeAt(HashOf(hash, key, f.seed), blocks, p)} ::
      p < f.probes && !IsSet(f.body, ProbeAt(HashOf(hash, key, f.seed), blocks, p))
  }

  method MayHold(f: Filter, hash: Hash, key: Bytes) returns (r: bool)
    requires 0 <= f.probes
    ensures r <==> !RulesOut(f, hash, key)
  {
    if f.kind != KIND_BLOOM {
      return true;
    }
    var blocks := |f.body| / BLOCK_BYTES;
    if blocks == 0 || f.probes == 0 {
      return true;
    }
    var h := HashOf(hash, key, f.seed);
    for p := 0 to f.probes
      invariant forall q: nat {:trigger ProbeAt(h, blocks, q)} :: q < p ==> IsSet(f.body, ProbeAt(h, blocks, q))
    {
      if !IsSet(f.body, ProbeAt(h, blocks, p)) {
        return false;
      }
    }
    return true;
  }

  /** A filter over some keys. */
  ghost predicate BuiltOver(f: Filter, hash: Hash, keys: seq<Bytes>) {
    f.kind == KIND_BLOOM && f.seed == SEED && f.probes > 0
    && Holds(f.body, hash, keys, |f.body| / BLOCK_BYTES, f.probes)
  }

  /** No key that went in is ruled out. */
  lemma BuiltNeverRulesOut(f: Filter, hash: Hash, keys: seq<Bytes>, i: nat)
    requires BuiltOver(f, hash, keys) && i < |keys|
    ensures !RulesOut(f, hash, keys[i])
  {
    var blocks, h := |f.body| / BLOCK_BYTES, HashOf(hash, keys[i], SEED);
    forall p: nat {:trigger ProbeAt(h, blocks, p)} | p < f.probes ensures IsSet(f.body, ProbeAt(h, blocks, p)) {
      var bit := ProbeAt(h, blocks, p);
      assert Sets(h, blocks, f.probes, bit);
      assert Touched(hash, keys, blocks, f.probes, bit);
    }
  }

  /** A key is ruled out exactly when one of its probes is where no key's probe was. */
  lemma RuledOutExactly(f: Filter, hash: Hash, keys: seq<Bytes>, key: Bytes)
    requires BuiltOver(f, hash, keys)
    ensures RulesOut(f, hash, key) <==>
      exists bit: nat {:trigger Touched(hash, keys, |f.body| / BLOCK_BYTES, f.probes, bit)} ::
        Sets(HashOf(hash, key, SEED), |f.body| / BLOCK_BYTES, f.probes, bit)
          && !Touched(hash, keys, |f.body| / BLOCK_BYTES, f.probes, bit)
  {
    var blocks, h := |f.body| / BLOCK_BYTES, HashOf(hash, key, SEED);
    if RulesOut(f, hash, key) {
      var p: nat :| p < f.probes && !IsSet(f.body, ProbeAt(h, blocks, p));
      var bit := ProbeAt(h, blocks, p);
      assert Sets(h, blocks, f.probes, bit) && !Touched(hash, keys, blocks, f.probes, bit);
    }
    forall bit: nat | Sets(h, blocks, f.probes, bit) && !Touched(hash, keys, blocks, f.probes, bit)
      ensures RulesOut(f, hash, key)
    {
      var p: nat :| p < f.probes && ProbeAt(h, blocks, p) == bit;
      assert !IsSet(f.body, ProbeAt(h, blocks, p));
    }
  }

  // ---- on disk ----

  function EncodedLen(f: Filter): nat { HEADER_LEN + |f.body| }

  /** Whether a filter's fields fit the widths they are written at. */
  predicate Fits(f: Filter) {
    0 <= f.kind < 0x100 && 0 <= f.seed < 0x100 && 0 <= f.probes < 0x100 && 0 <= f.keys < BITS_32
      && EncodedLen(f) < BITS_32
  }

  function Head(f: Filter): (r: Bytes)
    requires Fits(f)
    ensures |r| == HEADER_LEN
  {
    [f.kind, f.seed, f.probes, 0] + Le(f.keys, 4) + Le(EncodedLen(f), 4)
  }

  function Encode(f: Filter): (r: Bytes)
    requires Fits(f)
    ensures |r| == EncodedLen(f)
  {
    Head(f) + f.body
  }

  /** Reads the filter a region starts with, and how many bytes to skip for the next. */
  function Parse(region: Bytes): (r: (Option<Filter>, int))
    ensures region != [] ==> 0 < r.1 <= |region|
    ensures r.0.Some? ==> r.0.value.kind != KIND_ABSENT && r.1 == EncodedLen(r.0.value)
  {
    if |region| < HEADER_LEN then (None, |region|)
    else
      var keys, len := ReadLe(region, 4, 4), ReadLe(region, 8, 4);
      if len < HEADER_LEN || len > |region| then (None, |region|)
      else if region[0] == KIND_ABSENT then (None, len)
      else (Some(Filter(region[0], region[1], region[2], keys, region[HEADER_LEN..len])), len)
  }

  lemma HeadLies(region: Bytes, f: Filter)
    requires Fits(f) && |region| >= HEADER_LEN && region[..HEADER_LEN] == Head(f)
    ensures region[0] == f.kind && region[1] == f.seed && region[2] == f.probes
    ensures ReadLe(region, 4, 4) == f.keys && ReadLe(region, 8, 4) == EncodedLen(f)
  {
    var fields, keys, len := [f.kind, f.seed, f.probes, 0], Le(f.keys, 4), Le(EncodedLen(f), 4);
    assert LiesAt(region, 0, fields + keys + len);
    LieInTurn(region, 0, fields + keys, len);
    LieInTurn(region, 0, fields, keys);
    assert region[0] == region[0..4][0] && region[1] == region[0..4][1] && region[2] == region[0..4][2];
    Le32ReadsBack(region, 4, f.keys);
    Le32ReadsBack(region, 8, EncodedLen(f));
  }

  /** A filter at the front of a region reads back as written, an absent one as none. */
  lemma ParseReadsBack(f: Filter, rest: Bytes)
    requires Fits(f)
    ensures Parse(Encode(f) + rest) == (if f.kind == KIND_ABSENT then None else Some(f), EncodedLen(f))
  {
    var region := Encode(f) + rest;
    assert region[..HEADER_LEN] == Head(f);
    HeadLies(region, f);
    assert region[HEADER_LEN..EncodedLen(f)] == f.body;
  }

  /** A filter cut short reads back as none, and takes all there is. */
  lemma CutParsesToNone(f: Filter, n: nat)
    requires Fits(f) && n < EncodedLen(f)
    ensures Parse(Encode(f)[..n]) == (None, n)
  {
    var region := Encode(f)[..n];
    if n >= HEADER_LEN {
      assert region[..HEADER_LEN] == Head(f);
      HeadLies(region, f);
    }
  }

  /** The filters of so many partitions, in the order they were laid. */
  function Parsed(region: Bytes, partitions: nat): (r: seq<Option<Filter>>)
    ensures |r| == partitions
    decreases partitions
  {
    if partitions == 0 then []
    else if region == [] then [None] + Parsed([], partitions - 1)
    else var one := Parse(region); [one.0] + Parsed(region[one.1..], partitions - 1)
  }

  /** The walk over a footer's filter region. */
  method ParseRegion(region: Bytes, partitions: nat) returns (filters: seq<Option<Filter>>)
    ensures filters == Parsed(region, partitions)
  {
    filters := [];
    var at := 0;
    assert region[0..] == region;
    while |filters| < partitions
      invariant 0 <= at <= |region| && |filters| <= partitions
      invariant filters + Parsed(region[at..], partitions - |filters|) == Parsed(region, partitions)
    {
      var filter, next := ParseNext(region, at, filters, partitions - |filters|);
      filters, at := filters + [filter], next;
    }
  }

  method ParseNext(region: Bytes, at: nat, ghost filters: seq<Option<Filter>>, ghost left: nat)
    returns (filter: Option<Filter>, next: nat)
    requires at <= |region| && left > 0
    ensures next <= |region|
    ensures filters + Parsed(region[at..], left) == filters + [filter] + Parsed(region[next..], left - 1)
  {
    if at >= |region| {
      filter, next := None, at;
    } else {
      var one := Parse(region[at..]);
      filter, next := one.0, at + one.1;
      assert region[at..][one.1..] == region[next..];
    }
    assert Parsed(region[at..], left) == [filter] + Parsed(region[next..], left - 1);
  }

  predicate AllFit(filters: seq<Filter>) { forall i {:trigger filters[i]} :: 0 <= i < |filters| ==> Fits(filters[i]) }

  /** Filters written one behind the other. */
  function RegionOf(filters: seq<Filter>): Bytes
    requires AllFit(filters)
    decreases |filters|
  {
    if filters == [] then [] else Encode(filters[0]) + RegionOf(filters[1..])
  }

  /** Where a region is cut, every filter wholly before the cut reads back and no other does. */
  ghost predicate ReadsUpTo(read: seq<Option<Filter>>, filters: seq<Filter>, n: nat)
    requires AllFit(filters)
    decreases |filters|
  {
    |read| == |filters|
    && (filters != [] ==>
      if EncodedLen(filters[0]) <= n
      then read[0] == (if filters[0].kind == KIND_ABSENT then None else Some(filters[0]))
        && ReadsUpTo(read[1..], filters[1..], n - EncodedLen(filters[0]))
      else forall i {:trigger read[i]} :: 0 <= i < |read| ==> read[i] == None)
  }

  lemma {:induction false} NothingParses(partitions: nat)
    ensures forall i {:trigger Parsed([], partitions)[i]} :: 0 <= i < partitions ==> Parsed([], partitions)[i] == None
    decreases partitions
  {
    if partitions > 0 { NothingParses(partitions - 1); }
  }

  /** Any front part of a region reads back just the filters it holds whole. */
  lemma {:induction false} CutRegionReadsBack(filters: seq<Filter>, n: nat)
    requires AllFit(filters) && n <= |RegionOf(filters)|
    ensures ReadsUpTo(Parsed(RegionOf(filters)[..n], |filters|), filters, n)
    decreases |filters|
  {
    if filters != [] {
      var first, rest, left := filters[0], RegionOf(filters[1..]), |filters| - 1;
      var region := RegionOf(filters)[..n];
      NothingParses(left);
      if EncodedLen(first) <= n {
        var m := n - EncodedLen(first);
        assert region == Encode(first) + rest[..m];
        ParseReadsBack(first, rest[..m]);
        assert region[EncodedLen(first)..] == rest[..m];
        assert Parsed(region, |filters|)[1..] == Parsed(rest[..m], left);
        CutRegionReadsBack(filters[1..], m);
      } else {
        assert region == Encode(first)[..n];
        CutParsesToNone(first, n);
        NothingParses(|filters|);
        assert region[n..] == [];
      }
    }
  }

  /** A whole region reads back every filter it was written with. */
  lemma {:induction false} RegionReadsBack(filters: seq<Filter>)
    requires AllFit(filters)
    ensures forall i {:trigger filters[i]} :: 0 <= i < |filters| ==>
      Parsed(RegionOf(filters), |filters|)[i] == (if filters[i].kind == KIND_ABSENT then None else Some(filters[i]))
    decreases |filters|
  {
    if filters != [] {
      var first, rest := filters[0], RegionOf(filters[1..]);
      ParseReadsBack(first, rest);
      assert (Encode(first) + rest)[EncodedLen(first)..] == rest;
      RegionReadsBack(filters[1..]);
      forall i {:trigger filters[i]} | 0 < i < |filters|
        ensures Parsed(RegionOf(filters), |filters|)[i] == Parsed(rest, |filters| - 1)[i - 1]
        ensures filters[i] == filters[1..][i - 1]
      {}
    }
  }
}
