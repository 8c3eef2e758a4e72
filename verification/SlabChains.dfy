/**
 The doubly linked chains of one cache shard, one per bucket of segments, and its free list,
 all threaded through the links of the same slots.
 */
module SlabChains {
  import opened Common
  import opened SlabTable

  // ---- chains of one segment's slots, and the free list ----

  function First(list: seq<int>): int { if list == [] then NONE else list[0] }

  function Last(list: seq<int>): int { if list == [] then NONE else list[|list| - 1] }

  function After(list: seq<int>, i: int): int
    requires 0 <= i < |list|
  {
    if i + 1 < |list| then list[i + 1] else NONE
  }

  function Before(list: seq<int>, i: int): int
    requires 0 <= i < |list|
  {
    if i > 0 then list[i - 1] else NONE
  }

  /** The bucket a key's chain hangs in, hashed on its segment alone. */
  function Bucket(mix: Key -> nat, key: Key, n: int): (r: int)
    requires n > 0
    ensures 0 <= r < n
  {
    Home(mix, SegmentKey(SegmentOf(key)), n)
  }

  /** The slots of the list are linked both ways in its order. */
  ghost predicate Linked<V>(slots: seq<Slot<V>>, list: seq<int>) {
    && Distinct(list)
    && (forall i :: 0 <= i < |list| ==> 0 <= list[i] < |slots|)
    && (forall i {:trigger slots[list[i]]} :: 0 <= i < |list| ==>
          slots[list[i]].next == After(list, i) && slots[list[i]].prev == Before(list, i))
  }

  ghost predicate BucketOk<V>(slots: seq<Slot<V>>, head: int, list: seq<int>, b: int, n: int, mix: Key -> nat)
    requires n > 0
  {
    && head == First(list)
    && Linked(slots, list)
    && (forall i {:trigger slots[list[i]]} :: 0 <= i < |list| ==> Bucket(mix, slots[list[i]].key, n) == b)
  }

  /** Every bucket is a doubly linked list of slots that hash to it. */
  ghost predicate ChainsOk<V>(slots: seq<Slot<V>>, chains: seq<int>, chain: seq<seq<int>>, mix: Key -> nat) {
    && |chains| == |chain| > 0
    && |slots| <= NONE
    && forall b {:trigger BucketOk(slots, chains[b], chain[b], b, |chains|, mix)} :: 0 <= b < |chains| ==>
         BucketOk(slots, chains[b], chain[b], b, |chains|, mix)
  }

  /** Whether a slot hangs in the chain its key hashes to. */
  ghost predicate Chained<V>(slots: seq<Slot<V>>, chain: seq<seq<int>>, mix: Key -> nat, s: int)
    requires 0 <= s < |slots| && |chain| > 0
  {
    s in chain[Bucket(mix, slots[s].key, |chain|)]
  }

  /** The free list runs from its head to its tail through `next`. */
  ghost predicate FreeOk<V>(slots: seq<Slot<V>>, free: int, freeTail: int, frees: seq<int>) {
    && Distinct(frees)
    && free == First(frees) && freeTail == Last(frees)
    && (forall i :: 0 <= i < |frees| ==> 0 <= frees[i] < |slots|)
    && (forall i {:trigger slots[frees[i]]} :: 0 <= i < |frees| ==> slots[frees[i]].next == After(frees, i))
  }

  /** Two slabs that differ in their links alone. */
  ghost predicate SameEntries<V>(a: seq<Slot<V>>, b: seq<Slot<V>>) {
    && |a| == |b|
    && forall s :: 0 <= s < |a| ==>
      a[s].key == b[s].key && a[s].val == b[s].val && a[s].weight == b[s].weight && a[s].hot == b[s].hot
  }

  /** A bucket whose slots were not touched stays as it was. */
  lemma FrameBucket<V>(slots: seq<Slot<V>>, after: seq<Slot<V>>, head: int, list: seq<int>, b: int, n: int,
                       mix: Key -> nat, touched: set<int>)
    requires n > 0 && BucketOk(slots, head, list, b, n, mix)
    requires |after| == |slots| && forall s :: 0 <= s < |slots| && s !in touched ==> after[s] == slots[s]
    requires forall s :: s in touched && 0 <= s < |slots| ==> Bucket(mix, slots[s].key, n) != b
    ensures BucketOk(after, head, list, b, n, mix)
  {
    forall i | 0 <= i < |list| ensures after[list[i]] == slots[list[i]] {
      assert Bucket(mix, slots[list[i]].key, n) == b;
    }
  }

  /** The slab after a slot was put in front of a chain. */
  function LinkedFront<V>(slots: seq<Slot<V>>, slot: int, head: int): (r: seq<Slot<V>>)
    requires 0 <= slot < |slots| && (head == NONE || 0 <= head < |slots|)
  {
    var linked := slots[slot := slots[slot].(next := head, prev := NONE)];
    if head == NONE then linked else linked[head := linked[head].(prev := slot)]
  }

  lemma LinkKeepsChains<V>(slots: seq<Slot<V>>, chains: seq<int>, chain: seq<seq<int>>, mix: Key -> nat, slot: int)
    requires ChainsOk(slots, chains, chain, mix)
    requires 0 <= slot < |slots| && !Chained(slots, chain, mix, slot)
    ensures var b := Bucket(mix, slots[slot].key, |chains|);
            && (chains[b] == NONE || 0 <= chains[b] < |slots|)
            && ChainsOk(LinkedFront(slots, slot, chains[b]), chains[b := slot], chain[b := [slot] + chain[b]], mix)
  {
    var n := |chains|;
    var b := Bucket(mix, slots[slot].key, n);
    assert BucketOk(slots, chains[b], chain[b], b, n, mix);
    var after := LinkedFront(slots, slot, chains[b]);
    var heads, lists := chains[b := slot], chain[b := [slot] + chain[b]];
    assert BucketOk(after, slot, [slot] + chain[b], b, n, mix);
    forall c | 0 <= c < n && c != b ensures BucketOk(after, heads[c], lists[c], c, n, mix) {
      assert BucketOk(slots, chains[c], chain[c], c, n, mix);
      FrameBucket(slots, after, chains[c], chain[c], c, n, mix, {slot, chains[b]});
    }
  }

  /** The slab after a slot's neighbours were linked past it. */
  function LinkedPast<V>(slots: seq<Slot<V>>, slot: int): (r: seq<Slot<V>>)
    requires 0 <= slot < |slots|
    requires slots[slot].prev == NONE || 0 <= slots[slot].prev < |slots|
    requires slots[slot].next == NONE || 0 <= slots[slot].next < |slots|
  {
    var prev, next := slots[slot].prev, slots[slot].next;
    var past := if prev == NONE then slots else slots[prev := slots[prev].(next := next)];
    if next == NONE then past else past[next := past[next].(prev := prev)]
  }

  lemma UnlinkKeepsList<V>(slots: seq<Slot<V>>, list: seq<int>, i: int)
    requires |slots| <= NONE && Linked(slots, list) && 0 <= i < |list|
    ensures slots[list[i]].prev == Before(list, i) && slots[list[i]].next == After(list, i)
    ensures Linked(LinkedPast(slots, list[i]), Without(list, i))
    ensures First(Without(list, i)) == if i == 0 then After(list, 0) else First(list)
  {
    WithoutKeeps(list, i);
    var after, rest := LinkedPast(slots, list[i]), Without(list, i);
    forall j | 0 <= j < |rest|
      ensures 0 <= rest[j] < |after| && after[rest[j]].next == After(rest, j) && after[rest[j]].prev == Before(rest, j)
    {
      var was := if j < i then j else j + 1;
      assert rest[j] == list[was];
      assert after[list[was]].next == if was == i - 1 then After(list, i) else After(list, was);
      assert after[list[was]].prev == if was == i + 1 then Before(list, i) else Before(list, was);
      assert j + 1 < |rest| ==> rest[j + 1] == list[if j + 1 < i then j + 1 else j + 2];
      assert j > 0 ==> rest[j - 1] == list[if j - 1 < i then j - 1 else j];
    }
  }

  lemma UnlinkKeepsBucket<V>(slots: seq<Slot<V>>, head: int, list: seq<int>, b: int, n: int, mix: Key -> nat, i: int)
    requires n > 0 && |slots| <= NONE && BucketOk(slots, head, list, b, n, mix) && 0 <= i < |list|
    ensures slots[list[i]].prev == Before(list, i) && slots[list[i]].next == After(list, i)
    ensures BucketOk(LinkedPast(slots, list[i]), if i == 0 then After(list, 0) else head, Without(list, i), b, n, mix)
  {
    UnlinkKeepsList(slots, list, i);
    var after, rest := LinkedPast(slots, list[i]), Without(list, i);
    forall j | 0 <= j < |rest| ensures Bucket(mix, after[rest[j]].key, n) == b {
      assert rest[j] == list[if j < i then j else j + 1];
    }
  }

  lemma UnlinkKeepsChains<V>(slots: seq<Slot<V>>, chains: seq<int>, chain: seq<seq<int>>, mix: Key -> nat, b: int,
                             i: int)
    requires ChainsOk(slots, chains, chain, mix)
    requires 0 <= b < |chains| && 0 <= i < |chain[b]|
    ensures var slot := chain[b][i];
            && 0 <= slot < |slots|
            && Bucket(mix, slots[slot].key, |chains|) == b
            && (slots[slot].prev == NONE || 0 <= slots[slot].prev < |slots|)
            && (slots[slot].next == NONE || 0 <= slots[slot].next < |slots|)
            && (slots[slot].prev == NONE <==> i == 0)
            && ChainsOk(LinkedPast(slots, slot), if i == 0 then chains[b := slots[slot].next] else chains,
                        chain[b := Without(chain[b], i)], mix)
  {
    var n := |chains|;
    assert BucketOk(slots, chains[b], chain[b], b, n, mix);
    var slot := chain[b][i];
    UnlinkKeepsBucket(slots, chains[b], chain[b], b, n, mix, i);
    var after := LinkedPast(slots, slot);
    var heads := if i == 0 then chains[b := slots[slot].next] else chains;
    var lists := chain[b := Without(chain[b], i)];
    forall c | 0 <= c < n && c != b ensures BucketOk(after, heads[c], lists[c], c, n, mix) {
      assert BucketOk(slots, chains[c], chain[c], c, n, mix);
      FrameBucket(slots, after, chains[c], chain[c], c, n, mix, {slots[slot].prev, slots[slot].next});
    }
  }

  /** A slot outside every chain may change its links and its value and leave the chains as they are. */
  lemma FrameChains<V>(slots: seq<Slot<V>>, after: seq<Slot<V>>, chains: seq<int>, chain: seq<seq<int>>,
                       mix: Key -> nat, touched: set<int>)
    requires ChainsOk(slots, chains, chain, mix)
    requires |slots| <= |after| <= NONE
    requires forall s :: 0 <= s < |slots| && s !in touched ==> after[s] == slots[s]
    requires forall s :: 0 <= s < |slots| && s in touched ==> !Chained(slots, chain, mix, s)
    ensures ChainsOk(after, chains, chain, mix)
  {
    forall b | 0 <= b < |chains| ensures BucketOk(after, chains[b], chain[b], b, |chains|, mix) {
      assert BucketOk(slots, chains[b], chain[b], b, |chains|, mix);
      forall i | 0 <= i < |chain[b]| ensures after[chain[b][i]] == slots[chain[b][i]] {
        assert Chained(slots, chain, mix, chain[b][i]);
      }
    }
  }

  /** The chained slots are the held ones, but for those going. */
  ghost predicate AllChained<V>(slots: seq<Slot<V>>, chain: seq<seq<int>>, mix: Key -> nat, going: set<int>)
    requires |chain| > 0
  {
    forall s {:trigger Chained(slots, chain, mix, s)} :: 0 <= s < |slots| ==>
      (Chained(slots, chain, mix, s) <==> slots[s].val.Some? && s !in going)
  }

  /** The slots on the free list are the vacant ones. */
  ghost predicate AllFree<V>(slots: seq<Slot<V>>, frees: seq<int>) {
    forall s {:trigger s in frees} :: 0 <= s < |slots| ==> (s in frees <==> slots[s].val.None?)
  }

  /** An unlink touches only slots that hang in the same chain, and takes exactly one slot out of it. */
  lemma UnlinkTouches<V>(slots: seq<Slot<V>>, chains: seq<int>, chain: seq<seq<int>>, mix: Key -> nat, b: int, i: int)
    requires ChainsOk(slots, chains, chain, mix)
    requires 0 <= b < |chains| && 0 <= i < |chain[b]|
    ensures var slot, lists := chain[b][i], chain[b := Without(chain[b], i)];
            && 0 <= slot < |slots|
            && (slots[slot].prev == NONE
              || (0 <= slots[slot].prev < |slots| && Chained(slots, chain, mix, slots[slot].prev)))
            && (slots[slot].next == NONE
              || (0 <= slots[slot].next < |slots| && Chained(slots, chain, mix, slots[slot].next)))
            && (forall s ::
              0 <= s < |slots| ==> (Chained(slots, lists, mix, s) <==> s != slot && Chained(slots, chain, mix, s)))
  {
    assert BucketOk(slots, chains[b], chain[b], b, |chains|, mix);
    WithoutKeeps(chain[b], i);
    assert slots[chain[b][i]].prev == Before(chain[b], i);
    if i > 0 { assert Chained(slots, chain, mix, chain[b][i - 1]); }
    if i + 1 < |chain[b]| { assert Chained(slots, chain, mix, chain[b][i + 1]); }
  }

  /** The slab after a slot went back to the end of the free list. */
  function Vacated<V>(slots: seq<Slot<V>>, at: int, freeTail: int): (r: seq<Slot<V>>)
    requires 0 <= at < |slots| && (freeTail == NONE || 0 <= freeTail < |slots|)
  {
    var vacant := slots[at := slots[at].(val := None, hot := false, weight := 0, next := NONE)];
    if freeTail == NONE then vacant else vacant[freeTail := vacant[freeTail].(next := at)]
  }

  lemma VacatedKeepsFree<V>(slots: seq<Slot<V>>, free: int, freeTail: int, frees: seq<int>, at: int)
    requires |slots| <= NONE && FreeOk(slots, free, freeTail, frees) && AllFree(slots, frees)
    requires 0 <= at < |slots| && slots[at].val.Some?
    ensures freeTail == NONE || (0 <= freeTail < |slots| && slots[freeTail].val.None?)
    ensures FreeOk(Vacated(slots, at, freeTail), if freeTail == NONE then at else free, at, frees + [at])
    ensures AllFree(Vacated(slots, at, freeTail), frees + [at])
  {
    assert at !in frees;
    if frees != [] { assert frees[|frees| - 1] in frees; }
    var after, list := Vacated(slots, at, freeTail), frees + [at];
    forall i | 0 <= i < |list| ensures after[list[i]].next == After(list, i) {
      if i < |frees| { assert slots[frees[i]].next == After(frees, i); }
    }
  }
}
