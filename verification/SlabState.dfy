/**
 What one cache shard keeps: its slab, table, chains and free list agree with one plain map.
 Every step of a shard's operations is a change of this state, and each is shown to keep it.
 */
module SlabState {
  import opened Common
  import opened SlabTable
  import opened SlabChains

  /** At least so many places for each entry, or the table doubles. */
  const SPREAD: int := 2

  /** What the cache holds under one key. */
  datatype Entry<V> = Entry(value: V, weight: nat, hot: bool)

  /** The fields of a shard, taken together. */
  datatype State<V> = State(slots: seq<Slot<V>>, free: int, freeTail: int, table: seq<int>, chains: seq<int>,
                            filled: int, hand: int, bytes: int)

  /** What the fields stand for: the map held, and where each key and each slot is. */
  datatype View<V> = View(contents: map<Key, Entry<V>>, slotOf: map<Key, int>, placeOf: map<Key, int>,
                          chain: seq<seq<int>>, frees: seq<int>)

  // ---- what the slab holds, as a map ----

  function EntryOf<V>(slot: Slot<V>): Entry<V>
    requires slot.val.Some?
  {
    Entry(slot.val.value, slot.weight, slot.hot)
  }

  /** The map shows exactly the entries of the held slots. */
  ghost predicate Shows<V>(slots: seq<Slot<V>>, slotOf: map<Key, int>, contents: map<Key, Entry<V>>) {
    && contents.Keys == slotOf.Keys
    && forall k :: k in contents ==>
      0 <= slotOf[k] < |slots| && slots[slotOf[k]].val.Some? && contents[k] == EntryOf(slots[slotOf[k]])
  }

  /** What the entries of a map weigh together. */
  ghost function TotalWeight<V>(m: map<Key, Entry<V>>): int
    decreases |m|
  {
    if exists k :: k in m then
      var k :| k in m;
      m[k].weight + TotalWeight(m - {k})
    else 0
  }

  lemma {:induction false} TotalWeightWithout<V>(m: map<Key, Entry<V>>, k: Key)
    requires k in m
    ensures TotalWeight(m) == m[k].weight + TotalWeight(m - {k})
    decreases |m|
  {
    var j :| j in m && TotalWeight(m) == m[j].weight + TotalWeight(m - {j});
    if j != k {
      TotalWeightWithout(m - {j}, k);
      TotalWeightWithout(m - {k}, j);
      assert m - {j} - {k} == m - {k} - {j};
    }
  }

  lemma TotalWeightWith<V>(m: map<Key, Entry<V>>, k: Key, e: Entry<V>)
    requires k !in m
    ensures TotalWeight(m[k := e]) == TotalWeight(m) + e.weight
  {
    TotalWeightWithout(m[k := e], k);
    assert m[k := e] - {k} == m;
  }

  lemma {:induction false} TotalWeightPositive<V>(m: map<Key, Entry<V>>)
    ensures TotalWeight(m) >= 0
    decreases |m|
  {
    if k :| k in m {
      TotalWeightWithout(m, k);
      TotalWeightPositive(m - {k});
    }
  }

  predicate PowerOfTwo(n: int) { n == 1 || (n > 1 && n % 2 == 0 && PowerOfTwo(n / 2)) }

  /** The keys the table places: the held ones but for the slots of `unplaced`. */
  ghost predicate AllPlaced(slotOf: map<Key, int>, placeOf: map<Key, int>, unplaced: set<int>) {
    && placeOf.Keys <= slotOf.Keys
    && forall k :: k in slotOf ==> (k in placeOf <==> slotOf[k] !in unplaced)
  }

  /** Few enough entries for the table, which is a power of two, and the counts are those of the map. */
  ghost predicate CountsOk<V>(st: State<V>, contents: map<Key, Entry<V>>) {
    && st.filled == |contents| && st.bytes == TotalWeight(contents)
    && st.filled * SPREAD < |st.table| && PowerOfTwo(|st.table|) && |st.table| >= 16
    && 0 <= st.hand && (st.hand < |st.slots| || st.hand == |st.slots| == 0)
  }

  /** All a shard keeps, but for held slots on their way into or out of the table and the chains. */
  ghost predicate OkBut<V>(st: State<V>, v: View<V>, mix: Key -> nat, unplaced: set<int>, unchained: set<int>) {
    var ok :=
      && SlotsOk(st.slots, v.slotOf) && Shows(st.slots, v.slotOf, v.contents)
      && TableOk(st.table, st.slots, v.slotOf, v.placeOf, mix) && AllPlaced(v.slotOf, v.placeOf, unplaced)
      && ChainsOk(st.slots, st.chains, v.chain, mix) && |st.chains| == |st.table|
      && AllChained(st.slots, v.chain, mix, unchained)
      && FreeOk(st.slots, st.free, st.freeTail, v.frees) && AllFree(st.slots, v.frees)
      && CountsOk(st, v.contents);
    ok
  }

  ghost predicate Ok<V>(st: State<V>, v: View<V>, mix: Key -> nat) {
    OkBut(st, v, mix, {}, {})
  }

  /** A shard with room for another key leaves a place of its table empty. */
  lemma TableHasGap<V>(st: State<V>, v: View<V>, mix: Key -> nat, unplaced: set<int>, unchained: set<int>)
    requires OkBut(st, v, mix, unplaced, unchained)
    ensures |v.placeOf| <= |v.contents| == st.filled && |v.placeOf| < |st.table|
  {
    SubsetSize(v.placeOf.Keys, v.contents.Keys);
    assert |v.placeOf.Keys| == |v.placeOf| && |v.contents.Keys| == |v.contents|;
  }

  lemma {:induction false} SubsetSize<T>(a: set<T>, b: set<T>)
    requires a <= b
    ensures |a| <= |b|
  {
    assert b == a + (b - a);
  }

  /** Changing links alone changes neither what is held nor where the table finds it. */
  lemma SameEntriesKeep<V>(a: seq<Slot<V>>, b: seq<Slot<V>>, table: seq<int>, v: View<V>, mix: Key -> nat)
    requires SameEntries(a, b)
    requires SlotsOk(a, v.slotOf) && Shows(a, v.slotOf, v.contents) && TableOk(table, a, v.slotOf, v.placeOf, mix)
    ensures SlotsOk(b, v.slotOf) && Shows(b, v.slotOf, v.contents) && TableOk(table, b, v.slotOf, v.placeOf, mix)
  {
    forall k | k in v.placeOf ensures Reachable(table, mix, k, v.placeOf[k]) {}
  }

  /** A free list whose slots were not touched stays as it was. */
  lemma FrameFree<V>(a: seq<Slot<V>>, b: seq<Slot<V>>, free: int, freeTail: int, frees: seq<int>)
    requires FreeOk(a, free, freeTail, frees) && AllFree(a, frees) && SameEntries(a, b)
    requires forall s :: 0 <= s < |a| && a[s].val.None? ==> a[s] == b[s]
    ensures FreeOk(b, free, freeTail, frees) && AllFree(b, frees)
  {
    forall i | 0 <= i < |frees| ensures b[frees[i]].next == After(frees, i) {
      assert frees[i] in frees;
      assert a[frees[i]].next == After(frees, i);
    }
  }

  // ---- the table ----

  lemma PlaceKeeps<V>(st: State<V>, v: View<V>, mix: Key -> nat, unplaced: set<int>, unchained: set<int>,
                      table: seq<int>, placeOf: map<Key, int>, slot: int)
    requires OkBut(st, v, mix, unplaced, unchained) && 0 <= slot < |st.slots| && st.slots[slot].val.Some?
    requires slot in unplaced
    requires |table| == |st.table| && TableOk(table, st.slots, v.slotOf, placeOf, mix)
    requires placeOf.Keys == v.placeOf.Keys + {st.slots[slot].key}
    ensures OkBut(st.(table := table), v.(placeOf := placeOf), mix, unplaced - {slot}, unchained)
  {
    assert AllPlaced(v.slotOf, placeOf, unplaced - {slot});
  }

  lemma UnplaceKeeps<V>(st: State<V>, v: View<V>, mix: Key -> nat, unplaced: set<int>, unchained: set<int>,
                        table: seq<int>, placeOf: map<Key, int>, slot: int)
    requires OkBut(st, v, mix, unplaced, unchained) && 0 <= slot < |st.slots| && st.slots[slot].val.Some?
    requires |table| == |st.table| && TableOk(table, st.slots, v.slotOf, placeOf, mix)
    requires placeOf.Keys == v.placeOf.Keys - {st.slots[slot].key}
    ensures OkBut(st.(table := table), v.(placeOf := placeOf), mix, unplaced + {slot}, unchained)
  {
    assert AllPlaced(v.slotOf, placeOf, unplaced + {slot});
  }

  // ---- the chains ----

  /** The state after a slot was put in front of its chain. */
  function Link<V>(st: State<V>, mix: Key -> nat, slot: int): State<V>
    requires 0 <= slot < |st.slots| && |st.chains| > 0
    requires var head := st.chains[Bucket(mix, st.slots[slot].key, |st.chains|)]; head == NONE || 0 <= head < |st.slots|
  {
    var b := Bucket(mix, st.slots[slot].key, |st.chains|);
    st.(slots := LinkedFront(st.slots, slot, st.chains[b]), chains := st.chains[b := slot])
  }

  ghost function LinkView<V>(v: View<V>, b: int, slot: int): View<V>
    requires 0 <= b < |v.chain|
  {
    v.(chain := v.chain[b := [slot] + v.chain[b]])
  }

  lemma LinkKeeps<V>(st: State<V>, v: View<V>, mix: Key -> nat, unplaced: set<int>, unchained: set<int>, slot: int)
    requires OkBut(st, v, mix, unplaced, unchained)
    requires 0 <= slot < |st.slots| && st.slots[slot].val.Some? && slot in unchained
    ensures var b := Bucket(mix, st.slots[slot].key, |st.chains|);
            && (st.chains[b] == NONE || 0 <= st.chains[b] < |st.slots|)
            && SameEntries(st.slots, Link(st, mix, slot).slots)
            && OkBut(Link(st, mix, slot), LinkView(v, b, slot), mix, unplaced, unchained - {slot})
  {
    var b := Bucket(mix, st.slots[slot].key, |st.chains|);
    assert !Chained(st.slots, v.chain, mix, slot);
    LinkKeepsChains(st.slots, st.chains, v.chain, mix, slot);
    var after := Link(st, mix, slot).slots;
    SameEntriesKeep(st.slots, after, st.table, v, mix);
    HeadIsChained(st, v, mix, b);
    FrameFree(st.slots, after, st.free, st.freeTail, v.frees);
    var lists := v.chain[b := [slot] + v.chain[b]];
    forall s | 0 <= s < |after|
      ensures Chained(after, lists, mix, s) <==> after[s].val.Some? && s !in unchained - {slot}
    {
      assert Chained(after, lists, mix, s) <==> s == slot || Chained(st.slots, v.chain, mix, s);
    }
  }

  lemma HeadIsChained<V>(st: State<V>, v: View<V>, mix: Key -> nat, b: int)
    requires ChainsOk(st.slots, st.chains, v.chain, mix) && 0 <= b < |st.chains|
    ensures st.chains[b] == NONE || (0 <= st.chains[b] < |st.slots| && Chained(st.slots, v.chain, mix, st.chains[b]))
  {
    assert BucketOk(st.slots, st.chains[b], v.chain[b], b, |st.chains|, mix);
    if v.chain[b] != [] {
      assert Bucket(mix, st.slots[v.chain[b][0]].key, |st.chains|) == b;
    }
  }

  /** The state after a slot was taken out of its chain. */
  function Unlink<V>(st: State<V>, mix: Key -> nat, slot: int): State<V>
    requires 0 <= slot < |st.slots| && |st.chains| > 0
    requires st.slots[slot].prev == NONE || 0 <= st.slots[slot].prev < |st.slots|
    requires st.slots[slot].next == NONE || 0 <= st.slots[slot].next < |st.slots|
  {
    st.(slots := LinkedPast(st.slots, slot),
        chains := if st.slots[slot].prev == NONE
                  then st.chains[Bucket(mix, st.slots[slot].key, |st.chains|) := st.slots[slot].next] else st.chains)
  }

  ghost function UnlinkView<V>(v: View<V>, b: int, i: int): View<V>
    requires 0 <= b < |v.chain| && 0 <= i < |v.chain[b]|
  {
    v.(chain := v.chain[b := Without(v.chain[b], i)])
  }

  lemma UnlinkKeeps<V>(st: State<V>, v: View<V>, mix: Key -> nat, unplaced: set<int>, unchained: set<int>, b: int,
                       i: int)
    requires OkBut(st, v, mix, unplaced, unchained)
    requires 0 <= b < |v.chain| && 0 <= i < |v.chain[b]|
    ensures var slot := v.chain[b][i];
            && 0 <= slot < |st.slots| && Bucket(mix, st.slots[slot].key, |st.chains|) == b
            && (st.slots[slot].prev == NONE || 0 <= st.slots[slot].prev < |st.slots|)
            && (st.slots[slot].next == NONE || 0 <= st.slots[slot].next < |st.slots|)
            && SameEntries(st.slots, Unlink(st, mix, slot).slots)
            && OkBut(Unlink(st, mix, slot), UnlinkView(v, b, i), mix, unplaced, unchained + {slot})
  {
    UnlinkKeepsChains(st.slots, st.chains, v.chain, mix, b, i);
    UnlinkTouches(st.slots, st.chains, v.chain, mix, b, i);
    var slot := v.chain[b][i];
    var after := LinkedPast(st.slots, slot);
    SameEntriesKeep(st.slots, after, st.table, v, mix);
    FrameFree(st.slots, after, st.free, st.freeTail, v.frees);
    var lists := v.chain[b := Without(v.chain[b], i)];
    forall s | 0 <= s < |after|
      ensures Chained(after, lists, mix, s) <==> after[s].val.Some? && s !in unchained + {slot}
    {
      assert Chained(after, lists, mix, s) <==> Chained(st.slots, lists, mix, s);
    }
  }

  // ---- slots filled and given back ----

  /** A slot nothing refers to becomes the last of the vacancies. */
  function Vacate<V>(st: State<V>, at: int): State<V>
    requires 0 <= at < |st.slots| && (st.freeTail == NONE || 0 <= st.freeTail < |st.slots|)
  {
    st.(slots := Vacated(st.slots, at, st.freeTail), free := if st.freeTail == NONE then at else st.free,
      freeTail := at,
        filled := st.filled - 1, bytes := st.bytes - st.slots[at].weight)
  }

  ghost function VacateView<V>(v: View<V>, key: Key, at: int): View<V> {
    v.(contents := v.contents - {key}, slotOf := v.slotOf - {key}, frees := v.frees + [at])
  }

  lemma VacateKeeps<V>(st: State<V>, v: View<V>, mix: Key -> nat, unplaced: set<int>, unchained: set<int>, at: int)
    requires OkBut(st, v, mix, unplaced, unchained)
    requires 0 <= at < |st.slots| && st.slots[at].val.Some? && at in unplaced && at in unchained
    ensures st.freeTail == NONE || 0 <= st.freeTail < |st.slots|
    ensures OkBut(Vacate(st, at), VacateView(v, st.slots[at].key, at), mix, unplaced - {at}, unchained - {at})
  {
    var key := st.slots[at].key;
    VacatedKeepsFree(st.slots, st.free, st.freeTail, v.frees, at);
    VacatedKeepsRest(st, v, mix, unchained, at);
    VacatedKeepsTable(st, v, mix, at);
    TotalWeightWithout(v.contents, key);
    assert AllPlaced(v.slotOf - {key}, v.placeOf, unplaced - {at});
  }

  lemma VacatedKeepsRest<V>(st: State<V>, v: View<V>, mix: Key -> nat, unchained: set<int>, at: int)
    requires SlotsOk(st.slots, v.slotOf) && Shows(st.slots, v.slotOf, v.contents)
    requires ChainsOk(st.slots, st.chains, v.chain, mix) && AllChained(st.slots, v.chain, mix, unchained)
    requires 0 <= at < |st.slots| && st.slots[at].val.Some? && at in unchained
    requires st.freeTail == NONE || (0 <= st.freeTail < |st.slots| && st.slots[st.freeTail].val.None?)
    ensures var after, key := Vacated(st.slots, at, st.freeTail), st.slots[at].key;
            && SlotsOk(after, v.slotOf - {key}) && Shows(after, v.slotOf - {key}, v.contents - {key})
            && ChainsOk(after, st.chains, v.chain, mix) && AllChained(after, v.chain, mix, unchained - {at})
  {
    var after := Vacated(st.slots, at, st.freeTail);
    assert !Chained(st.slots, v.chain, mix, at);
    assert st.freeTail != NONE ==> !Chained(st.slots, v.chain, mix, st.freeTail);
    FrameChains(st.slots, after, st.chains, v.chain, mix, {at, st.freeTail});
    forall s | 0 <= s < |after|
      ensures Chained(after, v.chain, mix, s) <==> after[s].val.Some? && s !in unchained - {at}
    {
      assert Chained(after, v.chain, mix, s) <==> Chained(st.slots, v.chain, mix, s);
    }
  }

  lemma VacatedKeepsTable<V>(st: State<V>, v: View<V>, mix: Key -> nat, at: int)
    requires 0 <= at < |st.slots| && (st.freeTail == NONE || 0 <= st.freeTail < |st.slots|)
    requires TableOk(st.table, st.slots, v.slotOf, v.placeOf, mix) && st.slots[at].key !in v.placeOf
    ensures TableOk(st.table, Vacated(st.slots, at, st.freeTail), v.slotOf - {st.slots[at].key}, v.placeOf, mix)
  {
    var after := Vacated(st.slots, at, st.freeTail);
    assert forall s :: 0 <= s < |after| ==> after[s].key == st.slots[s].key;
    forall k | k in v.placeOf ensures Reachable(st.table, mix, k, v.placeOf[k]) {}
  }

  /** The state after an entry went into the oldest vacancy, or into a new slot when there is none. */
  function Fill<V>(st: State<V>, key: Key, value: V, weight: nat): State<V>
    requires st.free == NONE || 0 <= st.free < |st.slots|
  {
    if st.free == NONE then
      st.(slots := st.slots + [Slot(key, Some(value), weight, false, NONE, NONE)], filled := st.filled + 1,
        bytes := st.bytes + weight)
    else
      var next := st.slots[st.free].next;
      st.(slots := st.slots[st.free := st.slots[st.free].(key := key, val := Some(value), weight := weight,
        hot := false)],
          free := next, freeTail := if next == NONE then NONE else st.freeTail,
          filled := st.filled + 1, bytes := st.bytes + weight)
  }

  function FilledSlot<V>(st: State<V>): int { if st.free == NONE then |st.slots| else st.free }

  ghost function FillView<V>(v: View<V>, key: Key, value: V, weight: nat, slot: int): View<V> {
    v.(contents := v.contents[key := Entry(value, weight, false)], slotOf := v.slotOf[key := slot],
       frees := if v.frees == [] then [] else v.frees[1..])
  }

  lemma FillKeeps<V>(st: State<V>, v: View<V>, mix: Key -> nat, key: Key, value: V, weight: nat)
    requires Ok(st, v, mix) && key !in v.contents
    requires (st.filled + 1) * SPREAD < |st.table| && |st.slots| < NONE
    ensures st.free == NONE || 0 <= st.free < |st.slots|
    ensures var slot := FilledSlot(st);
            OkBut(Fill(st, key, value, weight), FillView(v, key, value, weight, slot), mix, {slot}, {slot})
  {
    if v.frees != [] { assert v.frees[0] in v.frees; }
    var slot, after := FilledSlot(st), Fill(st, key, value, weight);
    var w := FillView(v, key, value, weight, slot);
    FillKeepsFree(st, v, key, value, weight);
    assert slot < |st.slots| ==> !Chained(st.slots, v.chain, mix, slot);
    FrameChains(st.slots, after.slots, st.chains, v.chain, mix, {slot});
    FillKeepsEntries(st, v, key, value, weight);
    FillKeepsTable(st, v, mix, key, value, weight);
    FillKeepsChained(st, v, mix, key, value, weight);
    TotalWeightWith(v.contents, key, Entry(value, weight, false));
    assert AllPlaced(w.slotOf, w.placeOf, {slot});
  }

  lemma FillKeepsFree<V>(st: State<V>, v: View<V>, key: Key, value: V, weight: nat)
    requires FreeOk(st.slots, st.free, st.freeTail, v.frees) && AllFree(st.slots, v.frees) && |st.slots| < NONE
    requires st.free == NONE || 0 <= st.free < |st.slots|
    ensures var after := Fill(st, key, value, weight);
            && FreeOk(after.slots, after.free, after.freeTail, if v.frees == [] then [] else v.frees[1..])
            && AllFree(after.slots, if v.frees == [] then [] else v.frees[1..])
  {
    if v.frees != [] {
      var after, rest := Fill(st, key, value, weight), v.frees[1..];
      assert st.slots[v.frees[0]].next == After(v.frees, 0);
      FreeListPops(st.slots, after.slots, v.frees);
      forall s | 0 <= s < |after.slots| ensures s in rest <==> after.slots[s].val.None? {
        assert s in v.frees <==> st.slots[s].val.None?;
        assert v.frees == [v.frees[0]] + rest;
      }
    }
  }

  lemma FreeListPops<V>(slots: seq<Slot<V>>, after: seq<Slot<V>>, frees: seq<int>)
    requires Distinct(frees) && frees != [] && |after| == |slots|
    requires forall i :: 0 <= i < |frees| ==> 0 <= frees[i] < |slots|
    requires forall i {:trigger slots[frees[i]]} :: 0 <= i < |frees| ==> slots[frees[i]].next == After(frees, i)
    requires forall s :: 0 <= s < |slots| && s != frees[0] ==> after[s] == slots[s]
    ensures Distinct(frees[1..])
    ensures forall i {:trigger after[frees[1..][i]]} ::
      0 <= i < |frees[1..]| ==> after[frees[1..][i]].next == After(frees[1..], i)
  {
    var rest := frees[1..];
    forall i | 0 <= i < |rest| ensures after[rest[i]].next == After(rest, i) {
      assert rest[i] == frees[i + 1];
      assert slots[frees[i + 1]].next == After(frees, i + 1);
    }
  }

  lemma FillKeepsEntries<V>(st: State<V>, v: View<V>, key: Key, value: V, weight: nat)
    requires SlotsOk(st.slots, v.slotOf) && Shows(st.slots, v.slotOf, v.contents)
    requires key !in v.contents && |st.slots| < NONE
    requires st.free == NONE || (0 <= st.free < |st.slots| && st.slots[st.free].val.None?)
    ensures var after, w := Fill(st, key, value, weight), FillView(v, key, value, weight, FilledSlot(st));
            SlotsOk(after.slots, w.slotOf) && Shows(after.slots, w.slotOf, w.contents)
  {
    var after := Fill(st, key, value, weight);
    assert forall s :: 0 <= s < |st.slots| && s != FilledSlot(st) ==> after.slots[s] == st.slots[s];
  }

  lemma FillKeepsTable<V>(st: State<V>, v: View<V>, mix: Key -> nat, key: Key, value: V, weight: nat)
    requires SlotsOk(st.slots, v.slotOf) && TableOk(st.table, st.slots, v.slotOf, v.placeOf, mix)
    requires key !in v.slotOf && |st.slots| < NONE
    requires st.free == NONE || (0 <= st.free < |st.slots| && st.slots[st.free].val.None?)
    ensures var after, w := Fill(st, key, value, weight), FillView(v, key, value, weight, FilledSlot(st));
            TableOk(st.table, after.slots, w.slotOf, v.placeOf, mix)
  {
    forall k | k in v.placeOf ensures Reachable(st.table, mix, k, v.placeOf[k]) {}
    var after := Fill(st, key, value, weight);
    assert forall s :: 0 <= s < |st.slots| && s != FilledSlot(st) ==> after.slots[s] == st.slots[s];
    forall a | 0 <= a < |st.table| && st.table[a] != NONE ensures after.slots[st.table[a]] == st.slots[st.table[a]] {
      var k := st.slots[st.table[a]].key;
      assert k in v.slotOf && st.table[v.placeOf[k]] == v.slotOf[k];
    }
  }

  lemma FillKeepsChained<V>(st: State<V>, v: View<V>, mix: Key -> nat, key: Key, value: V, weight: nat)
    requires ChainsOk(st.slots, st.chains, v.chain, mix) && AllChained(st.slots, v.chain, mix, {})
    requires st.free == NONE || (0 <= st.free < |st.slots| && st.slots[st.free].val.None?)
    ensures AllChained(Fill(st, key, value, weight).slots, v.chain, mix, {FilledSlot(st)})
  {
    var slot, after := FilledSlot(st), Fill(st, key, value, weight).slots;
    forall s | 0 <= s < |after| ensures Chained(after, v.chain, mix, s) <==> after[s].val.Some? && s !in {slot} {
      if s != slot {
        assert Chained(after, v.chain, mix, s) <==> Chained(st.slots, v.chain, mix, s);
      } else {
        NotInChains(st, v, mix, slot);
      }
    }
  }

  /** A vacant slot, or one past the slab, hangs in no chain at all. */
  lemma NotInChains<V>(st: State<V>, v: View<V>, mix: Key -> nat, slot: int)
    requires ChainsOk(st.slots, st.chains, v.chain, mix) && AllChained(st.slots, v.chain, mix, {})
    requires 0 <= slot < |st.slots| ==> st.slots[slot].val.None?
    ensures forall b :: 0 <= b < |v.chain| ==> slot !in v.chain[b]
  {
    forall b | 0 <= b < |v.chain| ensures slot !in v.chain[b] {
      assert BucketOk(st.slots, st.chains[b], v.chain[b], b, |st.chains|, mix);
      forall i | 0 <= i < |v.chain[b]| ensures v.chain[b][i] != slot {
        assert Bucket(mix, st.slots[v.chain[b][i]].key, |st.chains|) == b;
        assert Chained(st.slots, v.chain, mix, v.chain[b][i]);
      }
    }
  }

  /** The state after the read mark of a held slot was set or cleared. */
  function Mark<V>(st: State<V>, at: int, hot: bool): State<V>
    requires 0 <= at < |st.slots|
  {
    st.(slots := st.slots[at := st.slots[at].(hot := hot)])
  }

  ghost function MarkView<V>(v: View<V>, key: Key, hot: bool): View<V>
    requires key in v.contents
  {
    v.(contents := v.contents[key := v.contents[key].(hot := hot)])
  }

  lemma MarkKeeps<V>(st: State<V>, v: View<V>, mix: Key -> nat, at: int, hot: bool)
    requires Ok(st, v, mix) && 0 <= at < |st.slots| && st.slots[at].val.Some?
    ensures st.slots[at].key in v.contents
    ensures Ok(Mark(st, at, hot), MarkView(v, st.slots[at].key, hot), mix)
  {
    var key := st.slots[at].key;
    var after, w := Mark(st, at, hot), MarkView(v, key, hot);
    MarkKeepsEntries(st, v, mix, at, hot);
    MarkKeepsLists(st, v, mix, at, hot);
    TotalWeightWithout(v.contents, key);
    TotalWeightWithout(w.contents, key);
    assert v.contents - {key} == w.contents - {key};
    assert CountsOk(after, w.contents) by {
      assert w.contents.Keys == v.contents.Keys;
    }
  }

  lemma MarkKeepsEntries<V>(st: State<V>, v: View<V>, mix: Key -> nat, at: int, hot: bool)
    requires SlotsOk(st.slots, v.slotOf) && Shows(st.slots, v.slotOf, v.contents)
    requires TableOk(st.table, st.slots, v.slotOf, v.placeOf, mix)
    requires 0 <= at < |st.slots| && st.slots[at].val.Some?
    ensures var after, w := Mark(st, at, hot), MarkView(v, st.slots[at].key, hot);
            && SlotsOk(after.slots, w.slotOf) && Shows(after.slots, w.slotOf, w.contents)
            && TableOk(st.table, after.slots, w.slotOf, w.placeOf, mix)
  {
    forall k | k in v.placeOf ensures Reachable(st.table, mix, k, v.placeOf[k]) {}
  }

  lemma MarkKeepsLists<V>(st: State<V>, v: View<V>, mix: Key -> nat, at: int, hot: bool)
    requires ChainsOk(st.slots, st.chains, v.chain, mix) && AllChained(st.slots, v.chain, mix, {})
    requires FreeOk(st.slots, st.free, st.freeTail, v.frees) && AllFree(st.slots, v.frees)
    requires 0 <= at < |st.slots|
    ensures var after := Mark(st, at, hot).slots;
            && ChainsOk(after, st.chains, v.chain, mix) && AllChained(after, v.chain, mix, {})
            && FreeOk(after, st.free, st.freeTail, v.frees) && AllFree(after, v.frees)
  {
    var after := Mark(st, at, hot).slots;
    forall b | 0 <= b < |st.chains| ensures BucketOk(after, st.chains[b], v.chain[b], b, |st.chains|, mix) {
      assert BucketOk(st.slots, st.chains[b], v.chain[b], b, |st.chains|, mix);
    }
    forall s | 0 <= s < |after| ensures Chained(after, v.chain, mix, s) <==> after[s].val.Some? && s !in {} {
      assert Chained(after, v.chain, mix, s) <==> Chained(st.slots, v.chain, mix, s);
    }
    forall i | 0 <= i < |v.frees| ensures after[v.frees[i]].next == After(v.frees, i) {
      assert st.slots[v.frees[i]].next == After(v.frees, i);
    }
  }

  // ---- a regrown table ----

  /** The slots from one position on. */
  ghost function SlotsFrom(i: int, n: int): (r: set<int>)
    ensures forall s :: s in r <==> i <= s < n
    decreases n - i
  {
    if i >= n then {} else {i} + SlotsFrom(i + 1, n)
  }

  /** The state a regrow starts from: twice the places and buckets, all empty. */
  function Emptied<V>(st: State<V>): State<V> {
    st.(table := seq(|st.table| * 2, i => NONE), chains := seq(|st.chains| * 2, i => NONE))
  }

  ghost function EmptiedView<V>(v: View<V>): View<V> {
    v.(placeOf := map[], chain := seq(|v.chain| * 2, i => []))
  }

  lemma RegrowStarts<V>(st: State<V>, v: View<V>, mix: Key -> nat)
    requires Ok(st, v, mix)
    ensures OkBut(Emptied(st), EmptiedView(v), mix, SlotsFrom(0, |st.slots|), SlotsFrom(0, |st.slots|))
  {
    var after, w, all := Emptied(st), EmptiedView(v), SlotsFrom(0, |st.slots|);
    EmptyChains(st.slots, mix, |after.chains|, all);
    assert TableOk(after.table, st.slots, w.slotOf, w.placeOf, mix);
    assert AllPlaced(w.slotOf, w.placeOf, all);
    assert CountsOk(after, w.contents) by {
      assert PowerOfTwo(|after.table|);
    }
  }

  lemma EmptyChains<V>(slots: seq<Slot<V>>, mix: Key -> nat, n: nat, all: set<int>)
    requires n > 0 && |slots| <= NONE && forall s :: 0 <= s < |slots| ==> s in all
    ensures ChainsOk(slots, seq(n, i => NONE), seq(n, i => []), mix) && AllChained(slots, seq(n, i => []), mix, all)
  {
    var chains, chain: seq<seq<int>> := seq(n, i => NONE), seq(n, i => []);
    forall b | 0 <= b < n ensures BucketOk(slots, chains[b], chain[b], b, n, mix) {}
  }

  /** A vacant slot is owed to neither the table nor a chain. */
  lemma VacantIsNotOwed<V>(st: State<V>, v: View<V>, mix: Key -> nat, unplaced: set<int>, unchained: set<int>,
                           slot: int)
    requires OkBut(st, v, mix, unplaced, unchained) && 0 <= slot < |st.slots| && st.slots[slot].val.None?
    ensures OkBut(st, v, mix, unplaced - {slot}, unchained - {slot})
  {
    assert AllPlaced(v.slotOf, v.placeOf, unplaced - {slot});
    assert AllChained(st.slots, v.chain, mix, unchained - {slot}) by {
      forall s | 0 <= s < |st.slots|
        ensures Chained(st.slots, v.chain, mix, s) <==> st.slots[s].val.Some? && s !in unchained - {slot}
      {
        assert Chained(st.slots, v.chain, mix, s) <==> st.slots[s].val.Some? && s !in unchained;
      }
    }
  }

  // ---- a segment forgotten ----

  /** What is held outside one segment. */
  ghost function Outside<V>(m: map<Key, Entry<V>>, segment: int): map<Key, Entry<V>> {
    map k | k in m && SegmentOf(k) != segment :: m[k]
  }

  /** The first `i` slots of a chain have been split into those that stay, linked anew, and those that go. */
  ghost predicate Splitting<V>(was: seq<Slot<V>>, slots: seq<Slot<V>>, list: seq<int>, segment: int, i: int,
                               kept: seq<int>, going: seq<int>) {
    && 0 <= i <= |list| && SameEntries(was, slots)
    && (forall s :: 0 <= s < |slots| && s !in list[..i] ==> slots[s] == was[s])
    && Linked(slots, kept) && Distinct(going)
    && (forall s ::
      s in list[..i] ==> 0 <= s < |slots| && (if SegmentOf(slots[s].key) == segment then s in going else s in kept))
    && (forall s :: s in going ==> s in list[..i] && SegmentOf(slots[s].key) == segment)
    && (forall s :: s in kept ==> s in list[..i] && SegmentOf(slots[s].key) != segment)
  }

  lemma SplitGoes<V>(was: seq<Slot<V>>, slots: seq<Slot<V>>, list: seq<int>, segment: int, i: int, kept: seq<int>,
                     going: seq<int>)
    requires Splitting(was, slots, list, segment, i, kept, going) && i < |list| && Distinct(list)
    requires 0 <= list[i] < |slots| && SegmentOf(slots[list[i]].key) == segment
    ensures Splitting(was, slots, list, segment, i + 1, kept, going + [list[i]])
  {
    assert list[..i + 1] == list[..i] + [list[i]];
  }

  lemma SplitStays<V>(was: seq<Slot<V>>, slots: seq<Slot<V>>, list: seq<int>, segment: int, i: int, kept: seq<int>,
                      going: seq<int>)
    requires Splitting(was, slots, list, segment, i, kept, going) && i < |list| && Distinct(list) && |slots| <= NONE
    requires 0 <= list[i] < |slots| && SegmentOf(slots[list[i]].key) != segment
    ensures First(kept) == NONE || 0 <= First(kept) < |slots|
    ensures Splitting(was, LinkedFront(slots, list[i], First(kept)), list, segment, i + 1, [list[i]] + kept, going)
  {
    assert list[..i + 1] == list[..i] + [list[i]];
    assert list[i] !in kept;
    LinkedFrontKeeps(slots, kept, list[i]);
  }

  lemma LinkedFrontKeeps<V>(slots: seq<Slot<V>>, list: seq<int>, slot: int)
    requires Linked(slots, list) && 0 <= slot < |slots| <= NONE && slot !in list
    ensures First(list) == NONE || 0 <= First(list) < |slots|
    ensures Linked(LinkedFront(slots, slot, First(list)), [slot] + list)
  {
    var after, longer := LinkedFront(slots, slot, First(list)), [slot] + list;
    forall i | 0 <= i < |longer|
      ensures 0 <= longer[i] < |after|
      ensures after[longer[i]].next == After(longer, i) && after[longer[i]].prev == Before(longer, i)
    {
      if i > 0 {
        assert slots[list[i - 1]].next == After(list, i - 1) && slots[list[i - 1]].prev == Before(list, i - 1);
      }
    }
  }

  lemma SplitKeeps<V>(st: State<V>, v: View<V>, mix: Key -> nat, b: int, slots: seq<Slot<V>>, segment: int,
                      kept: seq<int>, going: seq<int>)
    requires Ok(st, v, mix) && 0 <= b < |v.chain|
    requires Splitting(st.slots, slots, v.chain[b], segment, |v.chain[b]|, kept, going)
    ensures OkBut(st.(slots := slots, chains := st.chains[b := First(kept)]), v.(chain := v.chain[b := kept]), mix, {},
      set s | s in going)
  {
    var list, n := v.chain[b], |st.chains|;
    assert list[..|list|] == list;
    assert BucketOk(st.slots, st.chains[b], list, b, n, mix);
    SameEntriesKeep(st.slots, slots, st.table, v, mix);
    forall s | s in list
      ensures 0 <= s < |slots| && Bucket(mix, slots[s].key, n) == b && Chained(st.slots, v.chain, mix, s)
    {
      var i :| 0 <= i < |list| && list[i] == s;
      assert Bucket(mix, st.slots[list[i]].key, n) == b;
    }
    FrameFree(st.slots, slots, st.free, st.freeTail, v.frees);
    SplitKeepsChains(st.slots, slots, st.chains, v.chain, mix, b, kept);
    SplitKeepsChained(st.slots, slots, v.chain, mix, b, kept, going);
  }

  lemma SplitKeepsChains<V>(was: seq<Slot<V>>, slots: seq<Slot<V>>, chains: seq<int>, chain: seq<seq<int>>,
                            mix: Key -> nat, b: int, kept: seq<int>)
    requires ChainsOk(was, chains, chain, mix) && 0 <= b < |chains| && SameEntries(was, slots) && Linked(slots, kept)
    requires forall s :: 0 <= s < |slots| && s !in chain[b] ==> slots[s] == was[s]
    requires forall s :: s in chain[b] ==> 0 <= s < |slots| && Bucket(mix, slots[s].key, |chains|) == b
    requires forall s :: s in kept ==> s in chain[b]
    ensures ChainsOk(slots, chains[b := First(kept)], chain[b := kept], mix)
  {
    var n, heads, lists := |chains|, chains[b := First(kept)], chain[b := kept];
    assert BucketOk(slots, heads[b], lists[b], b, n, mix);
    forall c | 0 <= c < n && c != b ensures BucketOk(slots, heads[c], lists[c], c, n, mix) {
      assert BucketOk(was, chains[c], chain[c], c, n, mix);
      FrameBucket(was, slots, chains[c], chain[c], c, n, mix, set s | s in chain[b]);
    }
  }

  lemma SplitKeepsChained<V>(was: seq<Slot<V>>, slots: seq<Slot<V>>, chain: seq<seq<int>>, mix: Key -> nat, b: int,
                             kept: seq<int>, going: seq<int>)
    requires 0 <= b < |chain| && SameEntries(was, slots) && AllChained(was, chain, mix, {})
    requires forall s :: s in chain[b] ==> 0 <= s < |slots| && Bucket(mix, slots[s].key, |chain|) == b
    requires forall s :: s in chain[b] <==> s in kept || s in going
    requires forall s :: s in kept ==> s !in going
    ensures AllChained(slots, chain[b := kept], mix, set s | s in going)
  {
    var lists := chain[b := kept];
    forall s | 0 <= s < |slots|
      ensures Chained(slots, lists, mix, s) <==> slots[s].val.Some? && s !in set t | t in going
    {
      assert Chained(was, chain, mix, s) <==> was[s].val.Some?;
    }
  }

  /** The slots a split sends away are exactly the held ones of the segment. */
  lemma SplitFindsSegment<V>(st: State<V>, v: View<V>, mix: Key -> nat, slots: seq<Slot<V>>, segment: int,
                             kept: seq<int>, going: seq<int>)
    requires Ok(st, v, mix)
    requires var b := Home(mix, SegmentKey(segment), |st.chains|); Splitting(st.slots, slots, v.chain[b], segment,
      |v.chain[b]|, kept, going)
    ensures forall i :: 0 <= i < |going| ==>
      0 <= going[i] < |slots| && slots[going[i]].val.Some? && SegmentOf(slots[going[i]].key) == segment
    ensures forall k :: k in v.contents && SegmentOf(k) == segment ==> v.slotOf[k] in going
  {
    var b := Home(mix, SegmentKey(segment), |st.chains|);
    var list := v.chain[b];
    assert list[..|list|] == list;
    assert BucketOk(st.slots, st.chains[b], list, b, |st.chains|, mix);
    forall j | 0 <= j < |going|
      ensures 0 <= going[j] < |slots| && slots[going[j]].val.Some? && SegmentOf(slots[going[j]].key) == segment
    {
      var s := going[j];
      assert s in going;
      var i :| 0 <= i < |list| && list[i] == s;
      assert Bucket(mix, st.slots[list[i]].key, |st.chains|) == b;
      assert Chained(st.slots, v.chain, mix, s);
    }
    forall k | k in v.contents && SegmentOf(k) == segment ensures v.slotOf[k] in going {
      assert Chained(st.slots, v.chain, mix, v.slotOf[k]);
    }
  }

  /** A chain is linked from its head and its slots are held. */
  lemma ChainIsHeld<V>(st: State<V>, v: View<V>, mix: Key -> nat, b: int)
    requires Ok(st, v, mix) && 0 <= b < |v.chain|
    ensures Linked(st.slots, v.chain[b]) && st.chains[b] == First(v.chain[b])
    ensures forall i :: 0 <= i < |v.chain[b]| ==> st.slots[v.chain[b][i]].val.Some?
  {
    assert BucketOk(st.slots, st.chains[b], v.chain[b], b, |st.chains|, mix);
    forall i | 0 <= i < |v.chain[b]| ensures st.slots[v.chain[b][i]].val.Some? {
      assert Bucket(mix, st.slots[v.chain[b][i]].key, |st.chains|) == b;
      assert Chained(st.slots, v.chain, mix, v.chain[b][i]);
    }
  }

  /** Where in its chain a held slot is linked. */
  lemma PlaceInChain<V>(st: State<V>, v: View<V>, mix: Key -> nat, at: int) returns (i: int)
    requires Ok(st, v, mix) && 0 <= at < |st.slots| && st.slots[at].val.Some?
    ensures var b := Bucket(mix, st.slots[at].key, |st.chains|); 0 <= i < |v.chain[b]| && v.chain[b][i] == at
  {
    assert Chained(st.slots, v.chain, mix, at);
    var b := Bucket(mix, st.slots[at].key, |st.chains|);
    i :| 0 <= i < |v.chain[b]| && v.chain[b][i] == at;
  }

  lemma TailIsVacant<V>(st: State<V>, v: View<V>)
    requires FreeOk(st.slots, st.free, st.freeTail, v.frees) && AllFree(st.slots, v.frees)
    ensures st.freeTail == NONE || (0 <= st.freeTail < |st.slots| && st.slots[st.freeTail].val.None?)
  {
    if v.frees != [] { assert v.frees[|v.frees| - 1] in v.frees; }
  }

  lemma SlotsFromStep(i: int, n: int)
    requires i < n
    ensures SlotsFrom(i, n) - {i} == SlotsFrom(i + 1, n)
  {}

  // ---- the slots of a forgotten segment given back one by one ----

  /** The elements of a list from one position on. */
  ghost function TailSet(list: seq<int>, i: int): (r: set<int>)
    requires 0 <= i <= |list|
    ensures forall s :: s in r <==> exists j :: i <= j < |list| && list[j] == s
    decreases |list| - i
  {
    if i == |list| then {} else {list[i]} + TailSet(list, i + 1)
  }

  lemma TailSetStep(list: seq<int>, i: int)
    requires Distinct(list) && 0 <= i < |list|
    ensures TailSet(list, i) - {list[i]} == TailSet(list, i + 1)
  {}

  /** The map without the keys of the first `i` slots of a list. */
  ghost function DropFirst<V>(m: map<Key, Entry<V>>, slots: seq<Slot<V>>, list: seq<int>, i: int): map<Key, Entry<V>>
    requires 0 <= i <= |list| && forall j :: 0 <= j < |list| ==> 0 <= list[j] < |slots|
  {
    if i == 0 then m else DropFirst(m, slots, list, i - 1) - {slots[list[i - 1]].key}
  }

  lemma {:induction false} DropFirstKeys<V>(m: map<Key, Entry<V>>, slots: seq<Slot<V>>, list: seq<int>, i: int)
    requires 0 <= i <= |list| && forall j :: 0 <= j < |list| ==> 0 <= list[j] < |slots|
    ensures forall k :: k in DropFirst(m, slots, list, i) <==> k in m && forall j {:trigger list[j]} ::
      0 <= j < i ==> slots[list[j]].key != k
    ensures forall k :: k in DropFirst(m, slots, list, i) ==> DropFirst(m, slots, list, i)[k] == m[k]
  {
    if i > 0 { DropFirstKeys(m, slots, list, i - 1); }
  }

  /** Dropping every held slot of a segment leaves what is outside it. */
  lemma DropSegment<V>(v: View<V>, slots: seq<Slot<V>>, list: seq<int>, segment: int)
    requires SlotsOk(slots, v.slotOf) && Shows(slots, v.slotOf, v.contents)
    requires forall j :: 0 <= j < |list| ==> 0 <= list[j] < |slots| && SegmentOf(slots[list[j]].key) == segment
    requires forall k :: k in v.contents && SegmentOf(k) == segment ==> v.slotOf[k] in list
    ensures DropFirst(v.contents, slots, list, |list|) == Outside(v.contents, segment)
    ensures DropFirst(v.contents, slots, list, 0) == v.contents
  {
    DropFirstKeys(v.contents, slots, list, |list|);
    var dropped, outside := DropFirst(v.contents, slots, list, |list|), Outside(v.contents, segment);
    forall k | k in v.contents ensures k in dropped <==> k in outside {
      if SegmentOf(k) == segment {
        var j :| 0 <= j < |list| && list[j] == v.slotOf[k];
        assert slots[list[j]].key == k;
      }
    }
    forall k ensures k in dropped.Keys <==> k in outside.Keys {
      assert k in dropped ==> k in v.contents;
    }
  }

  /** The slots still to go are as they were, and the map has lost the keys of those gone. */
  ghost predicate Freeing<V>(start: seq<Slot<V>>, slots: seq<Slot<V>>, held: map<Key, Entry<V>>,
                             contents: map<Key, Entry<V>>, list: seq<int>, i: int) {
    var freeing :=
      && 0 <= i <= |list| && |slots| == |start| && Distinct(list)
      && (forall j :: 0 <= j < |list| ==> 0 <= list[j] < |start|)
      && (forall j :: i <= j < |list| ==> start[list[j]].val.Some? && slots[list[j]] == start[list[j]])
      && contents == DropFirst(held, start, list, i);
    freeing
  }

  lemma FreeingStep<V>(start: seq<Slot<V>>, slots: seq<Slot<V>>, held: map<Key, Entry<V>>,
                       contents: map<Key, Entry<V>>, list: seq<int>, i: int, tail: int)
    requires Freeing(start, slots, held, contents, list, i) && i < |list|
    requires tail == NONE || (0 <= tail < |slots| && slots[tail].val.None?)
    ensures Freeing(start, Vacated(slots, list[i], tail), held, contents - {slots[list[i]].key}, list, i + 1)
  {}

  // ---- the hand ----

  /** The counts a shard keeps are those of the map. */
  lemma CountsHold<V>(st: State<V>, v: View<V>, mix: Key -> nat)
    requires Ok(st, v, mix)
    ensures st.filled == |v.contents| && st.bytes == TotalWeight(v.contents)
    ensures st.filled == 0 <==> v.contents == map[]
  {}

  lemma PickHeld<V>(m: map<Key, Entry<V>>) returns (k: Key)
    requires |m| > 0
    ensures k in m
  {
    if forall k :: k !in m {
      assert false;
    }
    k :| k in m;
  }

  /** The map with the read marks cleared of the entries the hand meets within `steps`. */
  ghost function Cooled<V>(contents: map<Key, Entry<V>>, slotOf: map<Key, int>, hand: int, n: int,
                           steps: int): map<Key, Entry<V>>
    requires 0 <= hand < n && forall k :: k in contents ==> k in slotOf && 0 <= slotOf[k] < n
  {
    map k | k in contents :: if Dist(hand, slotOf[k], n) < steps then contents[k].(hot := false) else contents[k]
  }

  lemma CooledAlike<V>(held: map<Key, Entry<V>>, slotOf: map<Key, int>, h: int, n: int, a: int, b: int)
    requires 0 <= h < n && forall k :: k in held ==> k in slotOf && 0 <= slotOf[k] < n
    requires forall k :: k in held ==> (Dist(h, slotOf[k], n) < a <==> Dist(h, slotOf[k], n) < b)
    ensures Cooled(held, slotOf, h, n, a) == Cooled(held, slotOf, h, n, b)
  {
    forall k | k in held ensures Cooled(held, slotOf, h, n, a)[k] == Cooled(held, slotOf, h, n, b)[k] {}
  }

  /** The hand has taken `count` steps from `h`, met only read entries, and met none on its second turn. */
  ghost predicate Swept<V>(held: map<Key, Entry<V>>, contents: map<Key, Entry<V>>, slotOf: map<Key, int>, h: int,
                           n: int, count: int) {
    var passed :=
      && 0 <= h < n && 0 <= count <= 2 * n && (forall k :: k in held ==> k in slotOf && 0 <= slotOf[k] < n)
      && contents == Cooled(held, slotOf, h, n, count)
      && (forall k :: k in held && Dist(h, slotOf[k], n) < count ==> held[k].hot)
      && (forall k :: k in held ==> Dist(h, slotOf[k], n) >= count - n);
    passed
  }

  /** Where the hand stands after `count` steps, at most two turns. */
  function HandAt(h: int, n: int, count: int): int
    requires 0 <= h < n && 0 <= count <= 2 * n
  {
    if h + count < n then h + count else if h + count < 2 * n then h + count - n else h + count - 2 * n
  }

  lemma HandAtStep(h: int, n: int, count: int)
    requires 0 <= h < n && 0 <= count < 2 * n
    ensures 0 <= HandAt(h, n, count) < n && HandAt(h, n, count + 1) == Next(HandAt(h, n, count), n)
  {}

  lemma SweepStarts<V>(st: State<V>, v: View<V>, mix: Key -> nat)
    requires Ok(st, v, mix) && |v.contents| > 0
    ensures Swept(v.contents, v.contents, v.slotOf, st.hand, |st.slots|, 0)
  {
    var k := PickHeld(v.contents);
    assert 0 <= v.slotOf[k] < |st.slots|;
    var cooled := Cooled(v.contents, v.slotOf, st.hand, |st.slots|, 0);
    forall k | k in v.contents ensures cooled[k] == v.contents[k] {}
    assert cooled.Keys == v.contents.Keys;
  }

  /** What the map says of the slot the hand stands on. */
  lemma SlotFacts<V>(st: State<V>, v: View<V>, mix: Key -> nat, at: int)
    requires Ok(st, v, mix) && 0 <= at < |st.slots|
    ensures st.slots[at].val.None? ==> forall k :: k in v.contents ==> v.slotOf[k] != at
    ensures st.slots[at].val.Some? ==>
      var key := st.slots[at].key; key in v.contents && v.slotOf[key] == at && v.contents[key] == EntryOf(st.slots[at])
    ensures forall k, j :: k in v.contents && j in v.contents && v.slotOf[k] == v.slotOf[j] ==> k == j
  {}

  /** The slot of a held key shows its entry. */
  lemma HeldFacts<V>(st: State<V>, v: View<V>, mix: Key -> nat, key: Key)
    requires Ok(st, v, mix) && key in v.contents
    ensures key in v.slotOf && 0 <= v.slotOf[key] < |st.slots|
    ensures var slot := st.slots[v.slotOf[key]]; slot.key == key && slot.val.Some? && v.contents[key] == EntryOf(slot)
  {}

  lemma HandKeeps<V>(st: State<V>, v: View<V>, mix: Key -> nat, hand: int)
    requires Ok(st, v, mix) && 0 <= hand < |st.slots|
    ensures Ok(st.(hand := hand), v, mix)
  {}

  lemma SweepPassesVacant<V>(held: map<Key, Entry<V>>, contents: map<Key, Entry<V>>, slotOf: map<Key, int>, h: int,
                             n: int, count: int)
    requires Swept(held, contents, slotOf, h, n, count) && count < 2 * n
    requires forall k :: k in held ==> slotOf[k] != HandAt(h, n, count)
    ensures Swept(held, contents, slotOf, h, n, count + 1)
  {
    CooledAlike(held, slotOf, h, n, count, count + 1);
  }

  lemma SweepCools<V>(held: map<Key, Entry<V>>, contents: map<Key, Entry<V>>, slotOf: map<Key, int>, h: int, n: int,
                      count: int, key: Key)
    requires Swept(held, contents, slotOf, h, n, count) && count < 2 * n
    requires key in held && slotOf[key] == HandAt(h, n, count) && contents[key].hot
    requires forall k :: k in held && slotOf[k] == slotOf[key] ==> k == key
    ensures count < n && Swept(held, contents[key := contents[key].(hot := false)], slotOf, h, n, count + 1)
  {
    var after, cooled := contents[key := contents[key].(hot := false)], Cooled(held, slotOf, h, n, count + 1);
    forall k | k in held ensures after[k] == cooled[k] {
      assert Dist(h, slotOf[k], n) == count ==> k == key;
    }
    assert after.Keys == cooled.Keys == held.Keys;
  }

  /** Two turns of the hand meet an unread entry when anything is held. */
  lemma SweepMeets<V>(held: map<Key, Entry<V>>, contents: map<Key, Entry<V>>, slotOf: map<Key, int>, h: int, n: int,
                      count: int)
    requires Swept(held, contents, slotOf, h, n, count) && |held| > 0
    ensures count < 2 * n
  {
    var k := PickHeld(held);
    assert Dist(h, slotOf[k], n) < n;
  }

  /**
   The entry the hand gives up, and what it leaves of the marks: the first entry not read since the hand
   last passed it, or, when every entry was read, the first one met on the second turn.
   */
  ghost predicate Victim<V>(held: map<Key, Entry<V>>, swept: map<Key, Entry<V>>, slotOf: map<Key, int>, h: int, n: int,
                            key: Key) {
    var chosen :=
      && 0 <= h < n && (forall k :: k in held ==> k in slotOf && 0 <= slotOf[k] < n)
      && key in held
      && swept == Cooled(held, slotOf, h, n, if held[key].hot then n else Dist(h, slotOf[key], n))
      && (forall k :: k in held && Dist(h, slotOf[k], n) < Dist(h, slotOf[key], n) ==> held[k].hot && !held[key].hot)
      && (held[key].hot ==> forall k :: k in held ==> held[k].hot);
    chosen
  }

  lemma SweepEnds<V>(held: map<Key, Entry<V>>, contents: map<Key, Entry<V>>, slotOf: map<Key, int>, h: int, n: int,
                     count: int, key: Key)
    requires Swept(held, contents, slotOf, h, n, count) && count < 2 * n
    requires key in contents && key in slotOf && slotOf[key] == HandAt(h, n, count) && !contents[key].hot
    ensures key in held && contents[key].weight == held[key].weight
    ensures Victim(held, contents, slotOf, h, n, key)
  {
    if held[key].hot {
      assert count >= n;
      CooledAlike(held, slotOf, h, n, count, n);
    } else {
      assert count == Dist(h, slotOf[key], n);
    }
  }
}
